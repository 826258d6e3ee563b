// The verification decision.
module Evaluation {
  import opened Text
  import opened Artifact
  import opened Requests
  import opened Tables

  const DEFAULT_POLICY := "kyc-passport-basic"
  const DEFAULT_TEMPLATE := "hdip-passport-basic"

  // What the trust registry answered. Any failure other than an unavailable
  // runtime is reported like a missing issuer.
  datatype TrustRead = TrustState(state: string) | TrustUnavailable | TrustRefused

  function StatusSnapshot(record: Credential, at: int): Snapshot {
    if record.status == REVOKED then RevokedNow
    else if record.status == SUPERSEDED then SupersededNow
    else if record.expiresAt != 0 && at > record.expiresAt then ExpiredNow
    else ActiveNow
  }

  predicate PolicyCompatible(policyId: string, templateId: string) {
    Trim(policyId) == DEFAULT_POLICY && Trim(templateId) == DEFAULT_TEMPLATE
  }

  predicate Continuous(lib: Library, e: Envelope, record: Credential, byDigest: bool) {
    && byDigest
    && e.credentialId == record.credentialId
    && e.issuerId == record.issuerId
    && e.templateId == record.templateId
    && e.expiresAt == lib.rfc3339(record.expiresAt)
  }

  predicate NamesCredential(credentialId: string, e: Envelope) {
    credentialId == "" || Trim(credentialId) == e.credentialId
  }

  // The reason of the first failing check, in the order the checks are made;
  // none when every check passes.
  function FirstFailure(
    lib: Library, policyId: string, credentialId: string, e: Envelope, record: Credential, byDigest: bool,
    at: int, trust: TrustRead): Option<Reason>
  {
    var snapshot := StatusSnapshot(record, at);
    if !NamesCredential(credentialId, e) then Some(CredentialIdMismatch)
    else if !Continuous(lib, e, record, byDigest) then Some(ArtifactContinuityFailed)
    else if !trust.TrustState? then Some(IssuerNotTrusted)
    else if Trim(trust.state) == SUSPENDED then Some(IssuerSuspended)
    else if Trim(trust.state) != ACTIVE then Some(IssuerNotTrusted)
    else if snapshot.RevokedNow? then Some(CredentialStatusRevoked)
    else if snapshot.SupersededNow? then Some(CredentialStatusSuperseded)
    else if snapshot.ExpiredNow? then Some(CredentialExpired)
    else if !PolicyCompatible(policyId, record.templateId) then Some(TemplateMismatch)
    else None
  }

  // The issuer trust state that is stored with the result.
  function TrustLabel(
    lib: Library, credentialId: string, e: Envelope, record: Credential, byDigest: bool, trust: TrustRead): string
  {
    if !NamesCredential(credentialId, e) || !Continuous(lib, e, record, byDigest) then ""
    else
      match trust
      case TrustState(state) => state
      case TrustUnavailable => "unavailable"
      case TrustRefused => "missing"
  }

  function Judgement(
    lib: Library, policyId: string, credentialId: string, e: Envelope, record: Credential, byDigest: bool,
    verificationId: string, at: int, trust: TrustRead): ResultRecord
  {
    var failure := FirstFailure(lib, policyId, credentialId, e, record, byDigest, at, trust);
    ResultRecord(
      verificationId,
      if NamesCredential(credentialId, e) && Continuous(lib, e, record, byDigest) then record.issuerId else e.issuerId,
      if failure.None? then Allow else Deny,
      if failure.None? then [IssuerTrusted, CredentialStatusActive, TemplateMatch] else [failure.value],
      TrustLabel(lib, credentialId, e, record, byDigest, trust),
      StatusSnapshot(record, at),
      at)
  }

  // The handler's own form: one result updated on the way to the first return.
  method EvaluateVerification(
    lib: Library, policyId: string, credentialId: string, e: Envelope, record: Credential, byDigest: bool,
    verificationId: string, at: int, trust: TrustRead) returns (result: ResultRecord)
    ensures result == Judgement(lib, policyId, credentialId, e, record, byDigest, verificationId, at, trust)
  {
    var snapshot := StatusSnapshot(record, at);
    result := ResultRecord(verificationId, e.issuerId, Deny, [ArtifactContinuityFailed], "", snapshot, at);
    if credentialId != "" && Trim(credentialId) != e.credentialId {
      result := result.(reasons := [CredentialIdMismatch]);
      return;
    }
    if !byDigest || e.credentialId != record.credentialId || e.issuerId != record.issuerId
       || e.templateId != record.templateId || e.expiresAt != lib.rfc3339(record.expiresAt) {
      return;
    }
    result := result.(issuerId := record.issuerId);
    match trust
    case TrustUnavailable =>
      result := result.(trustState := "unavailable", reasons := [IssuerNotTrusted]);
      return;
    case TrustRefused =>
      result := result.(trustState := "missing", reasons := [IssuerNotTrusted]);
      return;
    case TrustState(state) =>
      result := result.(trustState := state);
      if Trim(state) == SUSPENDED {
        result := result.(reasons := [IssuerSuspended]);
        return;
      }
      if Trim(state) != ACTIVE {
        result := result.(reasons := [IssuerNotTrusted]);
        return;
      }
      match snapshot {
        case RevokedNow =>
          result := result.(reasons := [CredentialStatusRevoked]);
          return;
        case SupersededNow =>
          result := result.(reasons := [CredentialStatusSuperseded]);
          return;
        case ExpiredNow =>
          result := result.(reasons := [CredentialExpired]);
          return;
        case ActiveNow =>
      }
      if !PolicyCompatible(policyId, record.templateId) {
        result := result.(reasons := [TemplateMismatch]);
        return;
      }
      result := result.(decision := Allow, reasons := [IssuerTrusted, CredentialStatusActive, TemplateMatch]);
  }

  // When a submission is allowed: all of the following, and nothing less.
  lemma AllowExactly(
    lib: Library, policyId: string, credentialId: string, e: Envelope, record: Credential, byDigest: bool,
    verificationId: string, at: int, trust: TrustRead)
    ensures Judgement(lib, policyId, credentialId, e, record, byDigest, verificationId, at, trust).decision.Allow?
            <==> && NamesCredential(credentialId, e)
                 && Continuous(lib, e, record, byDigest)
                 && trust.TrustState? && Trim(trust.state) == ACTIVE
                 && record.status != REVOKED && record.status != SUPERSEDED
                 && (record.expiresAt == 0 || at <= record.expiresAt)
                 && PolicyCompatible(policyId, record.templateId)
  {
    assert SUSPENDED != ACTIVE;
  }

  predicate TrustedAs(trust: TrustRead, state: string) {
    trust.TrustState? && Trim(trust.state) == state
  }

  predicate PastExpiry(record: Credential, at: int) {
    record.expiresAt != 0 && record.expiresAt < at
  }

  // Which reasons a result carries: each single reason exactly when its own check
  // fails and all earlier ones pass, the three of an allow exactly when all pass.
  predicate ReasonsAre(
    reasons: seq<Reason>, named: bool, unmodified: bool, trust: TrustRead, status: string, expired: bool, compatible: bool)
  {
    var sound := named && unmodified;
    var trusted := sound && TrustedAs(trust, "active");
    var current := trusted && status != "revoked" && status != "superseded";
    && (reasons == [CredentialIdMismatch] <==> !named)
    && (reasons == [ArtifactContinuityFailed] <==> named && !unmodified)
    && (reasons == [IssuerSuspended] <==> sound && TrustedAs(trust, "suspended"))
    && (reasons == [IssuerNotTrusted] <==> sound && !TrustedAs(trust, "active") && !TrustedAs(trust, "suspended"))
    && (reasons == [CredentialStatusRevoked] <==> trusted && status == "revoked")
    && (reasons == [CredentialStatusSuperseded] <==> trusted && status == "superseded")
    && (reasons == [CredentialExpired] <==> current && expired)
    && (reasons == [TemplateMismatch] <==> current && !expired && !compatible)
    && (reasons == [IssuerTrusted, CredentialStatusActive, TemplateMatch] <==> current && !expired && compatible)
  }

  // What the stored snapshot says of the record, and the trust column of the answer
  // the registry gave, if it was asked.
  predicate SnapshotIs(snapshot: Snapshot, record: Credential, at: int) {
    && (snapshot.RevokedNow? <==> record.status == "revoked")
    && (snapshot.SupersededNow? <==> record.status == "superseded")
    && (snapshot.ExpiredNow? <==> record.status != "revoked" && record.status != "superseded" && PastExpiry(record, at))
    && (snapshot.ActiveNow? <==> record.status != "revoked" && record.status != "superseded" && !PastExpiry(record, at))
  }

  predicate TrustColumnIs(column: string, asked: bool, trust: TrustRead) {
    && (!asked ==> column == "")
    && (asked && trust.TrustState? ==> column == trust.state)
    && (asked && trust.TrustUnavailable? ==> column == "unavailable")
    && (asked && trust.TrustRefused? ==> column == "missing")
  }

  // Every field of a result, from the submission, the record and the registry's answer.
  lemma ReasonsExactly(
    lib: Library, policyId: string, credentialId: string, e: Envelope, record: Credential, byDigest: bool,
    verificationId: string, at: int, trust: TrustRead)
    ensures
      var r := Judgement(lib, policyId, credentialId, e, record, byDigest, verificationId, at, trust);
      var named := credentialId == "" || Trim(credentialId) == e.credentialId;
      var unmodified :=
        && byDigest && e.credentialId == record.credentialId && e.issuerId == record.issuerId
        && e.templateId == record.templateId && e.expiresAt == lib.rfc3339(record.expiresAt);
      && ReasonsAre(r.reasons, named, unmodified, trust, record.status, PastExpiry(record, at),
                    Trim(policyId) == "kyc-passport-basic" && Trim(record.templateId) == "hdip-passport-basic")
      && (r.decision.Allow? <==> r.reasons == [IssuerTrusted, CredentialStatusActive, TemplateMatch])
      && SnapshotIs(r.credentialStatus, record, at)
      && TrustColumnIs(r.trustState, named && unmodified, trust)
      && r.issuerId == e.issuerId && r.verificationId == verificationId && r.evaluatedAt == at
  {
    assert SUSPENDED != ACTIVE && REVOKED != SUPERSEDED;
  }
}
