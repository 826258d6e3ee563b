// The three Phase 1 write requests, their validation, their idempotency keys and
// their fingerprints.
module Requests {
  import opened Text
  import opened Artifact
  import Json

  datatype Operation = IssueCredential | WriteStatus | CreateVerification

  datatype Caller = Caller(principalId: string, organizationId: string, actorType: string)

  datatype Claims = Claims(
    fullLegalName: string,
    dateOfBirth: string,
    countryOfResidence: string,
    documentCountry: string,
    kycLevel: string,
    verifiedAt: int,
    expiresAt: int)

  datatype Request =
    | Issue(caller: Caller, idempotencyHeader: string, templateId: string, subjectReference: string, claims: Claims)
    | Status(caller: Caller, idempotencyHeader: string, pathId: string, status: string, supersededBy: string)
    | Verify(caller: Caller, idempotencyHeader: string, policyId: string, credentialId: string,
             kind: string, mediaType: string, value: string)
  {
    function Op(): Operation {
      match this
      case Issue(_, _, _, _, _) => IssueCredential
      case Status(_, _, _, _, _) => WriteStatus
      case Verify(_, _, _, _, _, _, _) => CreateVerification
    }
  }

  // The five-part primary key of an idempotency record.
  datatype Key = Key(op: Operation, organizationId: string, principalId: string, actorType: string, idempotencyKey: string)

  // The key a request reserves; none without an Idempotency-Key header.
  function KeyOf(request: Request): Option<Key> {
    var header := Trim(request.idempotencyHeader);
    if header == "" then None
    else Some(Key(request.Op(), Trim(request.caller.organizationId), Trim(request.caller.principalId),
                  Trim(request.caller.actorType), Trim(header)))
  }

  // Two requests reserve the same key, or neither reserves one, exactly when their
  // trimmed headers agree and, if there is one, so do operation, organization,
  // principal and actor type: keys of different callers are kept apart.
  lemma SameKeyExactly(r1: Request, r2: Request)
    ensures KeyOf(r1) == KeyOf(r2)
            <==> && Trim(r1.idempotencyHeader) == Trim(r2.idempotencyHeader)
                 && (Trim(r1.idempotencyHeader) != "" ==>
                       && r1.Op() == r2.Op()
                       && Trim(r1.caller.organizationId) == Trim(r2.caller.organizationId)
                       && Trim(r1.caller.principalId) == Trim(r2.caller.principalId)
                       && Trim(r1.caller.actorType) == Trim(r2.caller.actorType))
    ensures KeyOf(r1).None? <==> Trim(r1.idempotencyHeader) == ""
  {
    TrimIdempotent(r1.idempotencyHeader);
    TrimIdempotent(r2.idempotencyHeader);
  }

  const ACTIVE := "active"
  const REVOKED := "revoked"
  const SUPERSEDED := "superseded"
  const SUSPENDED := "suspended"

  const ARTIFACT_KIND := "phase1_opaque_artifact"
  const ARTIFACT_MEDIA_TYPE := "application/vnd.hdip.phase1-opaque-artifact"

  // What the attribution of an authenticated caller must have.
  predicate Attributed(c: Caller) {
    Trim(c.principalId) != "" && Trim(c.organizationId) != "" && Trim(c.actorType) != ""
  }

  predicate IsCountryCode(s: string) {
    |s| == 2 && 'A' <= s[0] <= 'Z' && 'A' <= s[1] <= 'Z'
  }

  predicate ValidClaims(lib: Library, c: Claims) {
    && Trim(c.fullLegalName) != ""
    && Trim(c.dateOfBirth) != "" && lib.isIsoDate(c.dateOfBirth)
    && IsCountryCode(c.countryOfResidence)
    && IsCountryCode(c.documentCountry)
    && Trim(c.kycLevel) != ""
    && c.verifiedAt != 0
    && c.expiresAt != 0
  }

  predicate ValidStatusChange(status: string, supersededBy: string) {
    || (Trim(status) == REVOKED && Trim(supersededBy) == "")
    || (Trim(status) == SUPERSEDED && Trim(supersededBy) != "")
  }

  predicate Valid(lib: Library, request: Request) {
    match request
    case Issue(_, _, templateId, subject, claims) =>
      Trim(templateId) != "" && Trim(subject) != "" && ValidClaims(lib, claims)
    case Status(_, _, _, status, supersededBy) =>
      ValidStatusChange(status, supersededBy)
    case Verify(_, _, policyId, _, kind, mediaType, value) =>
      && Trim(policyId) != ""
      && Trim(kind) == ARTIFACT_KIND
      && Trim(mediaType) == ARTIFACT_MEDIA_TYPE
      && Trim(value) != ""
  }

  const ISSUE_SHAPE: seq<string> := [
    "{\"templateId\":\"", ",\"subjectReference\":\"", ",\"claims\":{\"fullLegalName\":\"",
    ",\"dateOfBirth\":\"", ",\"countryOfResidence\":\"", ",\"documentCountry\":\"",
    ",\"kycLevel\":\"", ",\"verifiedAt\":\"", ",\"expiresAt\":\"", "}}"
  ]

  const STATUS_SHAPE: seq<string> := [
    "{\"credentialId\":\"", ",\"status\":\"", ",\"supersededByCredentialId\":\"", "}"
  ]

  const VERIFY_SHAPE: seq<string> := [
    "{\"policyId\":\"", ",\"credentialId\":\"", ",\"credentialArtifactKind\":\"",
    ",\"credentialArtifactDigest\":\"", ",\"credentialArtifactMediaType\":\"", "}"
  ]

  function Shape(op: Operation): seq<string> {
    match op
    case IssueCredential => ISSUE_SHAPE
    case WriteStatus => STATUS_SHAPE
    case CreateVerification => VERIFY_SHAPE
  }

  function FingerprintFields(lib: Library, request: Request): (v: seq<string>)
    ensures |Shape(request.Op())| == |v| + 1
  {
    match request
    case Issue(_, _, templateId, subject, c) =>
      [Trim(templateId), Trim(subject), Trim(c.fullLegalName), Trim(c.dateOfBirth), Trim(c.countryOfResidence),
       Trim(c.documentCountry), Trim(c.kycLevel), lib.rfc3339Nano(c.verifiedAt), lib.rfc3339Nano(c.expiresAt)]
    case Status(_, _, pathId, status, supersededBy) =>
      [Trim(pathId), Trim(status), Trim(supersededBy)]
    case Verify(_, _, policyId, credentialId, kind, mediaType, value) =>
      [Trim(policyId), Trim(credentialId), Trim(kind), Digest(lib, Trim(value)), Trim(mediaType)]
  }

  function Fingerprint(lib: Library, request: Request): string {
    lib.sha256(Json.Fill(Shape(request.Op()), FingerprintFields(lib, request)))
  }

  // Two requests of one operation share a fingerprint exactly when their trimmed
  // fields agree: the printed JSON keeps every field apart.
  lemma SameFingerprint(lib: Library, r1: Request, r2: Request)
    requires CollisionFree(lib)
    requires r1.Op() == r2.Op()
    ensures Fingerprint(lib, r1) == Fingerprint(lib, r2)
            <==> FingerprintFields(lib, r1) == FingerprintFields(lib, r2)
  {
    var shape := Shape(r1.Op());
    if Fingerprint(lib, r1) == Fingerprint(lib, r2) {
      Json.FillInjective(shape, FingerprintFields(lib, r1), FingerprintFields(lib, r2));
    }
  }

  lemma SameIssueFingerprint(lib: Library, r1: Request, r2: Request)
    requires CollisionFree(lib) && r1.Issue? && r2.Issue?
    ensures Fingerprint(lib, r1) == Fingerprint(lib, r2)
            <==> && Trim(r1.templateId) == Trim(r2.templateId)
                 && Trim(r1.subjectReference) == Trim(r2.subjectReference)
                 && SameClaimTexts(lib, r1.claims, r2.claims)
  {
    SameFingerprint(lib, r1, r2);
    var v, w := FingerprintFields(lib, r1), FingerprintFields(lib, r2);
    assert v == w <==> v[0] == w[0] && v[1] == w[1] && v[2] == w[2] && v[3] == w[3] && v[4] == w[4]
                       && v[5] == w[5] && v[6] == w[6] && v[7] == w[7] && v[8] == w[8];
  }

  // The claims agree as a fingerprint sees them: texts up to trimming, times as printed.
  predicate SameClaimTexts(lib: Library, c: Claims, d: Claims) {
    && Trim(c.fullLegalName) == Trim(d.fullLegalName)
    && Trim(c.dateOfBirth) == Trim(d.dateOfBirth)
    && Trim(c.countryOfResidence) == Trim(d.countryOfResidence)
    && Trim(c.documentCountry) == Trim(d.documentCountry)
    && Trim(c.kycLevel) == Trim(d.kycLevel)
    && lib.rfc3339Nano(c.verifiedAt) == lib.rfc3339Nano(d.verifiedAt)
    && lib.rfc3339Nano(c.expiresAt) == lib.rfc3339Nano(d.expiresAt)
  }

  lemma SameStatusFingerprint(lib: Library, r1: Request, r2: Request)
    requires CollisionFree(lib) && r1.Status? && r2.Status?
    ensures Fingerprint(lib, r1) == Fingerprint(lib, r2)
            <==> && Trim(r1.pathId) == Trim(r2.pathId)
                 && Trim(r1.status) == Trim(r2.status)
                 && Trim(r1.supersededBy) == Trim(r2.supersededBy)
  {
    SameFingerprint(lib, r1, r2);
    var v, w := FingerprintFields(lib, r1), FingerprintFields(lib, r2);
    assert v == w <==> v[0] == w[0] && v[1] == w[1] && v[2] == w[2];
  }

  // A submission with the same fields and surrounding white space around the
  // artifact has the same fingerprint.
  lemma SameVerifyFingerprint(lib: Library, r1: Request, r2: Request)
    requires CollisionFree(lib) && r1.Verify? && r2.Verify?
    ensures Fingerprint(lib, r1) == Fingerprint(lib, r2)
            <==> && Trim(r1.policyId) == Trim(r2.policyId)
                 && Trim(r1.credentialId) == Trim(r2.credentialId)
                 && Trim(r1.kind) == Trim(r2.kind)
                 && Trim(r1.value) == Trim(r2.value)
                 && Trim(r1.mediaType) == Trim(r2.mediaType)
  {
    SameFingerprint(lib, r1, r2);
    var v, w := FingerprintFields(lib, r1), FingerprintFields(lib, r2);
    assert v == w <==> v[0] == w[0] && v[1] == w[1] && v[2] == w[2] && v[3] == w[3] && v[4] == w[4];
  }
}
