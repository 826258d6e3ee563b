// What a fresh verification decides, joined to what was issued.
module Decisions {
  import opened Text
  import opened Identifiers
  import opened Artifact
  import opened Requests
  import opened Tables
  import opened Evaluation
  import opened Handlers
  import opened System
  import opened Progress
  import opened CredentialTable
  import opened Minting

  predicate Allowed(p: Proc) {
    p.verdict.Some? && p.verdict.value.decision.Allow?
  }

  predicate AllowFacts(lib: Library, p: Proc) {
    Allowed(p) ==>
      && p.request.Verify? && p.envelope.Some? && p.read.Some?
      && var record := p.read.value.record;
      && NamesCredential(p.request.credentialId, p.envelope.value)
      && Continuous(lib, p.envelope.value, record, p.read.value.byDigest)
      && Trim(p.verdict.value.trustState) == ACTIVE
      && record.status != REVOKED && record.status != SUPERSEDED
      && (record.expiresAt == 0 || p.at <= record.expiresAt)
      && PolicyCompatible(p.request.policyId, record.templateId)
  }

  predicate DigestFacts(lib: Library, p: Proc) {
    p.request.Verify? && p.read.Some? && p.read.value.byDigest ==>
      p.read.value.record.digest == Trim(Digest(lib, p.request.value))
  }

  predicate VerdictFacts(lib: Library, p: Proc) {
    AllowFacts(lib, p) && DigestFacts(lib, p)
  }

  ghost predicate AllVerdicts(lib: Library, s: State) {
    forall pid :: pid in s.procs ==> VerdictFacts(lib, s.procs[pid])
  }

  lemma BeginVerdict(lib: Library, request: Request)
    ensures VerdictFacts(lib, Begin(lib, request))
  {
  }

  lemma JudgeVerdict(lib: Library, t: Tables, p: Proc, env: Env)
    requires Shaped(p) && OnTrack(p) && VerdictFacts(lib, p) && p.pc.Judge?
    ensures VerdictFacts(lib, JudgeStep(lib, t, p, env).1)
  {
    AllowExactly(lib, p.request.policyId, p.request.credentialId, p.envelope.value, p.read.value.record,
                 p.read.value.byDigest, p.id, p.at, env.trust);
  }

  // A read and a verdict are final.
  lemma ReadFrozen(lib: Library, t: Tables, p: Proc, env: Env)
    requires Shaped(p) && OnTrack(p)
    ensures p.read.Some? ==> Step(lib, t, p, env).1.read == p.read
    ensures p.verdict.Some? ==>
      && Step(lib, t, p, env).1.verdict == p.verdict
      && Step(lib, t, p, env).1.at == p.at
      && Step(lib, t, p, env).1.envelope == p.envelope
  {
    FieldsFrame(lib, t, p, env);
  }

  lemma StepVerdict(lib: Library, t: Tables, p: Proc, env: Env)
    requires Shaped(p) && OnTrack(p) && VerdictFacts(lib, p)
    ensures VerdictFacts(lib, Step(lib, t, p, env).1)
  {
    if p.pc.Judge? {
      JudgeVerdict(lib, t, p, env);
    } else {
      FieldsFrame(lib, t, p, env);
      ReadFrozen(lib, t, p, env);
    }
  }

  lemma NextVerdicts(lib: Library, s: State, l: Label)
    requires WellShaped(s) && AllOnTrack(s) && AllVerdicts(lib, s)
    ensures AllVerdicts(lib, Next(lib, s, l))
  {
    var s' := Next(lib, s, l);
    forall pid | pid in s'.procs ensures VerdictFacts(lib, s'.procs[pid]) {
      if pid !in s.procs {
        BeginVerdict(lib, l.request);
      } else if l.Run? && l.pid == pid {
        StepVerdict(lib, s.db, s.procs[pid], l.env);
      }
    }
  }

  lemma {:induction false} ExecVerdicts(lib: Library, s: State, ls: seq<Label>)
    requires WellShaped(s) && AllOnTrack(s) && AllVerdicts(lib, s)
    ensures AllOnTrack(Exec(lib, s, ls)) && AllVerdicts(lib, Exec(lib, s, ls))
    decreases |ls|
  {
    if ls != [] {
      NextOnTrack(lib, s, ls[0]);
      NextVerdicts(lib, s, ls[0]);
      ExecVerdicts(lib, Next(lib, s, ls[0]), ls[1..]);
    }
  }

  lemma {:induction false} ExecReadFrozen(lib: Library, s: State, ls: seq<Label>, pid: nat)
    requires WellShaped(s) && AllOnTrack(s) && pid in s.procs && s.procs[pid].read.Some?
    ensures pid in Exec(lib, s, ls).procs && Exec(lib, s, ls).procs[pid].read == s.procs[pid].read
    decreases |ls|
  {
    if ls != [] {
      NextOnTrack(lib, s, ls[0]);
      if ls[0].Run? && ls[0].pid == pid {
        ReadFrozen(lib, s.db, s.procs[pid], ls[0].env);
      }
      ExecReadFrozen(lib, Next(lib, s, ls[0]), ls[1..], pid);
    }
  }

  // A request whose own answer is an allow computed it.
  lemma AnswerIsVerdict(p: Proc, c: Completion)
    requires OnTrack(p) && p.request.Verify?
    requires p.pc == Done(Answered(c)) || p.completion == Some(c)
    requires c.body.VerificationBody? && c.body.decision.Allow?
    ensures Allowed(p)
  {
  }

  // What stands behind an allow: the submitted value is exactly what one issuance
  // materialised; the record read back is that issuance's, and was active and
  // unexpired; its issuer was active.
  ghost predicate SoundAllow(lib: Library, s: State, pid: nat, minter: nat) {
    && pid in s.procs
    && var p := s.procs[pid];
    && p.verdict.Some?
    && p.request.Verify? && p.read.Some? && p.envelope.Some?
    && var record := p.read.value.record;
    && MintedBy(s, record.credentialId, minter)
    && var issue := s.procs[minter].request;
    && issue.Issue?
    && p.request.value == Materialize(lib, record.credentialId, IssuerOf(issue), issue.templateId, issue.claims.expiresAt)
    && p.envelope.value.credentialId == record.credentialId
    && p.envelope.value.issuerId == IssuerOf(issue)
    && record.status == ACTIVE
    && p.at <= issue.claims.expiresAt
    && Trim(p.verdict.value.trustState) == ACTIVE
    && PolicyCompatible(p.request.policyId, issue.templateId)
  }

  // Allow soundness, end to end: in every run, each fresh allow is for an artifact
  // value exactly as one issuance materialised it; the record read back is that
  // issuance's, was active and unexpired when read, and its issuer was active.
  lemma AllowSound(lib: Library, issuers: map<string, Issuer>, ls: seq<Label>, pid: nat) returns (minter: nat)
    requires CollisionFree(lib)
    requires pid in Exec(lib, Start(issuers), ls).procs && Allowed(Exec(lib, Start(issuers), ls).procs[pid])
    ensures SoundAllow(lib, Exec(lib, Start(issuers), ls), pid, minter)
  {
    ExecVerdicts(lib, Start(issuers), ls);
    RunsAreLawful(lib, issuers, ls);
    minter := SoundState(lib, Exec(lib, Start(issuers), ls), pid);
  }

  lemma SoundState(lib: Library, s: State, pid: nat) returns (minter: nat)
    requires CollisionFree(lib) && Lawful(lib, s) && AllVerdicts(lib, s)
    requires pid in s.procs && Allowed(s.procs[pid])
    ensures SoundAllow(lib, s, pid, minter)
  {
    var p := s.procs[pid];
    var record := p.read.value.record;
    var id := record.credentialId;
    var row := s.db.credentials[id];
    minter := RowHasMinter(lib, s, id);
    SnapshotOf(lib, s.procs[minter].request, row, record);
    DigestRebuilds(lib, s.procs[minter].request, record);
    TrimIdempotent(s.procs[minter].request.templateId);
  }

  // A snapshot of a row says the same about the issuance as the row.
  lemma SnapshotOf(lib: Library, request: Request, row: Credential, record: Credential)
    requires RowOf(lib, request, row) && Issued(record) == Issued(row)
    ensures RowOf(lib, request, record)
  {
    var i, j := Issued(row), Issued(record);
    assert i.issuerId == j.issuerId && i.templateId == j.templateId && i.expiresAt == j.expiresAt;
    assert i.subjectReference == j.subjectReference && i.claims == j.claims && i.issuedAt == j.issuedAt;
    assert i.artifact == j.artifact && i.digest == j.digest && i.credentialId == j.credentialId;
  }

  // Revocation finality: once a credential is not active, every verification that
  // reads it afterwards is denied, in every interleaving and whatever happens next.
  lemma RevocationFinal(
    lib: Library, issuers: map<string, Issuer>, ls: seq<Label>, ms: seq<Label>, pid: nat, env: Env, ks: seq<Label>)
    requires pid in Exec(lib, Exec(lib, Start(issuers), ls), ms).procs
    requires
      var s1 := Exec(lib, Start(issuers), ls);
      var s2 := Exec(lib, s1, ms);
      var s3 := Next(lib, s2, Run(pid, env));
      && s2.procs[pid].request.Verify? && s2.procs[pid].read.None? && s3.procs[pid].read.Some?
      && var id := s3.procs[pid].read.value.record.credentialId;
      && id in s1.db.credentials && s1.db.credentials[id].status != ACTIVE
    ensures
      var s3 := Next(lib, Exec(lib, Exec(lib, Start(issuers), ls), ms), Run(pid, env));
      var s4 := Exec(lib, s3, ks);
      && pid in s4.procs && !Allowed(s4.procs[pid])
  {
    RunsAreLawful(lib, issuers, ls);
    ExecVerdicts(lib, Start(issuers), ls);
    FinalFrom(lib, Exec(lib, Start(issuers), ls), ms, pid, env, ks);
  }

  lemma FinalFrom(lib: Library, s1: State, ms: seq<Label>, pid: nat, env: Env, ks: seq<Label>)
    requires Lawful(lib, s1) && AllVerdicts(lib, s1)
    requires pid in Exec(lib, s1, ms).procs
    requires
      var s2 := Exec(lib, s1, ms);
      var s3 := Next(lib, s2, Run(pid, env));
      && s2.procs[pid].request.Verify? && s2.procs[pid].read.None? && s3.procs[pid].read.Some?
      && var id := s3.procs[pid].read.value.record.credentialId;
      && id in s1.db.credentials && s1.db.credentials[id].status != ACTIVE
    ensures
      var s4 := Exec(lib, Next(lib, Exec(lib, s1, ms), Run(pid, env)), ks);
      pid in s4.procs && !Allowed(s4.procs[pid])
  {
    ExecLawful(lib, s1, ms);
    ExecVerdicts(lib, s1, ms);
    ReadOfTerminal(lib, Exec(lib, s1, ms), pid, env);
    NeverAllowed(lib, Exec(lib, s1, ms), pid, env, ks);
  }

  lemma ReadOfTerminal(lib: Library, s: State, pid: nat, env: Env)
    requires Credentialed(s) && pid in s.procs && s.procs[pid].read.None?
    requires Next(lib, s, Run(pid, env)).procs[pid].read.Some?
    ensures
      var record := Next(lib, s, Run(pid, env)).procs[pid].read.value.record;
      record.credentialId in s.db.credentials && s.db.credentials[record.credentialId] == record
  {
    FieldsFrame(lib, s.db, s.procs[pid], env);
    ReadsRows(lib, s.db, s.procs[pid], env);
  }

  lemma NeverAllowed(lib: Library, s: State, pid: nat, env: Env, ks: seq<Label>)
    requires Credentialed(s) && AllVerdicts(lib, s) && pid in s.procs
    requires s.procs[pid].request.Verify? && s.procs[pid].read.None?
    requires
      var q := Next(lib, s, Run(pid, env)).procs[pid];
      && q.read.Some?
      && q.read.value.record.credentialId in s.db.credentials
      && s.db.credentials[q.read.value.record.credentialId] == q.read.value.record
      && q.read.value.record.status != ACTIVE
    ensures
      var s' := Exec(lib, Next(lib, s, Run(pid, env)), ks);
      pid in s'.procs && !Allowed(s'.procs[pid])
  {
    var s3 := Next(lib, s, Run(pid, env));
    NextOnTrack(lib, s, Run(pid, env));
    NextVerdicts(lib, s, Run(pid, env));
    ExecVerdicts(lib, s3, ks);
    ExecReadFrozen(lib, s3, ks, pid);
  }

  // The decision on an unmodified issued artifact, exactly: it is found by its
  // digest, and it is allowed when the template was requested without surrounding
  // white space, policy and template are the default ones, a named credential is
  // the right one, the issuer is active, and the credential active and unexpired.
  lemma FreshDecision(
    lib: Library, s: State, id: string, policyId: string, credentialId: string,
    verificationId: string, at: int, trust: TrustRead) returns (minter: nat)
    requires CollisionFree(lib) && PrintsTimes(lib) && Lawful(lib, s)
    requires id in s.db.credentials
    ensures MintedBy(s, id, minter) && s.procs[minter].request.Issue?
    ensures
      var row := s.db.credentials[id];
      && SelectByDigest(s.db, Digest(lib, row.artifact), Fine) == Found(row)
      && Parse(lib, row.artifact).Some?
      && (Judgement(lib, policyId, credentialId, Parse(lib, row.artifact).value, row, true, verificationId, at, trust).decision.Allow?
          <==> && (credentialId == "" || Trim(credentialId) == id)
               && Trim(s.procs[minter].request.templateId) == s.procs[minter].request.templateId
               && trust.TrustState? && Trim(trust.state) == ACTIVE
               && row.status == ACTIVE
               && at <= row.expiresAt
               && Trim(policyId) == DEFAULT_POLICY && row.templateId == DEFAULT_TEMPLATE)
  {
    var row := s.db.credentials[id];
    minter := RowHasMinter(lib, s, id);
    IdentifierNotEmpty(s.procs[minter].request.templateId, s.procs[minter].number);
    IndexAgrees(lib, s, id);
    DigestRebuilds(lib, s.procs[minter].request, row);
    DecisionOnRow(lib, s.procs[minter].request, row, policyId, credentialId, verificationId, at, trust);
  }

  lemma IdentifierNotEmpty(templateId: string, n: nat)
    ensures FormatCredentialId(templateId, n) != ""
  {
  }

  lemma DecisionOnRow(
    lib: Library, issue: Request, row: Credential, policyId: string, credentialId: string,
    verificationId: string, at: int, trust: TrustRead)
    requires PrintsTimes(lib) && RowOf(lib, issue, row) && StatusOk(row)
    requires Trim(row.credentialId) == row.credentialId != ""
    ensures
      && Parse(lib, row.artifact).Some?
      && (Judgement(lib, policyId, credentialId, Parse(lib, row.artifact).value, row, true, verificationId, at, trust).decision.Allow?
          <==> && (credentialId == "" || Trim(credentialId) == row.credentialId)
               && Trim(issue.templateId) == issue.templateId
               && trust.TrustState? && Trim(trust.state) == ACTIVE
               && row.status == ACTIVE
               && at <= row.expiresAt
               && Trim(policyId) == DEFAULT_POLICY && row.templateId == DEFAULT_TEMPLATE)
  {
    var e := IssuedEnvelope(lib, row.credentialId, row.issuerId, issue.templateId, row.expiresAt);
    TrimIdempotent(issue.caller.organizationId);
    ParseOfArtifactValue(lib, e);
    TrimIdempotent(issue.templateId);
    AllowExactly(lib, policyId, credentialId, e, row, true, verificationId, at, trust);
  }
}
