// Why a submission is denied: the reasons of a verdict, in every run, and that the
// stored result and the answer carry them.
module Reasons {
  import opened Text
  import opened Identifiers
  import opened Artifact
  import opened Requests
  import opened Tables
  import opened Evaluation
  import opened Handlers
  import opened System
  import opened Progress
  import opened CredentialTable
  import opened Minting
  import opened Reachability
  import opened Verdicts
  import Decisions
  import Numbering
  import VerificationTables

  // Every field of a result, from what was submitted, what was read and what the
  // registry answered.
  predicate Explained(lib: Library, request: Request, e: Envelope, read: ReadBack, at: int, trust: TrustRead, r: ResultRecord)
    requires request.Verify?
  {
    var record := read.record;
    var named := request.credentialId == "" || Trim(request.credentialId) == e.credentialId;
    var unmodified :=
      && read.byDigest && e.credentialId == record.credentialId && e.issuerId == record.issuerId
      && e.templateId == record.templateId && e.expiresAt == lib.rfc3339(record.expiresAt);
    && ReasonsAre(r.reasons, named, unmodified, trust, record.status, PastExpiry(record, at),
                  Trim(request.policyId) == "kyc-passport-basic" && Trim(record.templateId) == "hdip-passport-basic")
    && SnapshotIs(r.credentialStatus, record, at)
    && TrustColumnIs(r.trustState, named && unmodified, trust)
    && r.issuerId == e.issuerId
  }

  predicate Accounted(lib: Library, p: Proc, trust: TrustRead) {
    p.verdict.Some? ==>
      && p.request.Verify? && p.envelope.Some? && p.read.Some?
      && Explained(lib, p.request, p.envelope.value, p.read.value, p.at, trust, p.verdict.value)
  }

  lemma JudgedSo(lib: Library, p: Proc, trust: TrustRead)
    requires p.request.Verify? && p.envelope.Some? && p.read.Some?
    ensures Explained(lib, p.request, p.envelope.value, p.read.value, p.at, trust, JudgeProc(lib, p, trust))
  {
    ReasonsExactly(lib, p.request.policyId, p.request.credentialId, p.envelope.value, p.read.value.record,
                   p.read.value.byDigest, p.id, p.at, trust);
  }

  lemma StepAccounted(lib: Library, t: Tables, p: Proc, env: Env, trust: TrustRead)
    requires Shaped(p) && OnTrack(p) && Accounted(lib, p, trust) && env.trust == trust
    ensures Accounted(lib, Step(lib, t, p, env).1, trust)
  {
    if p.pc.Judge? {
      JudgedSo(lib, p, trust);
      assert Step(lib, t, p, env) == JudgeStep(lib, t, p, env);
    } else {
      FieldsFrame(lib, t, p, env);
      Decisions.ReadFrozen(lib, t, p, env);
    }
  }

  lemma LabelAccounted(lib: Library, s: State, l: Label, pid: nat, trust: TrustRead)
    requires WellShaped(s) && pid in s.procs && OnTrack(s.procs[pid])
    requires Accounted(lib, s.procs[pid], trust) && OneTrust(l, pid, trust)
    ensures pid in Next(lib, s, l).procs && Accounted(lib, Next(lib, s, l).procs[pid], trust)
  {
    if l.Run? && l.pid == pid {
      StepAccounted(lib, s.db, s.procs[pid], l.env, trust);
    } else if l.Crash? && l.pid == pid {
    } else {
      OtherLabel(lib, s, l, pid);
    }
  }

  lemma {:induction false} RunAccounted(lib: Library, s: State, ls: seq<Label>, pid: nat, trust: TrustRead)
    requires WellShaped(s) && AllOnTrack(s) && pid in s.procs && Accounted(lib, s.procs[pid], trust)
    requires forall i :: 0 <= i < |ls| ==> OneTrust(ls[i], pid, trust)
    ensures pid in Exec(lib, s, ls).procs && Accounted(lib, Exec(lib, s, ls).procs[pid], trust)
    decreases |ls|
  {
    if ls != [] {
      assert OneTrust(ls[0], pid, trust);
      forall i | 0 <= i < |ls[1..]| ensures OneTrust(ls[1..][i], pid, trust) {
        assert ls[1..][i] == ls[i + 1];
      }
      LabelAccounted(lib, s, ls[0], pid, trust);
      NextOnTrack(lib, s, ls[0]);
      RunAccounted(lib, Next(lib, s, ls[0]), ls[1..], pid, trust);
    }
  }

  lemma BeginAccounted(lib: Library, request: Request, trust: TrustRead)
    ensures Accounted(lib, Begin(lib, request), trust)
  {
  }

  // The verdict on a record of an issued credential, in terms of the submission and
  // the issuance. Intact: found by its digest, and requested with a tight template.
  predicate ReasonedOn(
    request: Request, issue: Request, record: Credential, intact: bool, at: int, trust: TrustRead, r: ResultRecord)
    requires request.Verify?
  {
    var named := request.credentialId == "" || Trim(request.credentialId) == record.credentialId;
    && ReasonsAre(r.reasons, named, intact, trust, record.status, record.expiresAt < at,
                  Trim(request.policyId) == "kyc-passport-basic" && record.templateId == "hdip-passport-basic")
    && SnapshotIs(r.credentialStatus, record, at)
    && TrustColumnIs(r.trustState, named && intact, trust)
    && r.issuerId == record.issuerId
  }

  predicate Tidy(issue: Request) {
    issue.Issue? && Trim(issue.templateId) == issue.templateId
  }

  lemma ExplainedOnRow(
    lib: Library, issue: Request, request: Request, e: Envelope, read: ReadBack, at: int, trust: TrustRead, r: ResultRecord)
    requires request.Verify? && RowOf(lib, issue, read.record)
    requires e == IssuedEnvelope(lib, read.record.credentialId, read.record.issuerId, issue.templateId, read.record.expiresAt)
    requires Explained(lib, request, e, read, at, trust, r)
    ensures ReasonedOn(request, issue, read.record, read.byDigest && Tidy(issue), at, trust, r)
  {
    TrimIdempotent(issue.templateId);
  }

  lemma IssuedParsesTo(lib: Library, issue: Request, row: Credential)
    requires PrintsTimes(lib) && RowOf(lib, issue, row) && Trim(row.credentialId) != ""
    ensures Parse(lib, row.artifact)
            == Some(IssuedEnvelope(lib, row.credentialId, row.issuerId, issue.templateId, row.expiresAt))
  {
    var e := IssuedEnvelope(lib, row.credentialId, row.issuerId, issue.templateId, row.expiresAt);
    TrimIdempotent(issue.caller.organizationId);
    ParseOfArtifactValue(lib, e);
  }

  // What the invariants say of a verification that has its verdict.
  lemma VerdictFields(lib: Library, s: State, pid: nat)
    requires Reachable(lib, s) && pid in s.procs && s.procs[pid].verdict.Some? && s.procs[pid].request.Verify?
    ensures s.procs[pid].at == EvaluatedAt(s.procs[pid].id)
    ensures s.procs[pid].envelope == Parse(lib, s.procs[pid].request.value)
    ensures s.procs[pid].read.Some? && ReadInTable(s.db, s.procs[pid])
  {
    Invariants(lib, s);
    FieldsInState(lib, s, pid);
  }

  lemma FieldsInState(lib: Library, s: State, pid: nat)
    requires Numbering.Numbered(lib, s) && Credentialed(s)
    requires pid in s.procs && s.procs[pid].verdict.Some? && s.procs[pid].request.Verify?
    ensures s.procs[pid].at == EvaluatedAt(s.procs[pid].id)
    ensures s.procs[pid].envelope == Parse(lib, s.procs[pid].request.value)
    ensures s.procs[pid].read.Some? && ReadInTable(s.db, s.procs[pid])
  {
    var p := s.procs[pid];
    assert OnTrack(p) && Numbering.Named(lib, p) && CredentialFacts(s.db, p);
  }

  lemma ReasonsInState(
    lib: Library, s: State, pid: nat, request: Request, id: string, minter: nat, issue: Request, trust: TrustRead)
    requires PrintsTimes(lib) && Verifying(lib, s, pid, request, id, minter, issue, trust)
    requires s.procs[pid].verdict.Some? && Accounted(lib, s.procs[pid], trust)
    ensures
      var p := s.procs[pid];
      ReasonedOn(request, issue, p.read.value.record, p.read.value.byDigest && Tidy(issue), EvaluatedAt(p.id), trust,
                 p.verdict.value)
  {
    var p := s.procs[pid];
    var record := p.read.value.record;
    VerdictFields(lib, s, pid);
    IssuedRow(lib, s, id, minter);
    SnapshotRow(lib, issue, s.db.credentials[id], record);
    IssuedParsesTo(lib, issue, record);
    ExplainedOnRow(lib, issue, request, p.envelope.value, p.read.value, p.at, trust, p.verdict.value);
  }

  // The reasons of the verdict on an unmodified issued artifact, in every run and for
  // every pattern of failures. Each single reason is given exactly when its own check
  // fails and the earlier ones pass: the named credential; the digest lookup and the
  // template; the issuer's trust; the status; the expiry; policy and template.
  lemma ReasonDecided(lib: Library, s: State, pid: nat, request: Request, trust: TrustRead, id: string, ls: seq<Label>)
    returns (minter: nat)
    requires CollisionFree(lib) && PrintsTimes(lib) && Reachable(lib, s) && WellShaped(s)
    requires pid !in s.procs && request.Verify?
    requires id in s.db.credentials && request.value == s.db.credentials[id].artifact
    requires forall i :: 0 <= i < |ls| ==> OneTrust(ls[i], pid, trust)
    ensures MintedBy(s, id, minter)
    ensures pid in Exec(lib, Next(lib, s, Arrive(pid, request)), ls).procs
    ensures
      var s1 := Next(lib, s, Arrive(pid, request));
      var p := Exec(lib, s1, ls).procs[pid];
      p.verdict.Some? ==>
        && p.read.Some? && p.read.value.record.credentialId == id
        && ReasonedOn(request, s.procs[minter].request, p.read.value.record,
                      !MissedDigest(lib, s1, ls, pid) && Tidy(s.procs[minter].request), EvaluatedAt(p.id), trust, p.verdict.value)
  {
    minter := FindMinter(lib, s, id);
    var issue := s.procs[minter].request;
    var s1 := ArrivesVerifying(lib, s, pid, request, id, minter, issue, trust);
    RunFair(lib, s1, ls, pid, request, id, minter, issue, trust);
    ReachableOnTrack(lib, s1);
    RunLooked(lib, s1, ls, pid, false, false);
    BeginAccounted(lib, request, trust);
    RunAccounted(lib, s1, ls, pid, trust);
    ReasonsAtEnd(lib, Exec(lib, s1, ls), pid, request, id, minter, issue, trust, MissedDigest(lib, s1, ls, pid),
                 MissedId(lib, s1, ls, pid));
  }

  lemma ReasonsAtEnd(
    lib: Library, s: State, pid: nat, request: Request, id: string, minter: nat, issue: Request, trust: TrustRead,
    noDigest: bool, noId: bool)
    requires PrintsTimes(lib) && Verifying(lib, s, pid, request, id, minter, issue, trust)
    requires Accounted(lib, s.procs[pid], trust) && Looked(s.procs[pid], noDigest, noId)
    ensures
      var p := s.procs[pid];
      p.verdict.Some? ==>
        && p.read.Some? && p.read.value.record.credentialId == id
        && ReasonedOn(request, issue, p.read.value.record, !noDigest && Tidy(issue), EvaluatedAt(p.id), trust, p.verdict.value)
  {
    if s.procs[pid].verdict.Some? {
      ReasonsInState(lib, s, pid, request, id, minter, issue, trust);
    }
  }

  // A stored result is the verdict, column by column.
  predicate StoredAs(row: ResultRecord, v: ResultRecord) {
    && row.decision == v.decision && row.reasons == v.reasons && row.credentialStatus == v.credentialStatus
    && row.trustState == Trim(v.trustState) && row.issuerId == Trim(v.issuerId) && row.evaluatedAt == v.evaluatedAt
  }

  predicate Repeats(body: Body, v: ResultRecord) {
    && body.VerificationBody?
    && body.decision == v.decision && body.reasons == v.reasons && body.credentialStatus == v.credentialStatus
    && body.issuerId == v.issuerId && body.evaluatedAt == v.evaluatedAt
  }

  lemma VerdictReported(t: Tables, p: Proc, c: Completion)
    requires OnTrack(p) && VerificationTables.RecordFacts(t, p) && p.request.Verify? && p.verdict.Some?
    ensures p.stored ==> Trim(p.id) in t.results && StoredAs(t.results[Trim(p.id)], p.verdict.value)
    ensures p.pc == Done(Answered(c)) || p.completion == Some(c) ==> p.stored && Repeats(c.body, p.verdict.value)
  {
  }

  // Wherever it is reported, the verdict is the one computed: in the result table, in
  // the answer, and in the response kept under the key. Once there is a verdict, an
  // answer is never anything else.
  lemma VerdictReaches(lib: Library, issuers: map<string, Issuer>, ls: seq<Label>, pid: nat, c: Completion)
    requires
      var procs := Exec(lib, Start(issuers), ls).procs;
      pid in procs && procs[pid].request.Verify? && procs[pid].verdict.Some?
    ensures
      var s := Exec(lib, Start(issuers), ls);
      var p := s.procs[pid];
      && (p.stored ==> Trim(p.id) in s.db.results && StoredAs(s.db.results[Trim(p.id)], p.verdict.value))
      && (p.pc == Done(Answered(c)) || p.completion == Some(c) ==> p.stored && Repeats(c.body, p.verdict.value))
  {
    VerificationTables.ExecRecorded(lib, Start(issuers), ls);
    var s := Exec(lib, Start(issuers), ls);
    VerdictReported(s.db, s.procs[pid], c);
  }
}
