// The verdict on an unmodified issued artifact, and the answer that a credential is
// unknown, for every pattern of failures: what a failed lookup does to a submission.
module Verdicts {
  import opened Text
  import opened Identifiers
  import opened Artifact
  import opened Requests
  import opened Tables
  import opened Evaluation
  import opened Handlers
  import opened System
  import opened Progress
  import opened Numbering
  import opened CredentialTable
  import opened Minting
  import opened Reachability
  import Decisions

  // What an allow takes: the submission, the issuance behind the record, the record
  // as it was read, the time and the registry's answer.
  predicate Allowable(request: Request, issue: Request, record: Credential, at: int, trust: TrustRead)
    requires request.Verify? && issue.Issue?
  {
    && (request.credentialId == "" || Trim(request.credentialId) == record.credentialId)
    && Trim(issue.templateId) == issue.templateId
    && trust.TrustState? && Trim(trust.state) == ACTIVE
    && record.status == ACTIVE
    && at <= record.expiresAt
    && Trim(request.policyId) == DEFAULT_POLICY && record.templateId == DEFAULT_TEMPLATE
  }

  // A verdict on a record of this credential: an allow exactly when the record was
  // found by its digest and the submission is allowable.
  predicate Judged(p: Proc, issue: Request, id: string, trust: TrustRead) {
    && p.request.Verify? && issue.Issue?
    && p.verdict.Some? && p.read.Some?
    && p.read.value.record.credentialId == id
    && (p.verdict.value.decision.Allow?
        <==> p.read.value.byDigest && Allowable(p.request, issue, p.read.value.record, EvaluatedAt(p.id), trust))
  }

  // Whatever has been read is that credential, and whatever was judged is judged so.
  predicate Fair(p: Proc, issue: Request, id: string, trust: TrustRead) {
    && (p.read.Some? ==> p.read.value.record.credentialId == id)
    && (p.verdict.Some? ==> Judged(p, issue, id, trust))
  }

  // The credential of the submission and the request that minted it.
  ghost predicate About(s: State, request: Request, id: string, minter: nat, issue: Request) {
    && request.Verify?
    && id in s.db.credentials && s.db.credentials[id].artifact == request.value
    && MintedBy(s, id, minter) && s.procs[minter].request == issue && issue.Issue?
  }

  lemma IssuedRow(lib: Library, s: State, id: string, minter: nat)
    requires Reachable(lib, s) && MintedBy(s, id, minter) && s.procs[minter].request.Issue? && id in s.db.credentials
    ensures RowOf(lib, s.procs[minter].request, s.db.credentials[id])
    ensures s.db.credentials[id].credentialId == id == Trim(id) != ""
  {
    Invariants(lib, s);
    IssuedInState(lib, s, id, minter);
  }

  lemma IssuedInState(lib: Library, s: State, id: string, minter: nat)
    requires Lawful(lib, s) && MintedBy(s, id, minter) && s.procs[minter].request.Issue? && id in s.db.credentials
    ensures RowOf(lib, s.procs[minter].request, s.db.credentials[id])
    ensures s.db.credentials[id].credentialId == id == Trim(id) != ""
  {
    var p := s.procs[minter];
    MintGivesRow(lib, p, s.db.credentials[id]);
    IdentifiersAreTight(p.request.templateId, p.number);
    Decisions.IdentifierNotEmpty(p.request.templateId, p.number);
  }

  lemma IssuedParses(lib: Library, issue: Request, row: Credential) returns (e: Envelope)
    requires PrintsTimes(lib) && RowOf(lib, issue, row) && Trim(row.credentialId) != ""
    ensures Parse(lib, row.artifact) == Some(e) && e.credentialId == row.credentialId
  {
    e := IssuedEnvelope(lib, row.credentialId, row.issuerId, issue.templateId, row.expiresAt);
    TrimIdempotent(issue.caller.organizationId);
    ParseOfArtifactValue(lib, e);
  }

  // The envelope is there, and names the credential it was issued for.
  lemma ArtifactParses(lib: Library, s: State, request: Request, id: string, minter: nat, issue: Request) returns (e: Envelope)
    requires PrintsTimes(lib) && Reachable(lib, s) && About(s, request, id, minter, issue)
    ensures Parse(lib, request.value) == Some(e) && e.credentialId == id
  {
    IssuedRow(lib, s, id, minter);
    e := IssuedParses(lib, issue, s.db.credentials[id]);
  }

  lemma ArtifactFound(lib: Library, s: State, request: Request, id: string, minter: nat, issue: Request)
    requires CollisionFree(lib) && Reachable(lib, s) && About(s, request, id, minter, issue)
    ensures SelectByDigest(s.db, Digest(lib, request.value), Fine) == Found(s.db.credentials[id])
    ensures s.db.credentials[id].credentialId == id
  {
    IssuedRow(lib, s, id, minter);
    DigestRebuilds(lib, issue, s.db.credentials[id]);
    IndexFinds(lib, s, id);
  }

  lemma IndexFinds(lib: Library, s: State, id: string)
    requires CollisionFree(lib) && Reachable(lib, s) && id in s.db.credentials
    ensures SelectByDigest(s.db, s.db.credentials[id].digest, Fine) == Found(s.db.credentials[id])
  {
    Invariants(lib, s);
    IndexAgrees(lib, s, id);
  }

  // What the invariants say of a verification that has drawn its number.
  lemma NumberedFacts(lib: Library, s: State, pid: nat)
    requires Reachable(lib, s) && pid in s.procs && s.procs[pid].request.Verify?
    requires s.procs[pid].pc.FindById? || s.procs[pid].pc.Judge?
    ensures s.procs[pid].at == EvaluatedAt(s.procs[pid].id)
    ensures s.procs[pid].envelope == Parse(lib, s.procs[pid].request.value)
    ensures ReadInTable(s.db, s.procs[pid])
  {
    Invariants(lib, s);
    NumberedInState(lib, s, pid);
  }

  lemma NumberedInState(lib: Library, s: State, pid: nat)
    requires Numbered(lib, s) && Credentialed(s) && pid in s.procs && s.procs[pid].request.Verify?
    requires s.procs[pid].pc.FindById? || s.procs[pid].pc.Judge?
    ensures s.procs[pid].at == EvaluatedAt(s.procs[pid].id)
    ensures s.procs[pid].envelope == Parse(lib, s.procs[pid].request.value)
    ensures ReadInTable(s.db, s.procs[pid])
  {
    NamedFacts(lib, s.db, s.procs[pid]);
  }

  lemma NamedFacts(lib: Library, t: Tables, p: Proc)
    requires OnTrack(p) && Named(lib, p) && CredentialFacts(t, p) && (p.pc.FindById? || p.pc.Judge?) && p.request.Verify?
    ensures p.at == EvaluatedAt(p.id) && p.envelope == Parse(lib, p.request.value)
    ensures ReadInTable(t, p)
  {
  }

  lemma SnapshotRow(lib: Library, issue: Request, row: Credential, record: Credential)
    requires RowOf(lib, issue, row) && Issued(record) == Issued(row)
    ensures RowOf(lib, issue, record) && record.artifact == row.artifact && record.credentialId == row.credentialId
  {
    Decisions.SnapshotOf(lib, issue, row, record);
    assert Issued(record).artifact == Issued(row).artifact && Issued(record).credentialId == Issued(row).credentialId;
  }

  // Without the digest index the artifact proves nothing.
  lemma DeniedWithoutDigest(lib: Library, p: Proc, trust: TrustRead)
    requires p.request.Verify? && p.envelope.Some? && p.read.Some? && !p.read.value.byDigest
    ensures JudgeProc(lib, p, trust).decision.Deny?
  {
  }

  lemma VerdictExactly(lib: Library, s: State, pid: nat, trust: TrustRead, id: string, minter: nat, issue: Request)
    requires PrintsTimes(lib) && Reachable(lib, s) && pid in s.procs && About(s, s.procs[pid].request, id, minter, issue)
    requires s.procs[pid].pc.Judge? && s.procs[pid].envelope.Some? && s.procs[pid].read.Some?
    requires s.procs[pid].read.value.record.credentialId == id
    ensures
      var p := s.procs[pid];
      JudgeProc(lib, p, trust).decision.Allow?
      <==> p.read.value.byDigest && Allowable(p.request, issue, p.read.value.record, EvaluatedAt(p.id), trust)
  {
    var p := s.procs[pid];
    if p.read.value.byDigest {
      NumberedFacts(lib, s, pid);
      IssuedRow(lib, s, id, minter);
      SnapshotRow(lib, issue, s.db.credentials[id], p.read.value.record);
      Decisions.DecisionOnRow(lib, issue, p.read.value.record, p.request.policyId, p.request.credentialId, p.id, p.at, trust);
    } else {
      DeniedWithoutDigest(lib, p, trust);
    }
  }

  // What the next step of the submission may read, and how it judges.
  lemma ReadsFairly(lib: Library, t: Tables, p: Proc, env: Env, id: string)
    requires Shaped(p) && p.request.Verify? && (p.read.Some? ==> p.read.value.record.credentialId == id)
    requires p.pc.FindByDigest? && SelectByDigest(t, Digest(lib, p.request.value), env.fault).Found? ==>
      SelectByDigest(t, Digest(lib, p.request.value), env.fault).value.credentialId == id
    requires p.pc.FindById? && SelectCredential(t, p.envelope.value.credentialId, env.fault).Found? ==>
      SelectCredential(t, p.envelope.value.credentialId, env.fault).value.credentialId == id
    ensures
      var q := Step(lib, t, p, env).1;
      q.read.Some? ==> q.read.value.record.credentialId == id
  {
    if p.pc.FindByDigest? {
      assert Step(lib, t, p, env) == FindByDigestStep(lib, t, p, env);
    } else if p.pc.FindById? {
      assert Step(lib, t, p, env) == FindByIdStep(t, p, env);
    } else {
      FieldsFrame(lib, t, p, env);
    }
  }

  // A lookup either errs or finds the credential.
  lemma LookupsFind(lib: Library, s: State, pid: nat, f: Fault, id: string, minter: nat, issue: Request)
    requires CollisionFree(lib) && PrintsTimes(lib) && Reachable(lib, s)
    requires pid in s.procs && About(s, s.procs[pid].request, id, minter, issue)
    ensures
      var found := SelectByDigest(s.db, Digest(lib, s.procs[pid].request.value), f);
      (found.Found? <==> !Errs(f)) && (found.Found? ==> found.value.credentialId == id)
    ensures s.procs[pid].pc.FindById? && s.procs[pid].envelope.Some? ==>
      var found := SelectCredential(s.db, s.procs[pid].envelope.value.credentialId, f);
      (found.Found? <==> !Errs(f)) && (found.Found? ==> found.value.credentialId == id)
  {
    var request := s.procs[pid].request;
    ArtifactFound(lib, s, request, id, minter, issue);
    SelectsAlike(s.db, Digest(lib, request.value), f);
    if s.procs[pid].pc.FindById? {
      NumberedFacts(lib, s, pid);
      var e := ArtifactParses(lib, s, request, id, minter, issue);
      IssuedRow(lib, s, id, minter);
    }
  }

  lemma SelectsAlike(t: Tables, digest: string, f: Fault)
    ensures SelectByDigest(t, digest, f) == if Errs(f) then Unreadable else SelectByDigest(t, digest, Fine)
  {
  }

  // The credential and its minter outlive every label.
  lemma AboutStays(lib: Library, s: State, l: Label, request: Request, id: string, minter: nat, issue: Request)
    requires Reachable(lib, s) && WellShaped(s) && About(s, request, id, minter, issue)
    ensures About(Next(lib, s, l), request, id, minter, issue)
  {
    Invariants(lib, s);
    NextCredentialed(lib, s, l);
    ArtifactStays(s.db, Next(lib, s, l).db, id);
    MinterStays(lib, s, l, id, minter);
  }

  lemma ArtifactStays(t: Tables, t': Tables, id: string)
    requires Evolves(t, t') && id in t.credentials
    ensures id in t'.credentials && t'.credentials[id].artifact == t.credentials[id].artifact
  {
    assert Issued(t'.credentials[id]).artifact == Issued(t.credentials[id]).artifact;
  }

  lemma MinterStays(lib: Library, s: State, l: Label, id: string, minter: nat)
    requires WellShaped(s) && AllOnTrack(s) && MintedBy(s, id, minter)
    ensures MintedBy(Next(lib, s, l), id, minter)
    ensures Next(lib, s, l).procs[minter].request == s.procs[minter].request
  {
    if l.Run? && l.pid == minter {
      MintedStays(lib, s.db, s.procs[minter], l.env);
    }
  }

  lemma FindMinter(lib: Library, s: State, id: string) returns (minter: nat)
    requires Reachable(lib, s) && id in s.db.credentials
    ensures MintedBy(s, id, minter) && s.procs[minter].request.Issue?
  {
    Invariants(lib, s);
    minter := RowHasMinter(lib, s, id);
  }

  lemma OtherLabel(lib: Library, s: State, l: Label, pid: nat)
    requires WellShaped(s) && pid in s.procs
    requires !(l.Run? && l.pid == pid) && !(l.Crash? && l.pid == pid)
    ensures pid in Next(lib, s, l).procs && Next(lib, s, l).procs[pid] == s.procs[pid]
  {
  }

  // The submission in any reachable state, judged fairly if at all.
  ghost predicate Verifying(lib: Library, s: State, pid: nat, request: Request, id: string, minter: nat, issue: Request, trust: TrustRead) {
    && Reachable(lib, s)
    && About(s, request, id, minter, issue)
    && pid in s.procs && s.procs[pid].request == request
    && Fair(s.procs[pid], issue, id, trust)
  }

  lemma JudgesFairly(lib: Library, t: Tables, p: Proc, env: Env, issue: Request, id: string, trust: TrustRead)
    requires Shaped(p) && OnTrack(p) && Fair(p, issue, id, trust) && p.request.Verify? && issue.Issue?
    requires p.pc.Judge? ==>
      env.trust == trust
      && (JudgeProc(lib, p, trust).decision.Allow?
          <==> p.read.value.byDigest && Allowable(p.request, issue, p.read.value.record, EvaluatedAt(p.id), trust))
    ensures
      var q := Step(lib, t, p, env).1;
      q.verdict.Some? && (p.pc.Judge? || p.verdict.Some?) ==> Judged(q, issue, id, trust)
  {
    if p.pc.Judge? {
      assert Step(lib, t, p, env) == JudgeStep(lib, t, p, env);
    } else {
      FieldsFrame(lib, t, p, env);
      Decisions.ReadFrozen(lib, t, p, env);
    }
  }

  lemma VerdictComesFrom(lib: Library, t: Tables, p: Proc, env: Env)
    requires Shaped(p)
    ensures Step(lib, t, p, env).1.verdict.Some? ==> p.pc.Judge? || p.verdict.Some?
  {
    FieldsFrame(lib, t, p, env);
  }

  lemma OwnStepFair(
    lib: Library, s: State, pid: nat, env: Env, request: Request, id: string, minter: nat, issue: Request, trust: TrustRead)
    requires CollisionFree(lib) && PrintsTimes(lib) && WellShaped(s)
    requires Verifying(lib, s, pid, request, id, minter, issue, trust) && env.trust == trust
    ensures Fair(Step(lib, s.db, s.procs[pid], env).1, issue, id, trust)
  {
    var p := s.procs[pid];
    LookupsFind(lib, s, pid, env.fault, id, minter, issue);
    ReadsFairly(lib, s.db, p, env, id);
    if p.pc.Judge? {
      VerdictExactly(lib, s, pid, trust, id, minter, issue);
    }
    AlwaysOnTrack(lib, s, pid);
    JudgesFairly(lib, s.db, p, env, issue, id, trust);
    VerdictComesFrom(lib, s.db, p, env);
  }

  lemma AlwaysOnTrack(lib: Library, s: State, pid: nat)
    requires Reachable(lib, s) && pid in s.procs
    ensures OnTrack(s.procs[pid])
  {
    Invariants(lib, s);
  }

  // The registry gives this request one answer.
  predicate OneTrust(l: Label, pid: nat, trust: TrustRead) {
    l.Run? && l.pid == pid ==> l.env.trust == trust
  }

  lemma LabelFair(
    lib: Library, s: State, l: Label, pid: nat, request: Request, id: string, minter: nat, issue: Request, trust: TrustRead)
    requires CollisionFree(lib) && PrintsTimes(lib) && WellShaped(s)
    requires Verifying(lib, s, pid, request, id, minter, issue, trust) && OneTrust(l, pid, trust)
    ensures Verifying(lib, Next(lib, s, l), pid, request, id, minter, issue, trust)
  {
    AboutStays(lib, s, l, request, id, minter, issue);
    NextReachable(lib, s, l);
    if l.Run? && l.pid == pid {
      OwnStepFair(lib, s, pid, l.env, request, id, minter, issue, trust);
    } else if l.Crash? && l.pid == pid {
    } else {
      OtherLabel(lib, s, l, pid);
    }
  }

  lemma {:induction false} RunFair(
    lib: Library, s: State, ls: seq<Label>, pid: nat, request: Request, id: string, minter: nat, issue: Request, trust: TrustRead)
    requires CollisionFree(lib) && PrintsTimes(lib) && WellShaped(s)
    requires Verifying(lib, s, pid, request, id, minter, issue, trust)
    requires forall i :: 0 <= i < |ls| ==> OneTrust(ls[i], pid, trust)
    ensures Verifying(lib, Exec(lib, s, ls), pid, request, id, minter, issue, trust)
    decreases |ls|
  {
    if ls != [] {
      assert OneTrust(ls[0], pid, trust);
      forall i | 0 <= i < |ls[1..]| ensures OneTrust(ls[1..][i], pid, trust) {
        assert ls[1..][i] == ls[i + 1];
      }
      LabelFair(lib, s, ls[0], pid, request, id, minter, issue, trust);
      RunFair(lib, Next(lib, s, ls[0]), ls[1..], pid, request, id, minter, issue, trust);
    }
  }

  // A lookup of this request that errs or finds nothing.
  ghost predicate MissesDigest(lib: Library, s: State, l: Label, pid: nat) {
    && l.Run? && l.pid == pid && pid in s.procs
    && s.procs[pid].pc.FindByDigest? && s.procs[pid].request.Verify?
    && !SelectByDigest(s.db, Digest(lib, s.procs[pid].request.value), l.env.fault).Found?
  }

  ghost predicate MissesId(s: State, l: Label, pid: nat) {
    && l.Run? && l.pid == pid && pid in s.procs
    && s.procs[pid].pc.FindById? && s.procs[pid].envelope.Some?
    && !SelectCredential(s.db, s.procs[pid].envelope.value.credentialId, l.env.fault).Found?
  }

  ghost predicate MissedDigest(lib: Library, s: State, ls: seq<Label>, pid: nat)
    requires WellShaped(s)
    decreases |ls|
  {
    ls != [] && (MissesDigest(lib, s, ls[0], pid) || MissedDigest(lib, Next(lib, s, ls[0]), ls[1..], pid))
  }

  ghost predicate MissedId(lib: Library, s: State, ls: seq<Label>, pid: nat)
    requires WellShaped(s)
    decreases |ls|
  {
    ls != [] && (MissesId(s, ls[0], pid) || MissedId(lib, Next(lib, s, ls[0]), ls[1..], pid))
  }

  // How the lookups have gone so far.
  predicate Looked(p: Proc, byDigest: bool, byId: bool) {
    && p.request.Verify?
    && (byId ==> byDigest && p.read.None?)
    && (p.read.Some? ==> (p.read.value.byDigest <==> !byDigest))
    && (p.completion.Some? && p.read.None? ==> byId)
    && match p.pc
       case FindById => byDigest && !byId
       case Judge => p.read.Some?
       case StoreResult => p.read.Some?
       case Completing(_) => p.read.None? ==> byId
       case Releasing(_) => true
       case Done(reply) => reply.Answered? && p.read.None? ==> byId
       case _ => !byDigest && !byId
  }

  lemma LooksByDigest(lib: Library, t: Tables, p: Proc, env: Env, byDigest: bool, byId: bool)
    requires Shaped(p) && OnTrack(p) && p.pc.FindByDigest? && Looked(p, byDigest, byId)
    ensures
      var missed := !SelectByDigest(t, Digest(lib, p.request.value), env.fault).Found?;
      Looked(FindByDigestStep(lib, t, p, env).1, byDigest || missed, byId)
  {
  }

  lemma LooksById(t: Tables, p: Proc, env: Env, byDigest: bool, byId: bool)
    requires Shaped(p) && OnTrack(p) && p.pc.FindById? && Looked(p, byDigest, byId)
    ensures
      var missed := !SelectCredential(t, p.envelope.value.credentialId, env.fault).Found?;
      Looked(FindByIdStep(t, p, env).1, byDigest, byId || missed)
  {
  }

  lemma LooksAfter(lib: Library, t: Tables, p: Proc, env: Env, byDigest: bool, byId: bool)
    requires Shaped(p) && OnTrack(p) && Looked(p, byDigest, byId)
    ensures p.pc.Judge? ==> Looked(JudgeStep(lib, t, p, env).1, byDigest, byId)
    ensures p.pc.StoreResult? ==> Looked(StoreResultStep(t, p, env).1, byDigest, byId)
    ensures p.pc.Completing? ==> Looked(CompletingStep(t, p, env).1, byDigest, byId)
    ensures p.pc.Releasing? ==> Looked(ReleasingStep(t, p, env).1, byDigest, byId)
  {
  }

  lemma LooksBefore(lib: Library, t: Tables, p: Proc, env: Env, byDigest: bool, byId: bool)
    requires Shaped(p) && OnTrack(p) && Looked(p, byDigest, byId)
    ensures p.pc.ReserveInsert? ==> Looked(ReserveInsertStep(t, p, env).1, byDigest, byId)
    ensures p.pc.ReserveSelect? ==> Looked(ReserveSelectStep(t, p, env).1, byDigest, byId)
    ensures p.pc.StoreRequest? ==> Looked(StoreRequestStep(lib, t, p, env).1, byDigest, byId)
  {
  }

  lemma LooksWhenAllocating(lib: Library, t: Tables, p: Proc, env: Env, byDigest: bool, byId: bool)
    requires Shaped(p) && OnTrack(p) && p.pc.Allocate? && Looked(p, byDigest, byId)
    ensures Looked(AllocateStep(lib, t, p, env).1, byDigest, byId)
  {
  }

  lemma StepLooked(lib: Library, t: Tables, p: Proc, env: Env, byDigest: bool, byId: bool)
    requires Shaped(p) && OnTrack(p) && Looked(p, byDigest, byId)
    ensures
      var digestMissed := p.pc.FindByDigest? && !SelectByDigest(t, Digest(lib, p.request.value), env.fault).Found?;
      var idMissed := p.pc.FindById? && !SelectCredential(t, p.envelope.value.credentialId, env.fault).Found?;
      Looked(Step(lib, t, p, env).1, byDigest || digestMissed, byId || idMissed)
  {
    match p.pc
    case FindByDigest => StepLooksByDigest(lib, t, p, env, byDigest, byId);
    case FindById => StepLooksById(lib, t, p, env, byDigest, byId);
    case Allocate => StepAllocating(lib, t, p, env, byDigest, byId);
    case _ => StepLookedElsewhere(lib, t, p, env, byDigest, byId);
  }

  lemma StepLooksByDigest(lib: Library, t: Tables, p: Proc, env: Env, byDigest: bool, byId: bool)
    requires Shaped(p) && OnTrack(p) && p.pc.FindByDigest? && Looked(p, byDigest, byId)
    ensures
      var missed := !SelectByDigest(t, Digest(lib, p.request.value), env.fault).Found?;
      Looked(Step(lib, t, p, env).1, byDigest || missed, byId)
  {
    LooksByDigest(lib, t, p, env, byDigest, byId);
    assert Step(lib, t, p, env) == FindByDigestStep(lib, t, p, env);
  }

  lemma StepLooksById(lib: Library, t: Tables, p: Proc, env: Env, byDigest: bool, byId: bool)
    requires Shaped(p) && OnTrack(p) && p.pc.FindById? && Looked(p, byDigest, byId)
    ensures
      var missed := !SelectCredential(t, p.envelope.value.credentialId, env.fault).Found?;
      Looked(Step(lib, t, p, env).1, byDigest, byId || missed)
  {
    LooksById(t, p, env, byDigest, byId);
    assert Step(lib, t, p, env) == FindByIdStep(t, p, env);
  }

  lemma StepAllocating(lib: Library, t: Tables, p: Proc, env: Env, byDigest: bool, byId: bool)
    requires Shaped(p) && OnTrack(p) && p.pc.Allocate? && Looked(p, byDigest, byId)
    ensures Looked(Step(lib, t, p, env).1, byDigest, byId)
  {
    LooksWhenAllocating(lib, t, p, env, byDigest, byId);
    assert Step(lib, t, p, env) == AllocateStep(lib, t, p, env);
  }

  lemma StepLookedElsewhere(lib: Library, t: Tables, p: Proc, env: Env, byDigest: bool, byId: bool)
    requires Shaped(p) && OnTrack(p) && Looked(p, byDigest, byId)
    requires !p.pc.FindByDigest? && !p.pc.FindById? && !p.pc.Allocate?
    ensures Looked(Step(lib, t, p, env).1, byDigest, byId)
  {
    match p.pc
    case ReserveInsert =>
      LooksBefore(lib, t, p, env, byDigest, byId);
      assert Step(lib, t, p, env) == ReserveInsertStep(t, p, env);
    case ReserveSelect =>
      LooksBefore(lib, t, p, env, byDigest, byId);
      assert Step(lib, t, p, env) == ReserveSelectStep(t, p, env);
    case StoreRequest =>
      LooksBefore(lib, t, p, env, byDigest, byId);
      assert Step(lib, t, p, env) == StoreRequestStep(lib, t, p, env);
    case Judge =>
      LooksAfter(lib, t, p, env, byDigest, byId);
      assert Step(lib, t, p, env) == JudgeStep(lib, t, p, env);
    case StoreResult =>
      LooksAfter(lib, t, p, env, byDigest, byId);
      assert Step(lib, t, p, env) == StoreResultStep(t, p, env);
    case Completing(_) =>
      LooksAfter(lib, t, p, env, byDigest, byId);
      assert Step(lib, t, p, env) == CompletingStep(t, p, env);
    case Releasing(_) =>
      LooksAfter(lib, t, p, env, byDigest, byId);
      assert Step(lib, t, p, env) == ReleasingStep(t, p, env);
    case _ =>
  }

  lemma RunLabelLooked(lib: Library, s: State, pid: nat, env: Env, byDigest: bool, byId: bool)
    requires WellShaped(s) && pid in s.procs && OnTrack(s.procs[pid]) && Looked(s.procs[pid], byDigest, byId)
    ensures
      var l := Run(pid, env);
      Looked(Next(lib, s, l).procs[pid], byDigest || MissesDigest(lib, s, l, pid), byId || MissesId(s, l, pid))
  {
    StepLooked(lib, s.db, s.procs[pid], env, byDigest, byId);
  }

  lemma LabelLooked(lib: Library, s: State, l: Label, pid: nat, byDigest: bool, byId: bool)
    requires WellShaped(s) && pid in s.procs && OnTrack(s.procs[pid]) && Looked(s.procs[pid], byDigest, byId)
    ensures pid in Next(lib, s, l).procs
    ensures Looked(Next(lib, s, l).procs[pid], byDigest || MissesDigest(lib, s, l, pid), byId || MissesId(s, l, pid))
  {
    if l.Run? && l.pid == pid {
      RunLabelLooked(lib, s, pid, l.env, byDigest, byId);
    } else if l.Crash? && l.pid == pid {
    } else {
      OtherLabel(lib, s, l, pid);
    }
  }

  lemma {:induction false} RunLooked(lib: Library, s: State, ls: seq<Label>, pid: nat, byDigest: bool, byId: bool)
    requires WellShaped(s) && AllOnTrack(s) && pid in s.procs && Looked(s.procs[pid], byDigest, byId)
    ensures AllOnTrack(Exec(lib, s, ls)) && pid in Exec(lib, s, ls).procs
    ensures Looked(Exec(lib, s, ls).procs[pid], byDigest || MissedDigest(lib, s, ls, pid), byId || MissedId(lib, s, ls, pid))
    decreases |ls|
  {
    if ls != [] {
      LabelLooked(lib, s, ls[0], pid, byDigest, byId);
      NextOnTrack(lib, s, ls[0]);
      RunLooked(lib, Next(lib, s, ls[0]), ls[1..], pid, byDigest || MissesDigest(lib, s, ls[0], pid), byId || MissesId(s, ls[0], pid));
    }
  }

  lemma BeginsUnlooked(lib: Library, request: Request, issue: Request, id: string, trust: TrustRead)
    requires request.Verify?
    ensures
      var p := Begin(lib, request);
      p.request == request && Looked(p, false, false) && Fair(p, issue, id, trust)
  {
  }

  lemma AnsweredStatus(p: Proc, c: Completion, byDigest: bool, byId: bool)
    requires OnTrack(p) && Looked(p, byDigest, byId) && (p.pc == Done(Answered(c)) || p.completion == Some(c))
    ensures c.statusCode == 404 <==> byDigest && byId
    ensures c.statusCode == 404 || c.statusCode == 201
  {
  }

  // When a verification is answered, or its key completed, with "unknown credential":
  // in every run, whatever was submitted and whatever fails, exactly when both of its
  // lookups erred or found nothing. Otherwise it is a verdict.
  lemma NotFoundExactly(lib: Library, s: State, pid: nat, request: Request, ls: seq<Label>, c: Completion)
    requires Reachable(lib, s) && WellShaped(s) && pid !in s.procs && request.Verify?
    requires
      var p := Exec(lib, Next(lib, s, Arrive(pid, request)), ls).procs;
      pid in p && (p[pid].pc == Done(Answered(c)) || p[pid].completion == Some(c))
    ensures
      var s1 := Next(lib, s, Arrive(pid, request));
      && (c.statusCode == 404 <==> MissedDigest(lib, s1, ls, pid) && MissedId(lib, s1, ls, pid))
      && (c.statusCode == 404 || c.statusCode == 201)
  {
    var s1 := Next(lib, s, Arrive(pid, request));
    BeginsUnlooked(lib, request, request, "", TrustRefused);
    NextReachable(lib, s, Arrive(pid, request));
    ReachableOnTrack(lib, s1);
    RunLooked(lib, s1, ls, pid, false, false);
    AnsweredStatus(Exec(lib, s1, ls).procs[pid], c, MissedDigest(lib, s1, ls, pid), MissedId(lib, s1, ls, pid));
  }

  lemma ReachableOnTrack(lib: Library, s: State)
    requires Reachable(lib, s)
    ensures AllOnTrack(s)
  {
    Invariants(lib, s);
  }

  // The verdict on an unmodified issued artifact, in every run and for every pattern
  // of failures: an allow exactly when the digest lookup did not miss and the
  // submission is allowable. One failed digest lookup is enough for a deny.
  lemma VerdictDecided(lib: Library, s: State, pid: nat, request: Request, trust: TrustRead, id: string, ls: seq<Label>)
    returns (minter: nat)
    requires CollisionFree(lib) && PrintsTimes(lib) && Reachable(lib, s) && WellShaped(s)
    requires pid !in s.procs && request.Verify?
    requires id in s.db.credentials && request.value == s.db.credentials[id].artifact
    requires forall i :: 0 <= i < |ls| ==> OneTrust(ls[i], pid, trust)
    ensures MintedBy(s, id, minter) && s.procs[minter].request.Issue?
    ensures pid in Exec(lib, Next(lib, s, Arrive(pid, request)), ls).procs
    ensures
      var s1 := Next(lib, s, Arrive(pid, request));
      var p := Exec(lib, s1, ls).procs[pid];
      && p.request == request
      && (p.verdict.Some? ==>
            && p.read.Some? && p.read.value.record.credentialId == id
            && (p.verdict.value.decision.Allow?
                <==> && !MissedDigest(lib, s1, ls, pid)
                     && Allowable(request, s.procs[minter].request, p.read.value.record, EvaluatedAt(p.id), trust)))
  {
    minter := FindMinter(lib, s, id);
    var issue := s.procs[minter].request;
    var s1 := ArrivesVerifying(lib, s, pid, request, id, minter, issue, trust);
    RunFair(lib, s1, ls, pid, request, id, minter, issue, trust);
    ReachableOnTrack(lib, s1);
    RunLooked(lib, s1, ls, pid, false, false);
  }

  lemma ArrivesVerifying(
    lib: Library, s: State, pid: nat, request: Request, id: string, minter: nat, issue: Request, trust: TrustRead)
    returns (s1: State)
    requires Reachable(lib, s) && WellShaped(s) && pid !in s.procs && About(s, request, id, minter, issue)
    ensures s1 == Next(lib, s, Arrive(pid, request)) && WellShaped(s1)
    ensures Verifying(lib, s1, pid, request, id, minter, issue, trust) && Looked(s1.procs[pid], false, false)
  {
    BeginsUnlooked(lib, request, issue, id, trust);
    NextReachable(lib, s, Arrive(pid, request));
    AboutStays(lib, s, Arrive(pid, request), request, id, minter, issue);
    s1 := Next(lib, s, Arrive(pid, request));
  }

  // On an issued artifact a lookup misses only by failing.
  lemma MissesExactly(lib: Library, s: State, l: Label, pid: nat, id: string, minter: nat, issue: Request)
    requires CollisionFree(lib) && PrintsTimes(lib) && Reachable(lib, s)
    requires pid in s.procs && About(s, s.procs[pid].request, id, minter, issue)
    ensures MissesDigest(lib, s, l, pid) <==>
      l.Run? && l.pid == pid && s.procs[pid].pc.FindByDigest? && Errs(l.env.fault)
    ensures MissesId(s, l, pid) <==>
      l.Run? && l.pid == pid && s.procs[pid].pc.FindById? && s.procs[pid].envelope.Some? && Errs(l.env.fault)
  {
    if l.Run? {
      LookupsFind(lib, s, pid, l.env.fault, id, minter, issue);
    }
  }
}
