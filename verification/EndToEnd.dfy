// From issuance to decision: what a submission of an unmodified artifact is
// answered when its own writes do not fail, whatever its lookups and all other
// requests do.
module EndToEnd {
  import opened Text
  import opened Identifiers
  import opened Artifact
  import opened Requests
  import opened Tables
  import opened Evaluation
  import opened Handlers
  import opened System
  import opened Ownership
  import opened Progress
  import opened FreshKeys
  import opened Reachability
  import opened Verdicts
  import CredentialTable
  import Replay
  import VerificationTables

  // The labels of this request are steps without faults, its two lookups excepted,
  // under one answer of the trust registry; it does not crash. Other labels are
  // unrestricted.
  predicate CalmLabel(s: State, l: Label, pid: nat, trust: TrustRead) {
    match l
    case Run(p, env) =>
      p == pid && pid in s.procs ==>
        env.trust == trust && (env.fault.Fine? || s.procs[pid].pc.FindByDigest? || s.procs[pid].pc.FindById?)
    case Crash(p) => p != pid
    case _ => true
  }

  // When its INSERT of the reservation runs, nobody has the key.
  ghost predicate Unopposed(s: State, l: Label, pid: nat) {
    l.Run? && l.pid == pid && pid in s.procs && s.procs[pid].pc.ReserveInsert? && s.procs[pid].key.Some? ==>
      s.procs[pid].key.value !in s.db.idempotency
  }

  ghost predicate CalmRun(lib: Library, s: State, ls: seq<Label>, pid: nat, trust: TrustRead)
    requires WellShaped(s)
    decreases |ls|
  {
    ls != [] ==>
      CalmLabel(s, ls[0], pid, trust) && Unopposed(s, ls[0], pid) && CalmRun(lib, Next(lib, s, ls[0]), ls[1..], pid, trust)
  }

  // How many steps of a run are this request's.
  function OwnSteps(ls: seq<Label>, pid: nat): nat {
    if ls == [] then 0 else (if ls[0].Run? && ls[0].pid == pid then 1 else 0) + OwnSteps(ls[1..], pid)
  }

  // Where the submission can be, and what it has by then. It never waits for a
  // reservation and never has to release one.
  predicate OnCourse(p: Proc) {
    p.request.Verify? &&
    match p.pc
    case ReserveInsert => p.key.Some?
    case Allocate => true
    case StoreRequest => p.envelope.Some?
    case FindByDigest => p.envelope.Some?
    case FindById => p.envelope.Some?
    case Judge => p.envelope.Some? && p.read.Some?
    case StoreResult => p.envelope.Some? && p.read.Some? && p.verdict.Some?
    case Completing(_) => true
    case Done(reply) => reply.Answered?
    case _ => false
  }

  predicate Follows(pc: PC, next: PC) {
    match pc
    case ReserveInsert => next.Allocate?
    case Allocate => next.StoreRequest?
    case StoreRequest => next.FindByDigest?
    case FindByDigest => next.FindById? || next.Judge?
    case FindById => next.Judge? || next.Completing? || next.Done?
    case Judge => next.StoreResult?
    case StoreResult => next.Completing? || next.Done?
    case Completing(_) => next.Done?
    case _ => next == pc
  }

  // At most this many steps to go.
  function Remaining(pc: PC): nat {
    match pc
    case ReserveInsert => 8
    case Allocate => 7
    case StoreRequest => 6
    case FindByDigest => 5
    case FindById => 4
    case Judge => 3
    case StoreResult => 2
    case Completing(_) => 1
    case _ => 0
  }

  predicate Advances(p: Proc, q: Proc) {
    OnCourse(q) && Follows(p.pc, q.pc) && SameRequest(p, q)
  }

  // One lemma for each statement: on course before it, on course after it.
  lemma AtReserve(t: Tables, p: Proc, env: Env)
    requires Shaped(p) && p.pc.ReserveInsert? && OnCourse(p) && env.fault.Fine? && p.key.value !in t.idempotency
    ensures Advances(p, ReserveInsertStep(t, p, env).1)
  {
  }

  lemma AtAllocate(lib: Library, t: Tables, p: Proc, env: Env)
    requires Shaped(p) && p.pc.Allocate? && OnCourse(p) && env.fault.Fine? && Parse(lib, p.request.value).Some?
    ensures Advances(p, AllocateStep(lib, t, p, env).1)
  {
  }

  lemma AtStoreRequest(lib: Library, t: Tables, p: Proc, env: Env)
    requires Shaped(p) && p.pc.StoreRequest? && OnCourse(p) && env.fault.Fine? && Trim(p.id) !in t.requests
    ensures Advances(p, StoreRequestStep(lib, t, p, env).1)
  {
  }

  lemma AtLookup(lib: Library, t: Tables, p: Proc, env: Env)
    requires Shaped(p) && OnCourse(p)
    ensures p.pc.FindByDigest? ==> Advances(p, FindByDigestStep(lib, t, p, env).1)
    ensures p.pc.FindById? ==> Advances(p, FindByIdStep(t, p, env).1)
    ensures p.pc.Judge? ==> Advances(p, JudgeStep(lib, t, p, env).1)
  {
  }

  lemma AtStoreResult(t: Tables, p: Proc, env: Env)
    requires Shaped(p) && p.pc.StoreResult? && OnCourse(p) && env.fault.Fine?
    requires p.verdict.value.verificationId == p.id && Trim(p.id) !in t.results
    ensures Advances(p, StoreResultStep(t, p, env).1)
  {
  }

  lemma AtCompleting(t: Tables, p: Proc, env: Env)
    requires Shaped(p) && p.pc.Completing? && OnCourse(p) && env.fault.Fine? && p.key.value in t.idempotency
    ensures Advances(p, CompletingStep(t, p, env).1)
  {
  }

  // Each of its statements advances it.
  lemma OwnStep(
    lib: Library, s: State, pid: nat, env: Env, request: Request, id: string, minter: nat, issue: Request, trust: TrustRead)
    requires PrintsTimes(lib) && WellShaped(s) && Verifying(lib, s, pid, request, id, minter, issue, trust)
    requires OnCourse(s.procs[pid]) && CalmLabel(s, Run(pid, env), pid, trust) && Unopposed(s, Run(pid, env), pid)
    ensures Advances(s.procs[pid], Step(lib, s.db, s.procs[pid], env).1)
  {
    var t, p := s.db, s.procs[pid];
    match p.pc
    case ReserveInsert =>
      AtReserve(t, p, env);
      assert Step(lib, t, p, env) == ReserveInsertStep(t, p, env);
    case Allocate =>
      var e := ArtifactParses(lib, s, request, id, minter, issue);
      AtAllocate(lib, t, p, env);
      assert Step(lib, t, p, env) == AllocateStep(lib, t, p, env);
    case StoreRequest =>
      RequestFree(lib, s, pid);
      AtStoreRequest(lib, t, p, env);
      assert Step(lib, t, p, env) == StoreRequestStep(lib, t, p, env);
    case FindByDigest =>
      AtLookup(lib, t, p, env);
      assert Step(lib, t, p, env) == FindByDigestStep(lib, t, p, env);
    case FindById =>
      AtLookup(lib, t, p, env);
      assert Step(lib, t, p, env) == FindByIdStep(t, p, env);
    case Judge =>
      AtLookup(lib, t, p, env);
      assert Step(lib, t, p, env) == JudgeStep(lib, t, p, env);
    case StoreResult =>
      ResultFree(lib, s, pid);
      AtStoreResult(t, p, env);
      assert Step(lib, t, p, env) == StoreResultStep(t, p, env);
    case Completing(_) =>
      CompletingRow(lib, s, pid);
      AtCompleting(t, p, env);
      assert Step(lib, t, p, env) == CompletingStep(t, p, env);
    case Done(_) =>
  }

  lemma OneLabel(
    lib: Library, s: State, l: Label, pid: nat, request: Request, id: string, minter: nat, issue: Request, trust: TrustRead)
    requires CollisionFree(lib) && PrintsTimes(lib) && WellShaped(s)
    requires Verifying(lib, s, pid, request, id, minter, issue, trust) && OnCourse(s.procs[pid])
    requires CalmLabel(s, l, pid, trust) && Unopposed(s, l, pid)
    ensures Verifying(lib, Next(lib, s, l), pid, request, id, minter, issue, trust)
    ensures OnCourse(Next(lib, s, l).procs[pid])
    ensures if l.Run? && l.pid == pid then Follows(s.procs[pid].pc, Next(lib, s, l).procs[pid].pc)
            else Next(lib, s, l).procs[pid] == s.procs[pid]
  {
    LabelFair(lib, s, l, pid, request, id, minter, issue, trust);
    if l.Run? && l.pid == pid {
      OwnStep(lib, s, pid, l.env, request, id, minter, issue, trust);
    } else {
      OtherLabel(lib, s, l, pid);
    }
  }

  // Its course over any run, and that it is done after at most eight steps.
  lemma {:induction false} StaysOnCourse(
    lib: Library, s: State, ls: seq<Label>, pid: nat, request: Request, id: string, minter: nat, issue: Request, trust: TrustRead)
    requires CollisionFree(lib) && PrintsTimes(lib) && WellShaped(s)
    requires Verifying(lib, s, pid, request, id, minter, issue, trust) && OnCourse(s.procs[pid])
    requires CalmRun(lib, s, ls, pid, trust)
    ensures Verifying(lib, Exec(lib, s, ls), pid, request, id, minter, issue, trust)
    ensures OnCourse(Exec(lib, s, ls).procs[pid])
    ensures OwnSteps(ls, pid) >= Remaining(s.procs[pid].pc) ==> Exec(lib, s, ls).procs[pid].pc.Done?
    decreases |ls|
  {
    if ls != [] {
      OneLabel(lib, s, ls[0], pid, request, id, minter, issue, trust);
      StaysOnCourse(lib, Next(lib, s, ls[0]), ls[1..], pid, request, id, minter, issue, trust);
    }
  }

  // The answer repeats the verdict, which is the stored result; or no record was
  // found, and then there is no result.
  lemma AnswerFacts(p: Proc, t: Tables)
    requires OnTrack(p) && OnCourse(p) && p.pc.Done? && VerificationTables.RecordFacts(t, p)
    ensures p.number > 0
    ensures
      var c := p.pc.reply.c;
      if p.read.None? then c == NotFoundCompletion(p.id) && !p.stored
      else
        && p.verdict.Some? && p.stored
        && c.statusCode == 201 && c.body.VerificationBody? && c.body.decision == p.verdict.value.decision
        && Trim(p.id) in t.results && t.results[Trim(p.id)].decision == c.body.decision
  {
  }

  // What the answer is, in terms of the verdict and the result table.
  ghost predicate Reported(s: State, pid: nat) {
    && pid in s.procs
    && var p := s.procs[pid];
    && p.pc.Done? && p.pc.reply.Answered?
    && var c := p.pc.reply.c;
    if p.read.None? then c == NotFoundCompletion(p.id) && p.id !in s.db.results
    else
      && p.verdict.Some?
      && c.statusCode == 201 && c.body.VerificationBody? && c.body.decision == p.verdict.value.decision
      && p.id in s.db.results && s.db.results[p.id].decision == c.body.decision
  }

  lemma AnswerInState(lib: Library, s: State, pid: nat)
    requires Keyed(lib, s) && pid in s.procs && OnCourse(s.procs[pid]) && s.procs[pid].pc.Done?
    ensures Reported(s, pid)
  {
    AnswerFacts(s.procs[pid], s.db);
    IdentifiersAreTight("", s.procs[pid].number);
    if s.procs[pid].read.None? {
      UnstoredHasNoResult(lib, s, pid);
    }
  }

  lemma AnswerWhenReachable(lib: Library, s: State, pid: nat)
    requires Reachable(lib, s) && pid in s.procs && OnCourse(s.procs[pid]) && s.procs[pid].pc.Done?
    ensures Reported(s, pid)
    ensures s.procs[pid].key.Some? ==>
      && s.procs[pid].key.value in s.db.idempotency
      && s.db.idempotency[s.procs[pid].key.value] == CompletedRow(Trim(s.procs[pid].fingerprint), s.procs[pid].pc.reply.c)
  {
    Invariants(lib, s);
    AnswerInState(lib, s, pid);
    if s.procs[pid].key.Some? {
      AnswerInRow(lib, s, pid);
    }
  }

  lemma AnswerInRow(lib: Library, s: State, pid: nat)
    requires Reachable(lib, s)
    requires pid in s.procs && s.procs[pid].pc.Done? && s.procs[pid].pc.reply.Answered? && s.procs[pid].key.Some?
    ensures s.procs[pid].key.value in s.db.idempotency
    ensures s.db.idempotency[s.procs[pid].key.value]
            == CompletedRow(Trim(s.procs[pid].fingerprint), s.procs[pid].pc.reply.c)
  {
    OwnedWhenReachable(lib, s);
    Replay.ServedFromRow(s, pid);
  }

  // How a submission of an unmodified issued artifact ends, given which lookups
  // missed: an unknown credential when both did; else a 201 that is an allow exactly
  // when the digest lookup did not miss and the submission is allowable. The result
  // table says the same, and with an idempotency key so does the response under it.
  ghost predicate Decided(s: State, pid: nat, issue: Request, id: string, trust: TrustRead, noDigest: bool, noId: bool) {
    && pid in s.procs
    && var p := s.procs[pid];
    && p.pc.Done? && p.pc.reply.Answered? && p.request.Verify? && issue.Issue?
    && var c := p.pc.reply.c;
    && (p.key.Some? ==>
          && p.key.value in s.db.idempotency
          && s.db.idempotency[p.key.value] == CompletedRow(Trim(p.fingerprint), c))
    && if noDigest && noId then c == NotFoundCompletion(p.id) && p.id !in s.db.results
       else
         && c.statusCode == 201 && c.body.VerificationBody?
         && p.read.Some? && p.read.value.record.credentialId == id
         && (c.body.decision.Allow?
             <==> !noDigest && Allowable(p.request, issue, p.read.value.record, EvaluatedAt(p.id), trust))
         && p.id in s.db.results && s.db.results[p.id].decision == c.body.decision
  }

  lemma LookedWhenDone(p: Proc, noDigest: bool, noId: bool)
    requires Looked(p, noDigest, noId) && p.pc.Done? && p.pc.reply.Answered?
    ensures p.read.None? <==> noDigest && noId
    ensures p.read.Some? ==> (p.read.value.byDigest <==> !noDigest)
  {
  }

  lemma DoneIsDecided(
    lib: Library, s: State, pid: nat, request: Request, id: string, minter: nat, issue: Request, trust: TrustRead,
    noDigest: bool, noId: bool)
    requires Verifying(lib, s, pid, request, id, minter, issue, trust)
    requires OnCourse(s.procs[pid]) && s.procs[pid].pc.Done? && Looked(s.procs[pid], noDigest, noId)
    ensures Decided(s, pid, issue, id, trust, noDigest, noId)
  {
    AnswerWhenReachable(lib, s, pid);
    LookedWhenDone(s.procs[pid], noDigest, noId);
  }

  // A submission that passes the checks before the first statement.
  predicate Admitted(lib: Library, request: Request) {
    request.Verify? && Attributed(request.caller) && Valid(lib, request)
  }

  lemma BeginsOnCourse(lib: Library, request: Request)
    requires Admitted(lib, request)
    ensures
      var p := Begin(lib, request);
      && OnCourse(p) && p.key == KeyOf(request) && (if p.key.Some? then p.pc.ReserveInsert? else p.pc.Allocate?)
  {
  }

  // Completeness over runs: a valid submission of an unmodified issued artifact
  // arrives in any reachable state, with an idempotency key or without; its own
  // writes do not fail and nobody has its key when it reserves it. Whatever its
  // lookups do, whatever all other requests do in between and however theirs go,
  // once it has taken its eight steps it is decided.
  lemma SubmissionDecided(lib: Library, s: State, pid: nat, request: Request, trust: TrustRead, id: string, ls: seq<Label>)
    returns (minter: nat, s1: State, s2: State)
    requires CollisionFree(lib) && PrintsTimes(lib) && Reachable(lib, s) && WellShaped(s)
    requires pid !in s.procs && Admitted(lib, request)
    requires id in s.db.credentials && request.value == s.db.credentials[id].artifact
    requires CalmRun(lib, Next(lib, s, Arrive(pid, request)), ls, pid, trust) && OwnSteps(ls, pid) >= 8
    ensures CredentialTable.MintedBy(s, id, minter)
    ensures s1 == Next(lib, s, Arrive(pid, request)) && WellShaped(s1) && s2 == Exec(lib, s1, ls) && Reachable(lib, s2)
    ensures Decided(s2, pid, s.procs[minter].request, id, trust, MissedDigest(lib, s1, ls, pid), MissedId(lib, s1, ls, pid))
    ensures s2.procs[pid].key == KeyOf(request)
  {
    minter := FindMinter(lib, s, id);
    var issue := s.procs[minter].request;
    s1 := ArrivesVerifying(lib, s, pid, request, id, minter, issue, trust);
    BeginsOnCourse(lib, request);
    StaysOnCourse(lib, s1, ls, pid, request, id, minter, issue, trust);
    ReachableOnTrack(lib, s1);
    RunLooked(lib, s1, ls, pid, false, false);
    IdentityKept(lib, s1, ls, pid);
    s2 := Exec(lib, s1, ls);
    DoneIsDecided(lib, s2, pid, request, id, minter, issue, trust, MissedDigest(lib, s1, ls, pid), MissedId(lib, s1, ls, pid));
  }

  // An answer given under a key is what the key holds in every continuation.
  lemma AnswerSticks(lib: Library, s: State, pid: nat, ms: seq<Label>)
    requires Reachable(lib, s) && WellShaped(s)
    requires pid in s.procs && s.procs[pid].pc.Done? && s.procs[pid].pc.reply.Answered? && s.procs[pid].key.Some?
    ensures
      var t := Exec(lib, s, ms).db.idempotency;
      var p := s.procs[pid];
      p.key.value in t && t[p.key.value] == CompletedRow(Trim(p.fingerprint), p.pc.reply.c)
  {
    AnswerInRow(lib, s, pid);
    OwnedWhenReachable(lib, s);
    Replay.CompletedRowFixed(lib, s, ms, s.procs[pid].key.value);
  }

  function Own(pid: nat, f: Fault, trust: TrustRead): Label {
    Run(pid, Env(f, 0, trust))
  }

  // A request that takes this many steps in a row, none of them failing.
  function Alone(pid: nat, trust: TrustRead, n: nat): (ls: seq<Label>)
    ensures OwnSteps(ls, pid) == n
    ensures forall i :: 0 <= i < |ls| ==> ls[i] == Own(pid, Fine, trust)
  {
    if n == 0 then [] else [Own(pid, Fine, trust)] + Alone(pid, trust, n - 1)
  }

  lemma ReservesOnce(lib: Library, t: Tables, p: Proc, env: Env)
    requires Shaped(p) && p.request.Verify?
    ensures Step(lib, t, p, env).1.request.Verify? && !Step(lib, t, p, env).1.pc.ReserveInsert?
  {
  }

  // Runs such as the theorem speaks of exist: undisturbed, a submission under a free
  // key is one.
  lemma {:induction false} AloneIsCalm(lib: Library, s: State, pid: nat, trust: TrustRead, n: nat)
    requires WellShaped(s) && pid in s.procs && s.procs[pid].request.Verify?
    requires s.procs[pid].pc.ReserveInsert? && s.procs[pid].key.Some? ==> s.procs[pid].key.value !in s.db.idempotency
    ensures CalmRun(lib, s, Alone(pid, trust, n), pid, trust)
    decreases n
  {
    if n > 0 {
      var env := Env(Fine, 0, trust);
      ReservesOnce(lib, s.db, s.procs[pid], env);
      AloneIsCalm(lib, Next(lib, s, Run(pid, env)), pid, trust, n - 1);
      assert Alone(pid, trust, n)[1..] == Alone(pid, trust, n - 1);
    }
  }

  lemma {:induction false} CalmAppend(lib: Library, s: State, a: seq<Label>, b: seq<Label>, pid: nat, trust: TrustRead)
    requires WellShaped(s) && CalmRun(lib, s, a, pid, trust) && CalmRun(lib, Exec(lib, s, a), b, pid, trust)
    ensures CalmRun(lib, s, a + b, pid, trust)
    decreases |a|
  {
    if a == [] {
      assert a + b == b;
    } else {
      assert (a + b)[1..] == a[1..] + b;
      CalmAppend(lib, Next(lib, s, a[0]), a[1..], b, pid, trust);
    }
  }

  lemma {:induction false} MissesAppend(lib: Library, s: State, a: seq<Label>, b: seq<Label>, pid: nat)
    requires WellShaped(s)
    ensures MissedDigest(lib, s, a + b, pid) <==> MissedDigest(lib, s, a, pid) || MissedDigest(lib, Exec(lib, s, a), b, pid)
    ensures MissedId(lib, s, a + b, pid) <==> MissedId(lib, s, a, pid) || MissedId(lib, Exec(lib, s, a), b, pid)
    decreases |a|
  {
    if a == [] {
      assert a + b == b;
    } else {
      assert (a + b)[1..] == a[1..] + b;
      MissesAppend(lib, Next(lib, s, a[0]), a[1..], b, pid);
    }
  }

  lemma {:induction false} OwnStepsAppend(a: seq<Label>, b: seq<Label>, pid: nat)
    ensures OwnSteps(a + b, pid) == OwnSteps(a, pid) + OwnSteps(b, pid)
  {
    if a == [] {
      assert a + b == b;
    } else {
      assert (a + b)[1..] == a[1..] + b;
      OwnStepsAppend(a[1..], b, pid);
    }
  }

  // A lookup of an issued artifact that does not fail does not miss.
  lemma {:induction false} AloneMissesNothing(
    lib: Library, s: State, n: nat, pid: nat, request: Request, id: string, minter: nat, issue: Request, trust: TrustRead)
    requires CollisionFree(lib) && PrintsTimes(lib) && WellShaped(s)
    requires Verifying(lib, s, pid, request, id, minter, issue, trust) && OnCourse(s.procs[pid])
    requires CalmRun(lib, s, Alone(pid, trust, n), pid, trust)
    ensures !MissedDigest(lib, s, Alone(pid, trust, n), pid) && !MissedId(lib, s, Alone(pid, trust, n), pid)
    decreases n
  {
    if n > 0 {
      var l := Own(pid, Fine, trust);
      assert Alone(pid, trust, n)[1..] == Alone(pid, trust, n - 1);
      OneLabel(lib, s, l, pid, request, id, minter, issue, trust);
      MissesExactly(lib, s, l, pid, id, minter, issue);
      AloneMissesNothing(lib, Next(lib, s, l), n - 1, pid, request, id, minter, issue, trust);
    }
  }

  // Up to its first lookup a submission takes one known step after the other.
  lemma {:induction false} AloneOnSchedule(
    lib: Library, s: State, n: nat, pid: nat, request: Request, id: string, minter: nat, issue: Request, trust: TrustRead)
    requires CollisionFree(lib) && PrintsTimes(lib) && WellShaped(s)
    requires Verifying(lib, s, pid, request, id, minter, issue, trust) && OnCourse(s.procs[pid])
    requires CalmRun(lib, s, Alone(pid, trust, n), pid, trust)
    requires Remaining(s.procs[pid].pc) >= n + 5
    ensures pid in Exec(lib, s, Alone(pid, trust, n)).procs
    ensures Remaining(Exec(lib, s, Alone(pid, trust, n)).procs[pid].pc) == Remaining(s.procs[pid].pc) - n
    decreases n
  {
    if n > 0 {
      var l := Own(pid, Fine, trust);
      assert Alone(pid, trust, n)[1..] == Alone(pid, trust, n - 1);
      OneLabel(lib, s, l, pid, request, id, minter, issue, trust);
      AloneOnSchedule(lib, Next(lib, s, l), n - 1, pid, request, id, minter, issue, trust);
    }
  }

  // A submission run alone whose digest lookup is refused and nothing else.
  function DigestFails(pid: nat, trust: TrustRead): seq<Label> {
    Alone(pid, trust, 3) + ([Own(pid, Refused, trust)] + Alone(pid, trust, 4))
  }

  lemma AfterTheMiss(
    lib: Library, s: State, pid: nat, request: Request, id: string, minter: nat, issue: Request, trust: TrustRead)
    requires CollisionFree(lib) && PrintsTimes(lib) && WellShaped(s)
    requires Verifying(lib, s, pid, request, id, minter, issue, trust) && OnCourse(s.procs[pid]) && s.procs[pid].pc.FindByDigest?
    ensures
      var rest := [Own(pid, Refused, trust)] + Alone(pid, trust, 4);
      CalmRun(lib, s, rest, pid, trust) && MissedDigest(lib, s, rest, pid) && !MissedId(lib, s, rest, pid)
  {
    var l := Own(pid, Refused, trust);
    var rest := [l] + Alone(pid, trust, 4);
    assert rest[1..] == Alone(pid, trust, 4);
    OneLabel(lib, s, l, pid, request, id, minter, issue, trust);
    MissesExactly(lib, s, l, pid, id, minter, issue);
    AloneIsCalm(lib, Next(lib, s, l), pid, trust, 4);
    AloneMissesNothing(lib, Next(lib, s, l), 4, pid, request, id, minter, issue, trust);
  }

  lemma DigestFailsMisses(
    lib: Library, s: State, pid: nat, request: Request, id: string, minter: nat, issue: Request, trust: TrustRead)
    requires CollisionFree(lib) && PrintsTimes(lib) && WellShaped(s)
    requires Verifying(lib, s, pid, request, id, minter, issue, trust) && OnCourse(s.procs[pid]) && s.procs[pid].pc.ReserveInsert?
    requires s.procs[pid].key.value !in s.db.idempotency
    ensures
      var ls := DigestFails(pid, trust);
      && CalmRun(lib, s, ls, pid, trust) && OwnSteps(ls, pid) == 8
      && MissedDigest(lib, s, ls, pid) && !MissedId(lib, s, ls, pid)
  {
    var first, rest := Alone(pid, trust, 3), [Own(pid, Refused, trust)] + Alone(pid, trust, 4);
    AloneIsCalm(lib, s, pid, trust, 3);
    AloneMissesNothing(lib, s, 3, pid, request, id, minter, issue, trust);
    AloneOnSchedule(lib, s, 3, pid, request, id, minter, issue, trust);
    StaysOnCourse(lib, s, first, pid, request, id, minter, issue, trust);
    AfterTheMiss(lib, Exec(lib, s, first), pid, request, id, minter, issue, trust);
    CalmAppend(lib, s, first, rest, pid, trust);
    MissesAppend(lib, s, first, rest, pid);
    OwnStepsAppend(first, rest, pid);
    assert rest[1..] == Alone(pid, trust, 4);
  }

  // The denied input: from any reachable state, a submission that may well be
  // allowable, under a free key, whose digest lookup alone fails. It is answered with
  // a deny; the deny is stored, and the key holds it in every continuation.
  lemma FailedLookupDenies(lib: Library, s: State, pid: nat, request: Request, trust: TrustRead, id: string, ms: seq<Label>)
    returns (s1: State, s2: State)
    requires CollisionFree(lib) && PrintsTimes(lib) && Reachable(lib, s) && WellShaped(s)
    requires pid !in s.procs && Admitted(lib, request)
    requires id in s.db.credentials && request.value == s.db.credentials[id].artifact
    requires KeyOf(request).Some? && KeyOf(request).value !in s.db.idempotency
    ensures s1 == Next(lib, s, Arrive(pid, request)) && WellShaped(s1) && s2 == Exec(lib, s1, DigestFails(pid, trust))
    ensures WellShaped(s2) && pid in s2.procs && s2.procs[pid].pc.Done? && s2.procs[pid].pc.reply.Answered?
    ensures
      var p := s2.procs[pid];
      var c := p.pc.reply.c;
      var t := Exec(lib, s2, ms).db.idempotency;
      && c.statusCode == 201 && c.body.VerificationBody? && c.body.decision.Deny?
      && KeyOf(request).value in t && t[KeyOf(request).value] == CompletedRow(Trim(p.fingerprint), c)
  {
    var minter := FindMinter(lib, s, id);
    var issue := s.procs[minter].request;
    s1 := ArrivesVerifying(lib, s, pid, request, id, minter, issue, trust);
    BeginsOnCourse(lib, request);
    DigestFailsMisses(lib, s1, pid, request, id, minter, issue, trust);
    minter, s1, s2 := SubmissionDecided(lib, s, pid, request, trust, id, DigestFails(pid, trust));
    AnswerSticks(lib, s2, pid, ms);
  }
}
