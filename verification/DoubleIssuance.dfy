// The credentials one idempotency key creates, counted by the steps that keep their
// owner from completing it.
module DoubleIssuance {
  import opened Text
  import opened Artifact
  import opened Requests
  import opened Tables
  import opened Handlers
  import opened System
  import opened Ownership
  import opened Progress
  import opened FreshKeys
  import opened Issuance
  import VerificationTables

  // The request wrote its credential row and can no longer complete its key.
  predicate Doomed(p: Proc, key: Key) {
    p.key == Some(key) && p.minted.Some? && p.completion.None? && (p.pc.Releasing? || p.pc.Done?)
  }

  // The steps of a request that doom it: its credential INSERT takes effect but is
  // not acknowledged, or its completing UPDATE is refused after the INSERT.
  predicate DoomingStep(p: Proc, env: Env) {
    || (p.pc.CreateCredential? && env.fault.Lost?)
    || (p.pc.Completing? && p.minted.Some? && env.fault.Refused?)
  }

  // A label that dooms a request under this key; a crash does it too, once the row
  // is written and the key not yet completed.
  ghost predicate Dooms(s: State, l: Label, key: Key) {
    match l
    case Run(pid, env) => pid in s.procs && s.procs[pid].key == Some(key) && DoomingStep(s.procs[pid], env)
    case Crash(pid) => pid in s.procs && s.procs[pid].key == Some(key) && s.procs[pid].minted.Some? && s.procs[pid].pc.Completing?
    case _ => false
  }

  ghost function DoomedUnder(s: State, key: Key): set<nat> {
    set pid | pid in s.procs && Doomed(s.procs[pid], key)
  }

  // At its last statement, with the row written.
  ghost function Finishing(s: State, key: Key): set<nat> {
    set pid | pid in Minters(s, key) && s.procs[pid].pc.Completing?
  }

  lemma CreateDooms(t: Tables, p: Proc, c: Credential, env: Env, key: Key)
    requires Shaped(p) && p.pc.CreateCredential? && p.minted.None? && p.completion.None?
    requires Trim(c.credentialId) !in t.credentials
    ensures Doomed(CreateStep(t, p, c, env).1, key) <==> p.key == Some(key) && env.fault.Lost?
  {
  }

  lemma CompletingDooms(t: Tables, p: Proc, env: Env, key: Key)
    requires Shaped(p) && p.pc.Completing? && p.completion.None? && p.key.value in t.idempotency
    ensures Doomed(CompletingStep(t, p, env).1, key) <==> p.key == Some(key) && p.minted.Some? && env.fault.Refused?
  {
  }

  lemma ReleasingDooms(t: Tables, p: Proc, env: Env, key: Key)
    requires Shaped(p) && p.pc.Releasing?
    ensures Doomed(ReleasingStep(t, p, env).1, key) <==> Doomed(p, key)
  {
  }

  // A request that has its row written is at its last statement, or past it.
  lemma MintedLate(p: Proc)
    requires Shaped(p) && OnTrack(p) && p.minted.Some?
    ensures p.pc.Completing? || p.pc.Releasing? || p.pc.Done?
  {
  }

  lemma StepDooms(lib: Library, t: Tables, p: Proc, env: Env, key: Key)
    requires Shaped(p) && OnTrack(p) && CompletedLate(p)
    requires p.pc.CreateCredential? ==> Trim(p.id) !in t.credentials
    requires p.pc.Completing? ==> p.key.value in t.idempotency
    ensures Doomed(Step(lib, t, p, env).1, key) <==> Doomed(p, key) || (p.key == Some(key) && DoomingStep(p, env))
  {
    if p.pc.CreateCredential? {
      InsertDooms(lib, t, p, env, key);
    } else if p.pc.Completing? || p.pc.Releasing? || p.pc.Done? {
      EndDooms(lib, t, p, env, key);
    } else {
      OtherDooms(lib, t, p, env, key);
    }
  }

  lemma InsertDooms(lib: Library, t: Tables, p: Proc, env: Env, key: Key)
    requires Shaped(p) && OnTrack(p) && CompletedLate(p) && p.pc.CreateCredential? && Trim(p.id) !in t.credentials
    ensures Doomed(Step(lib, t, p, env).1, key) <==> p.key == Some(key) && env.fault.Lost?
  {
    var c := NewCredential(lib, p.request, p.id);
    CreateDooms(t, p, c, env, key);
    assert Step(lib, t, p, env) == CreateStep(t, p, c, env);
  }

  lemma EndDooms(lib: Library, t: Tables, p: Proc, env: Env, key: Key)
    requires Shaped(p) && CompletedLate(p) && (p.pc.Completing? || p.pc.Releasing? || p.pc.Done?)
    requires p.pc.Completing? ==> p.key.value in t.idempotency
    ensures Doomed(Step(lib, t, p, env).1, key) <==> Doomed(p, key) || (p.key == Some(key) && DoomingStep(p, env))
  {
    match p.pc
    case Completing(_) =>
      CompletingDooms(t, p, env, key);
      assert Step(lib, t, p, env) == CompletingStep(t, p, env);
    case Releasing(_) =>
      ReleasingDooms(t, p, env, key);
      assert Step(lib, t, p, env) == ReleasingStep(t, p, env);
    case Done(_) => assert Step(lib, t, p, env) == (t, p);
  }

  lemma OtherDooms(lib: Library, t: Tables, p: Proc, env: Env, key: Key)
    requires Shaped(p) && OnTrack(p)
    requires !p.pc.CreateCredential? && !p.pc.Completing? && !p.pc.Releasing? && !p.pc.Done?
    ensures !Doomed(Step(lib, t, p, env).1, key) && !Doomed(p, key)
  {
    FieldsFrame(lib, t, p, env);
    if p.minted.Some? {
      MintedLate(p);
    }
  }

  ghost predicate DoomFacts(lib: Library, s: State) {
    Owned(s) && Keyed(lib, s)
  }

  // What a step of a request relies on.
  predicate Ready(t: Tables, p: Proc) {
    && Shaped(p) && OnTrack(p) && CompletedLate(p)
    && (p.pc.CreateCredential? ==> Trim(p.id) !in t.credentials)
    && (p.pc.Completing? ==> p.key.value in t.idempotency)
  }

  lemma AlwaysReady(lib: Library, s: State, pid: nat)
    requires DoomFacts(lib, s) && pid in s.procs
    ensures Ready(s.db, s.procs[pid])
  {
    if s.procs[pid].pc.CreateCredential? {
      CredentialKeyFree(lib, s, pid);
    } else if s.procs[pid].pc.Completing? {
      CompletingHasRow(s, pid);
    }
  }

  lemma RunDooms(lib: Library, s: State, pid: nat, env: Env, key: Key)
    requires WellShaped(s) && pid in s.procs && Ready(s.db, s.procs[pid])
    ensures
      var s' := Next(lib, s, Run(pid, env));
      var dooms := Dooms(s, Run(pid, env), key);
      && DoomedUnder(s', key) == DoomedUnder(s, key) + (if dooms then {pid} else {})
      && (dooms ==> pid !in DoomedUnder(s, key))
  {
    StepDooms(lib, s.db, s.procs[pid], env, key);
    OneDoomed(s, pid, Next(lib, s, Run(pid, env)), key, Dooms(s, Run(pid, env), key));
  }

  lemma CrashDooms(s: State, pid: nat, key: Key)
    requires pid in s.procs && Ready(s.db, s.procs[pid])
    ensures
      var dooms := Dooms(s, Crash(pid), key);
      && DoomedUnder(Without(s, pid), key) == DoomedUnder(s, key) + (if dooms then {pid} else {})
      && (dooms ==> pid !in DoomedUnder(s, key))
  {
    if s.procs[pid].minted.Some? {
      MintedLate(s.procs[pid]);
    }
    OneDoomed(s, pid, Without(s, pid), key, Dooms(s, Crash(pid), key));
  }

  lemma BeginHealthy(lib: Library, request: Request, key: Key)
    ensures !Doomed(Begin(lib, request), key)
  {
  }

  lemma OneDoomed(s: State, pid: nat, s': State, key: Key, dooms: bool)
    requires pid in s.procs && pid in s'.procs && s'.procs == s.procs[pid := s'.procs[pid]]
    requires Doomed(s'.procs[pid], key) <==> Doomed(s.procs[pid], key) || dooms
    ensures DoomedUnder(s', key) == DoomedUnder(s, key) + if dooms then {pid} else {}
  {
  }

  lemma ArriveDooms(lib: Library, s: State, pid: nat, request: Request, key: Key)
    requires WellShaped(s)
    ensures DoomedUnder(Next(lib, s, Arrive(pid, request)), key) == DoomedUnder(s, key)
  {
    BeginHealthy(lib, request, key);
  }

  // Exactly the dooming steps doom, each of them one request, and for good.
  lemma DoomedExactly(lib: Library, s: State, l: Label, key: Key)
    requires DoomFacts(lib, s)
    ensures DoomedUnder(Next(lib, s, l), key)
            == DoomedUnder(s, key) + if Dooms(s, l, key) then {l.pid} else {}
    ensures Dooms(s, l, key) ==> l.pid !in DoomedUnder(s, key)
  {
    match l
    case Arrive(pid, request) => ArriveDooms(lib, s, pid, request, key);
    case Run(pid, env) =>
      if pid in s.procs {
        AlwaysReady(lib, s, pid);
        RunDooms(lib, s, pid, env, key);
      }
    case Crash(pid) =>
      if pid in s.procs {
        AlwaysReady(lib, s, pid);
        CrashDooms(s, pid, key);
      }
    case SetIssuers(_) =>
  }

  // The number of dooming steps in a run.
  ghost function DoomingSteps(lib: Library, s: State, ls: seq<Label>, key: Key): nat
    requires WellShaped(s)
    decreases |ls|
  {
    if ls == [] then 0
    else (if Dooms(s, ls[0], key) then 1 else 0) + DoomingSteps(lib, Next(lib, s, ls[0]), ls[1..], key)
  }

  lemma {:induction false} DoomedCounted(lib: Library, s: State, ls: seq<Label>, key: Key)
    requires DoomFacts(lib, s)
    ensures |DoomedUnder(Exec(lib, s, ls), key)| == |DoomedUnder(s, key)| + DoomingSteps(lib, s, ls, key)
    ensures DoomFacts(lib, Exec(lib, s, ls))
    decreases |ls|
  {
    if ls != [] {
      DoomedExactly(lib, s, ls[0], key);
      NextKeeps(lib, s, ls[0]);
      NextKeysFresh(lib, s, ls[0]);
      DoomedCounted(lib, Next(lib, s, ls[0]), ls[1..], key);
    }
  }

  // Who wrote a row under the key: the one that completed it, one at its last
  // statement, and the doomed.
  lemma MintersPartition(s: State, key: Key)
    requires WellShaped(s) && AllOnTrack(s) && CompletionsLate(s)
    ensures |Minters(s, key)| == |Completers(s, key)| + |Finishing(s, key)| + |DoomedUnder(s, key)|
    ensures Finishing(s, key) <= Live(s, key)
  {
    forall pid | pid in Minters(s, key)
      ensures s.procs[pid].pc.Completing? || s.procs[pid].pc.Releasing? || s.procs[pid].pc.Done?
    {
      MintedLate(s.procs[pid]);
    }
    ThreeParts(s, key);
  }

  lemma ThreeParts(s: State, key: Key)
    requires CompletionsLate(s)
    requires forall pid :: pid in Minters(s, key) ==>
      s.procs[pid].pc.Completing? || s.procs[pid].pc.Releasing? || s.procs[pid].pc.Done?
    ensures |Minters(s, key)| == |Completers(s, key)| + |Finishing(s, key)| + |DoomedUnder(s, key)|
    ensures Finishing(s, key) <= Live(s, key)
  {
    var done, last, gone := Completers(s, key), Finishing(s, key), DoomedUnder(s, key);
    assert Minters(s, key) == done + last + gone;
    assert |done + last| == |done| + |last|;
    assert |done + last + gone| == |done + last| + |gone|;
  }

  lemma SubsetSize<T>(a: set<T>, b: set<T>)
    requires a <= b
    ensures |a| <= |b|
  {
    assert b == a + (b - a);
  }

  // Conservation by steps, in every run: the credential rows created under a key
  // are one if the key is completed, one if its owner is at the completing UPDATE,
  // and one for each dooming step of the run. So a run without such a step creates
  // at most one credential a key.
  lemma IssuanceCounted(lib: Library, issuers: map<string, Issuer>, ls: seq<Label>, key: Key)
    requires key.op == IssueCredential
    ensures
      var s := Exec(lib, Start(issuers), ls);
      var doomed := DoomingSteps(lib, Start(issuers), ls, key);
      && |Created(s, key)| == (if CompletedKey(s, key) then 1 else 0) + |Finishing(s, key)| + doomed
      && |Finishing(s, key)| <= (if CompletedKey(s, key) then 0 else 1)
      && (doomed == 0 ==> |Created(s, key)| <= 1)
  {
    DoomedInRun(lib, issuers, ls, key);
    CountedInState(lib, Exec(lib, Start(issuers), ls), key);
  }

  lemma DoomedInRun(lib: Library, issuers: map<string, Issuer>, ls: seq<Label>, key: Key)
    ensures
      var s := Exec(lib, Start(issuers), ls);
      && DoomFacts(lib, s) && VerificationTables.AllKeyed(s)
      && |DoomedUnder(s, key)| == DoomingSteps(lib, Start(issuers), ls, key)
  {
    DoomedCounted(lib, Start(issuers), ls, key);
    VerificationTables.ExecKeyed(lib, Start(issuers), ls);
    assert DoomedUnder(Start(issuers), key) == {};
  }

  lemma CountedInState(lib: Library, s: State, key: Key)
    requires DoomFacts(lib, s) && VerificationTables.AllKeyed(s) && key.op == IssueCredential
    ensures |Created(s, key)| == (if CompletedKey(s, key) then 1 else 0) + |Finishing(s, key)| + |DoomedUnder(s, key)|
    ensures |Finishing(s, key)| <= (if CompletedKey(s, key) then 0 else 1)
  {
    CreatedIsMinters(lib, s, key);
    CompletersCount(s, key);
    MintersPartition(s, key);
    SubsetSize(Finishing(s, key), Live(s, key));
  }
}
