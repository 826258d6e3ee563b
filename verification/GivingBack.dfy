// When one idempotency key creates two credentials: exactly when it is given back
// after a credential was inserted under it, and inserted under again.
module GivingBack {
  import opened Text
  import opened Artifact
  import opened Requests
  import opened Tables
  import opened Handlers
  import opened System
  import opened Ownership
  import opened Progress
  import opened Issuance
  import opened DoubleIssuance
  import AtomicReservation
  import FreshKeys
  import Leaks

  // A request gives its key back although its credential row is written.
  ghost predicate GivesBack(s: State, l: Label, key: Key) {
    AtomicReservation.Releases(s, l, key) && s.procs[l.pid].minted.Some?
  }

  ghost predicate GivenBackDuring(lib: Library, s: State, ls: seq<Label>, key: Key)
    requires WellShaped(s)
    decreases |ls|
  {
    ls != [] && (GivesBack(s, ls[0], key) || GivenBackDuring(lib, Next(lib, s, ls[0]), ls[1..], key))
  }

  // A credential INSERT under this key takes effect.
  ghost predicate Inserts(s: State, l: Label, key: Key) {
    && l.Run? && l.pid in s.procs && s.procs[l.pid].key == Some(key)
    && s.procs[l.pid].pc.CreateCredential? && !l.env.fault.Refused?
  }

  ghost predicate MinterHolds(s: State, key: Key, pid: nat) {
    pid in Minters(s, key) && Holds(s.procs[pid])
  }

  // As long as no key is given back: nobody has minted under it, or it is stranded,
  // or one who has minted still holds it.
  ghost predicate Kept(s: State, key: Key) {
    Minters(s, key) == {} || Leaks.Orphan(s, key) || exists pid :: MinterHolds(s, key, pid)
  }

  lemma CreateMints(t: Tables, p: Proc, c: Credential, env: Env)
    requires Shaped(p) && p.pc.CreateCredential? && p.minted.None? && Trim(c.credentialId) !in t.credentials
    ensures
      var q := CreateStep(t, p, c, env).1;
      && (q.minted.Some? <==> !env.fault.Refused?)
      && (p.key.Some? ==> OpenAt(q.pc))
  {
  }

  lemma StepMints(lib: Library, t: Tables, p: Proc, env: Env)
    requires Ready(t, p)
    ensures
      var q := Step(lib, t, p, env).1;
      && (q.minted.Some? <==> p.minted.Some? || (p.pc.CreateCredential? && !env.fault.Refused?))
      && (p.pc.CreateCredential? && p.key.Some? ==> OpenAt(q.pc))
  {
    if p.pc.CreateCredential? {
      var c := NewCredential(lib, p.request, p.id);
      CreateMints(t, p, c, env);
      assert Step(lib, t, p, env) == CreateStep(t, p, c, env);
    } else {
      FieldsFrame(lib, t, p, env);
    }
  }

  // Exactly the inserts add a minter, and that one holds the key.
  lemma MintersExactly(lib: Library, s: State, l: Label, key: Key)
    requires DoomFacts(lib, s)
    ensures Minters(Next(lib, s, l), key) == Minters(s, key) + if Inserts(s, l, key) then {l.pid} else {}
    ensures Inserts(s, l, key) ==> l.pid !in Minters(s, key) && MinterHolds(Next(lib, s, l), key, l.pid)
  {
    match l
    case Arrive(pid, request) => ArriveMints(lib, s, pid, request, key);
    case Run(pid, env) =>
      if pid in s.procs {
        AlwaysReady(lib, s, pid);
        RunMints(lib, s, pid, env, key);
      }
    case Crash(pid) =>
      if pid in s.procs {
        OneMinted(s, pid, Without(s, pid), key, false);
      }
    case SetIssuers(_) =>
  }

  lemma ArriveMints(lib: Library, s: State, pid: nat, request: Request, key: Key)
    requires WellShaped(s)
    ensures Minters(Next(lib, s, Arrive(pid, request)), key) == Minters(s, key)
  {
    BeginMintless(lib, request);
  }

  lemma BeginMintless(lib: Library, request: Request)
    ensures Begin(lib, request).minted.None?
  {
  }

  lemma RunMints(lib: Library, s: State, pid: nat, env: Env, key: Key)
    requires WellShaped(s) && pid in s.procs && Ready(s.db, s.procs[pid])
    ensures
      var l := Run(pid, env);
      var s' := Next(lib, s, l);
      && Minters(s', key) == Minters(s, key) + (if Inserts(s, l, key) then {pid} else {})
      && (Inserts(s, l, key) ==> pid !in Minters(s, key) && MinterHolds(s', key, pid))
  {
    StepMints(lib, s.db, s.procs[pid], env);
    UnmintedBefore(s.procs[pid]);
    OneMinted(s, pid, Next(lib, s, Run(pid, env)), key, Inserts(s, Run(pid, env), key));
  }

  lemma UnmintedBefore(p: Proc)
    requires OnTrack(p)
    ensures p.pc.CreateCredential? ==> p.minted.None?
  {
  }

  lemma OneMinted(s: State, pid: nat, s': State, key: Key, mints: bool)
    requires pid in s.procs && pid in s'.procs && s'.procs == s.procs[pid := s'.procs[pid]]
    requires SameRequest(s.procs[pid], s'.procs[pid])
    requires mints ==> s.procs[pid].key == Some(key)
    requires s.procs[pid].key == Some(key) ==> (s'.procs[pid].minted.Some? <==> s.procs[pid].minted.Some? || mints)
    ensures Minters(s', key) == Minters(s, key) + if mints then {pid} else {}
  {
  }

  // A step of a request that has minted and holds its key: it still holds it, or it
  // was about to release it uncompleted.
  lemma HolderStep(lib: Library, t: Tables, p: Proc, env: Env)
    requires Ready(t, p) && Holds(p) && p.minted.Some?
    ensures Holds(Step(lib, t, p, env).1) || (p.pc.Releasing? && p.completion.None?)
  {
    MintedLate(p);
    match p.pc
    case Completing(_) => assert Step(lib, t, p, env) == CompletingStep(t, p, env);
    case Releasing(_) => assert Step(lib, t, p, env) == ReleasingStep(t, p, env);
    case Done(_) => assert Step(lib, t, p, env) == (t, p);
  }

  // What its holder does to a minted key: keep it, strand it, or give it back.
  lemma HolderExactly(lib: Library, s: State, l: Label, key: Key, pid: nat)
    requires DoomFacts(lib, s) && MinterHolds(s, key, pid) && !GivesBack(s, l, key)
    ensures MinterHolds(Next(lib, s, l), key, pid) || Leaks.Orphan(Next(lib, s, l), key)
  {
    MintersExactly(lib, s, l, key);
    AlwaysReady(lib, s, pid);
    if Leaks.Strands(s, l, key) {
      Leaks.OrphanExactly(lib, s, l, key);
    } else if l.Run? && l.pid == pid {
      HolderStep(lib, s.db, s.procs[pid], l.env);
    } else {
      OtherHolds(lib, s, l, pid);
    }
  }

  lemma OtherHolds(lib: Library, s: State, l: Label, pid: nat)
    requires WellShaped(s) && pid in s.procs && Holds(s.procs[pid]) && !(l.Run? && l.pid == pid)
    requires l.Crash? && l.pid == pid ==> s.procs[pid].completion.Some?
    ensures pid in Next(lib, s, l).procs && Holds(Next(lib, s, l).procs[pid])
  {
  }

  lemma KeptByLabel(lib: Library, s: State, l: Label, key: Key)
    requires DoomFacts(lib, s) && Kept(s, key) && !GivesBack(s, l, key)
    ensures Kept(Next(lib, s, l), key)
  {
    MintersExactly(lib, s, l, key);
    if Leaks.Orphan(s, key) {
      Leaks.OrphanExactly(lib, s, l, key);
    } else if Minters(s, key) != {} {
      var pid :| MinterHolds(s, key, pid);
      HolderExactly(lib, s, l, key, pid);
    }
  }

  lemma {:induction false} KeptByRun(lib: Library, s: State, ls: seq<Label>, key: Key)
    requires DoomFacts(lib, s) && Kept(s, key) && !GivenBackDuring(lib, s, ls, key)
    ensures Kept(Exec(lib, s, ls), key)
    decreases |ls|
  {
    if ls != [] {
      KeptByLabel(lib, s, ls[0], key);
      NextFacts(lib, s, ls[0]);
      KeptByRun(lib, Next(lib, s, ls[0]), ls[1..], key);
    }
  }

  lemma NextFacts(lib: Library, s: State, l: Label)
    requires DoomFacts(lib, s)
    ensures DoomFacts(lib, Next(lib, s, l))
  {
    NextKeeps(lib, s, l);
    FreshKeys.NextKeysFresh(lib, s, l);
  }

  // While a key is kept, nobody mints under it twice.
  lemma KeptMintsFirst(s: State, key: Key, pid: nat)
    requires Owned(s) && AllOnTrack(s) && Kept(s, key)
    requires pid in s.procs && s.procs[pid].key == Some(key) && s.procs[pid].pc.CreateCredential?
    ensures Minters(s, key) == {}
  {
    var p := s.procs[pid];
    UnmintedBefore(p);
    assert Leaks.HeldBy(s, key, pid);
    assert pid !in Minters(s, key);
    forall j ensures !MinterHolds(s, key, j) {
    }
  }

  lemma {:induction false} MintersStay(lib: Library, s: State, ls: seq<Label>, key: Key)
    requires DoomFacts(lib, s)
    ensures Minters(s, key) <= Minters(Exec(lib, s, ls), key)
    decreases |ls|
  {
    if ls != [] {
      MintersExactly(lib, s, ls[0], key);
      NextFacts(lib, s, ls[0]);
      MintersStay(lib, Next(lib, s, ls[0]), ls[1..], key);
    }
  }

  lemma GiverMinted(s: State, l: Label, key: Key)
    requires GivesBack(s, l, key)
    ensures Minters(s, key) != {}
  {
    assert l.pid in Minters(s, key);
  }

  lemma {:induction false} GivenBackWasMinted(lib: Library, s: State, ls: seq<Label>, key: Key)
    requires DoomFacts(lib, s) && GivenBackDuring(lib, s, ls, key)
    ensures Minters(Exec(lib, s, ls), key) != {}
    decreases |ls|
  {
    if GivesBack(s, ls[0], key) {
      GiverMinted(s, ls[0], key);
      MintersStay(lib, s, ls, key);
    } else {
      NextFacts(lib, s, ls[0]);
      GivenBackWasMinted(lib, Next(lib, s, ls[0]), ls[1..], key);
    }
  }

  // In every run, a request about to insert its credential finds one already created
  // under its key exactly when some step of the run gave the key back. A crash never
  // does, nor a refused completion whose release is refused as well.
  lemma CreatedBeforeExactly(lib: Library, issuers: map<string, Issuer>, ls: seq<Label>, key: Key, pid: nat)
    requires
      var procs := Exec(lib, Start(issuers), ls).procs;
      pid in procs && procs[pid].key == Some(key) && procs[pid].pc.CreateCredential?
    ensures |Created(Exec(lib, Start(issuers), ls), key)| > 0 <==> GivenBackDuring(lib, Start(issuers), ls, key)
  {
    var s := Exec(lib, Start(issuers), ls);
    RunsHaveFacts(lib, issuers, ls);
    CreatedSize(lib, s, key);
    if GivenBackDuring(lib, Start(issuers), ls, key) {
      FreshFacts(lib, issuers, key);
      GivenBackWasMinted(lib, Start(issuers), ls, key);
    } else {
      FreshFacts(lib, issuers, key);
      KeptByRun(lib, Start(issuers), ls, key);
      KeptMintsFirst(s, key, pid);
    }
  }

  lemma RunsHaveFacts(lib: Library, issuers: map<string, Issuer>, ls: seq<Label>)
    ensures DoomFacts(lib, Exec(lib, Start(issuers), ls))
  {
    RunsAreOwned(lib, issuers, ls);
    FreshKeys.ExecKeysFresh(lib, Start(issuers), ls);
  }

  lemma FreshFacts(lib: Library, issuers: map<string, Issuer>, key: Key)
    ensures OneInsert(lib, Start(issuers), key, false)
  {
    RunsHaveFacts(lib, issuers, []);
    assert Minters(Start(issuers), key) == {};
  }

  lemma CreatedSize(lib: Library, s: State, key: Key)
    requires DoomFacts(lib, s)
    ensures |Created(s, key)| == |Minters(s, key)|
    ensures |Created(s, key)| > 0 <==> Minters(s, key) != {}
  {
    CreatedIsMinters(lib, s, key);
  }

  // Some step of the run inserts under the key after it was given back, in the run or
  // before it.
  ghost predicate InsertsAgain(lib: Library, s: State, ls: seq<Label>, key: Key, given: bool)
    requires WellShaped(s)
    decreases |ls|
  {
    ls != [] &&
    (|| (given && Inserts(s, ls[0], key))
     || InsertsAgain(lib, Next(lib, s, ls[0]), ls[1..], key, given || GivesBack(s, ls[0], key)))
  }

  // What is known of a key before its second insert.
  ghost predicate OneInsert(lib: Library, s: State, key: Key, given: bool) {
    && DoomFacts(lib, s)
    && |Minters(s, key)| <= 1
    && if given then Minters(s, key) != {} else Kept(s, key)
  }

  lemma AddOne<T>(s: set<T>, x: T)
    requires x !in s
    ensures |s + {x}| == |s| + 1
  {
  }

  lemma Smaller<T>(a: set<T>, b: set<T>)
    requires a <= b
    ensures |a| <= |b|
  {
    assert b == a + (b - a);
  }

  lemma FirstInsert(lib: Library, s: State, l: Label, key: Key)
    requires OneInsert(lib, s, key, false) && Inserts(s, l, key)
    ensures OneInsert(lib, Next(lib, s, l), key, false)
  {
    MintersExactly(lib, s, l, key);
    NextFacts(lib, s, l);
    KeptMintsFirst(s, key, l.pid);
  }

  lemma SecondInsert(lib: Library, s: State, l: Label, key: Key)
    requires OneInsert(lib, s, key, true) && Inserts(s, l, key)
    ensures |Minters(Next(lib, s, l), key)| == 2
  {
    MintersExactly(lib, s, l, key);
    AddOne(Minters(s, key), l.pid);
  }

  lemma NoInsert(lib: Library, s: State, l: Label, key: Key, given: bool)
    requires OneInsert(lib, s, key, given) && !Inserts(s, l, key)
    ensures OneInsert(lib, Next(lib, s, l), key, given || GivesBack(s, l, key))
  {
    MintersExactly(lib, s, l, key);
    NextFacts(lib, s, l);
    if GivesBack(s, l, key) {
      GiverMinted(s, l, key);
    } else if !given {
      KeptByLabel(lib, s, l, key);
    }
  }

  // The next label of a run with at most one insert so far.
  lemma OneInsertByLabel(lib: Library, s: State, l: Label, key: Key, given: bool)
    requires OneInsert(lib, s, key, given)
    ensures
      var s' := Next(lib, s, l);
      if given && Inserts(s, l, key) then |Minters(s', key)| == 2
      else OneInsert(lib, s', key, given || GivesBack(s, l, key))
  {
    if !Inserts(s, l, key) {
      NoInsert(lib, s, l, key, given);
    } else if given {
      SecondInsert(lib, s, l, key);
    } else {
      FirstInsert(lib, s, l, key);
    }
  }

  lemma {:induction false} TwoInsertsExactly(lib: Library, s: State, ls: seq<Label>, key: Key, given: bool)
    requires OneInsert(lib, s, key, given)
    ensures |Minters(Exec(lib, s, ls), key)| >= 2 <==> InsertsAgain(lib, s, ls, key, given)
    decreases |ls|
  {
    if ls != [] {
      var s' := Next(lib, s, ls[0]);
      OneInsertByLabel(lib, s, ls[0], key, given);
      if given && Inserts(s, ls[0], key) {
        NextFacts(lib, s, ls[0]);
        MintersStay(lib, s', ls[1..], key);
        Smaller(Minters(s', key), Minters(Exec(lib, s, ls), key));
      } else {
        TwoInsertsExactly(lib, s', ls[1..], key, given || GivesBack(s, ls[0], key));
      }
    }
  }

  lemma {:induction false} AgainNeedsGiveBack(lib: Library, s: State, ls: seq<Label>, key: Key)
    requires WellShaped(s) && InsertsAgain(lib, s, ls, key, false)
    ensures GivenBackDuring(lib, s, ls, key)
    decreases |ls|
  {
    if !GivesBack(s, ls[0], key) {
      AgainNeedsGiveBack(lib, Next(lib, s, ls[0]), ls[1..], key);
    }
  }

  // When a key creates two credentials: exactly when a step of the run inserts under
  // it after an earlier step gave it back with a credential inserted. So without a
  // give-back it creates at most one, crashes or not.
  lemma TwoCreatedExactly(lib: Library, issuers: map<string, Issuer>, ls: seq<Label>, key: Key)
    ensures |Created(Exec(lib, Start(issuers), ls), key)| >= 2 <==> InsertsAgain(lib, Start(issuers), ls, key, false)
    ensures !GivenBackDuring(lib, Start(issuers), ls, key) ==> |Created(Exec(lib, Start(issuers), ls), key)| <= 1
  {
    RunsHaveFacts(lib, issuers, ls);
    FreshFacts(lib, issuers, key);
    CreatedSize(lib, Exec(lib, Start(issuers), ls), key);
    TwoInsertsExactly(lib, Start(issuers), ls, key, false);
    if InsertsAgain(lib, Start(issuers), ls, key, false) {
      AgainNeedsGiveBack(lib, Start(issuers), ls, key);
    }
  }
}
