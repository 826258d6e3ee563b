// The two-statement reservation seen as one atomic test-and-set, and exactly when
// it is one.
module AtomicReservation {
  import opened Text
  import opened Artifact
  import opened Requests
  import opened Tables
  import opened Handlers
  import opened System
  import opened Ownership

  // The specification: take the key if it is free, otherwise answer from its row.
  function AtomicReserve(t: Tables, key: Key, fingerprint: string): (Tables, Option<Reply>) {
    if key in t.idempotency then (t, Some(AnswerFrom(t.idempotency[key], fingerprint)))
    else (t.(idempotency := t.idempotency[key := ReservedRow(fingerprint)]), None)
  }

  // The step deletes the reservation of this key.
  ghost predicate Releases(s: State, l: Label, key: Key) {
    && l.Run? && l.pid in s.procs
    && s.procs[l.pid].pc.Releasing?
    && s.procs[l.pid].key == Some(key)
    && s.procs[l.pid].completion.None?
    && !l.env.fault.Refused?
  }

  ghost predicate ReleasedDuring(lib: Library, s: State, ls: seq<Label>, key: Key)
    requires WellShaped(s)
    decreases |ls|
  {
    ls != [] && (Releases(s, ls[0], key) || ReleasedDuring(lib, Next(lib, s, ls[0]), ls[1..], key))
  }

  lemma RowsDisappearByRelease(lib: Library, t: Tables, p: Proc, env: Env, key: Key)
    requires Shaped(p)
    requires key in t.idempotency && key !in Step(lib, t, p, env).0.idempotency
    ensures p.pc.Releasing? && p.key == Some(key) && !env.fault.Refused? && t.idempotency[key].state.Reserved?
  {
    if p.pc.ReserveInsert? {
    } else if p.pc.Completing? {
    } else if p.pc.Releasing? {
    } else {
    }
  }

  lemma {:induction false} GoneMeansReleased(lib: Library, s: State, ls: seq<Label>, key: Key)
    requires Owned(s)
    requires key in s.db.idempotency && key !in Exec(lib, s, ls).db.idempotency
    ensures ReleasedDuring(lib, s, ls, key)
    decreases |ls|
  {
    var s' := Next(lib, s, ls[0]);
    if key in s'.db.idempotency {
      NextKeeps(lib, s, ls[0]);
      GoneMeansReleased(lib, s', ls[1..], key);
    } else {
      var l := ls[0];
      assert l.Run? && l.pid in s.procs;
      RowsDisappearByRelease(lib, s.db, s.procs[l.pid], l.env, key);
      assert Holds(s.procs[l.pid]);
    }
  }

  // A reservation that wins at once is the atomic one at that instant.
  lemma WinningReserve(lib: Library, s: State, pid: nat, env: Env)
    requires Owned(s) && pid in s.procs && s.procs[pid].pc.ReserveInsert?
    requires Open(Next(lib, s, Run(pid, env)).procs[pid])
    ensures
      var p := s.procs[pid];
      && AtomicReserve(s.db, p.key.value, p.fingerprint).1 == None
      && Next(lib, s, Run(pid, env)).db == AtomicReserve(s.db, p.key.value, p.fingerprint).0
  {
  }

  // What a reservation call tells the handler: none when the key is won.
  function OutcomeOf(p: Proc): Option<Reply> {
    if p.pc.Done? then Some(p.pc.reply) else None
  }

  const FAILED: Option<Reply> := Some(Failed(PersistenceError))

  // What the INSERT does, and where it leaves the request.
  lemma InsertExactly(lib: Library, s: State, pid: nat, env: Env)
    requires Owned(s) && pid in s.procs && s.procs[pid].pc.ReserveInsert?
    ensures
      var p, s' := s.procs[pid], Next(lib, s, Run(pid, env));
      var free := p.key.value !in s.db.idempotency;
      && s'.db == (if free && !env.fault.Refused? then AtomicReserve(s.db, p.key.value, p.fingerprint).0 else s.db)
      && s'.procs[pid].pc == (if Errs(env.fault) then Done(Failed(PersistenceError))
                              else if free && env.fault.Fine? then FirstWork(p.request)
                              else ReserveSelect)
      && (free && !env.fault.Refused? ==> s'.db != s.db)
  {
    var p := s.procs[pid];
    assert Step(lib, s.db, p, env) == ReserveInsertStep(s.db, p, env);
  }

  // A reservation that goes on to its SELECT wrote nothing before it, exactly when
  // the key was taken already.
  lemma WritesNothingExactly(lib: Library, s: State, pid: nat, env: Env)
    requires Owned(s) && pid in s.procs && s.procs[pid].pc.ReserveInsert?
    requires Next(lib, s, Run(pid, env)).procs[pid].pc.ReserveSelect?
    ensures Next(lib, s, Run(pid, env)).db == s.db <==> s.procs[pid].key.value in s.db.idempotency
  {
    InsertExactly(lib, s, pid, env);
  }

  // Where a call ends: after its INSERT, or after its SELECT with anything in
  // between.
  ghost function EndOfCall(lib: Library, s1: State, pid: nat, ms: seq<Label>, e2: Env): (s3: State)
    requires WellShaped(s1) && pid in s1.procs
    ensures WellShaped(s3)
  {
    if s1.procs[pid].pc.ReserveSelect? then Next(lib, Exec(lib, s1, ms), Run(pid, e2)) else s1
  }

  // The call, state and outcome, is one atomic test-and-set at the instant of its
  // INSERT or at the instant of its SELECT, or it fails and has written nothing.
  ghost predicate Linearises(key: Key, fingerprint: string, t: Tables, t1: Tables, t2: Tables, outcome: Option<Reply>) {
    || (t1, outcome) == AtomicReserve(t, key, fingerprint)
    || (t1 == t && (t2, outcome) == AtomicReserve(t2, key, fingerprint))
    || (t1 == t && outcome == FAILED)
  }

  // Where the request still waits for its SELECT before it.
  ghost predicate StillWaiting(lib: Library, s1: State, pid: nat, ms: seq<Label>)
    requires WellShaped(s1) && pid in s1.procs
  {
    s1.procs[pid].pc.ReserveSelect? ==>
      pid in Exec(lib, s1, ms).procs && Exec(lib, s1, ms).procs[pid].pc.ReserveSelect?
  }

  lemma CallAtSelect(lib: Library, s1: State, pid: nat, ms: seq<Label>, e2: Env)
    requires WellShaped(s1) && pid in s1.procs && s1.procs[pid].pc.ReserveSelect? && StillWaiting(lib, s1, pid, ms)
    ensures
      var key, fingerprint := s1.procs[pid].key.value, s1.procs[pid].fingerprint;
      var t2 := Exec(lib, s1, ms).db;
      var s3 := EndOfCall(lib, s1, pid, ms, e2);
      && s3.db == t2 && pid in s3.procs
      && (OutcomeOf(s3.procs[pid]) == FAILED || (t2, OutcomeOf(s3.procs[pid])) == AtomicReserve(t2, key, fingerprint))
      && OutcomeOf(s3.procs[pid]).Some?
  {
    IdentityKept(lib, s1, ms, pid);
    var s2 := Exec(lib, s1, ms);
    SelectAnswer(lib, s2, pid, e2);
  }

  lemma SelectAnswer(lib: Library, s: State, pid: nat, env: Env)
    requires WellShaped(s) && pid in s.procs && s.procs[pid].pc.ReserveSelect?
    ensures
      var p := s.procs[pid];
      var s' := Next(lib, s, Run(pid, env));
      && s'.db == s.db && pid in s'.procs
      && s'.procs[pid].pc == Done(
           if !Errs(env.fault) && p.key.value in s.db.idempotency then AnswerFrom(s.db.idempotency[p.key.value], p.fingerprint)
           else Failed(PersistenceError))
  {
    assert Step(lib, s.db, s.procs[pid], env) == ReserveSelectStep(s.db, s.procs[pid], env);
  }

  // When the two-statement call is one atomic test-and-set, or a failure that
  // writes nothing, whatever runs in between and however its statements go: exactly
  // unless its INSERT takes a free key without being acknowledged.
  lemma LinearisesExactly(lib: Library, s: State, pid: nat, e1: Env, ms: seq<Label>, e2: Env)
    requires Owned(s) && pid in s.procs && s.procs[pid].pc.ReserveInsert?
    requires StillWaiting(lib, Next(lib, s, Run(pid, e1)), pid, ms)
    ensures
      var p := s.procs[pid];
      var s1 := Next(lib, s, Run(pid, e1));
      var t2 := if s1.procs[pid].pc.ReserveSelect? then Exec(lib, s1, ms).db else s1.db;
      var s3 := EndOfCall(lib, s1, pid, ms, e2);
      pid in s3.procs
      && (Linearises(p.key.value, p.fingerprint, s.db, s1.db, t2, OutcomeOf(s3.procs[pid]))
          <==> p.key.value in s.db.idempotency || e1.fault.Fine? || e1.fault.Refused?)
  {
    var s1 := Next(lib, s, Run(pid, e1));
    InsertExactly(lib, s, pid, e1);
    if s1.procs[pid].pc.ReserveSelect? {
      CallAtSelect(lib, s1, pid, ms, e2);
    }
  }

  // The input on which it is not: the INSERT takes the free key, the driver cannot
  // count the row, and the call's own SELECT finds it. The key is taken and the
  // client is told that another request holds it.
  lemma UncountedInsert(lib: Library, s: State, pid: nat, e1: Env, e2: Env)
    requires Owned(s) && pid in s.procs && s.procs[pid].pc.ReserveInsert?
    requires s.procs[pid].key.value !in s.db.idempotency && e1.fault.Uncounted? && e2.fault.Fine?
    ensures
      var p := s.procs[pid];
      var s1 := Next(lib, s, Run(pid, e1));
      var s3 := Next(lib, s1, Run(pid, e2));
      && s3.db == AtomicReserve(s.db, p.key.value, p.fingerprint).0
      && pid in s3.procs && s3.procs[pid].pc == Done(Failed(IdempotencyInProgress))
  {
    InsertExactly(lib, s, pid, e1);
    SelectAnswer(lib, Next(lib, s, Run(pid, e1)), pid, e2);
    TrimIdempotent(s.procs[pid].fingerprint);
  }

  // A reservation that goes on to its SELECT is answered from the row there, with
  // anything happening in between; if the row is gone, its owner released it, and
  // the request fails without changing anything more.
  lemma LosingReserve(lib: Library, s: State, pid: nat, e1: Env, ms: seq<Label>, e2: Env)
    requires Owned(s) && pid in s.procs && s.procs[pid].pc.ReserveInsert?
    requires Next(lib, s, Run(pid, e1)).procs[pid].pc.ReserveSelect?
    requires
      var s2 := Exec(lib, Next(lib, s, Run(pid, e1)), ms);
      pid in s2.procs && s2.procs[pid].pc.ReserveSelect?
    requires !Errs(e2.fault)
    ensures
      var key, fingerprint := s.procs[pid].key.value, s.procs[pid].fingerprint;
      var s1 := Next(lib, s, Run(pid, e1));
      var s2 := Exec(lib, s1, ms);
      var s3 := Next(lib, s2, Run(pid, e2));
      && s3.db == s2.db
      && (key in s2.db.idempotency ==>
            && AtomicReserve(s2.db, key, fingerprint).0 == s2.db
            && AtomicReserve(s2.db, key, fingerprint).1.Some?
            && s3.procs[pid].pc == Done(AtomicReserve(s2.db, key, fingerprint).1.value))
      && (key !in s2.db.idempotency ==>
            && s3.procs[pid].pc == Done(Failed(PersistenceError))
            && ReleasedDuring(lib, s1, ms, key))
  {
    var key := s.procs[pid].key.value;
    var s1 := Next(lib, s, Run(pid, e1));
    var s2 := Exec(lib, s1, ms);
    NextKeeps(lib, s, Run(pid, e1));
    assert key in s1.db.idempotency;
    IdentityKept(lib, s1, ms, pid);
    if key !in s2.db.idempotency {
      GoneMeansReleased(lib, s1, ms, key);
    }
    SelectAnswer(lib, s2, pid, e2);
  }
}
