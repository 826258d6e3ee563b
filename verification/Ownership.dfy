// Who owns an idempotency key. The UPDATE that completes a reservation has no
// condition on the row's state; that it only ever hits the caller's own
// reservation is an invariant of whole runs.
module Ownership {
  import opened Text
  import opened Artifact
  import opened Requests
  import opened Tables
  import opened Handlers
  import opened System

  // A request holds its key while its reservation is open, and for good once its
  // completion was stored.
  predicate Holds(p: Proc) {
    p.key.Some? && (OpenAt(p.pc) || p.completion.Some?)
  }

  // The row a holder left in the table.
  function HeldRow(p: Proc): Row {
    match p.completion
    case None => ReservedRow(p.fingerprint)
    case Some(c) => CompletedRow(Trim(p.fingerprint), c)
  }

  ghost predicate HoldersHaveRows(s: State) {
    forall pid :: pid in s.procs && Holds(s.procs[pid]) ==>
      && s.procs[pid].key.value in s.db.idempotency
      && s.db.idempotency[s.procs[pid].key.value] == HeldRow(s.procs[pid])
  }

  ghost predicate OneHolder(s: State) {
    forall i, j ::
      (i in s.procs && j in s.procs && Holds(s.procs[i]) && Holds(s.procs[j]) && s.procs[i].key == s.procs[j].key)
      ==> i == j
  }

  // A completion is stored by the last statement before the reply.
  predicate CompletedLate(p: Proc) {
    p.completion.Some? ==> p.key.Some? && (p.pc.Releasing? || p.pc.Done?)
  }

  ghost predicate CompletionsLate(s: State) {
    forall pid :: pid in s.procs ==> CompletedLate(s.procs[pid])
  }

  ghost predicate CompletedBy(s: State, key: Key, pid: nat) {
    pid in s.procs && s.procs[pid].key == Some(key) && s.procs[pid].completion.Some?
  }

  ghost predicate CompletedRowsHeld(s: State) {
    forall key :: key in s.db.idempotency && s.db.idempotency[key].state.Completed? ==>
      exists pid :: CompletedBy(s, key, pid)
  }

  ghost predicate Owned(s: State) {
    && WellShaped(s)
    && HoldersHaveRows(s)
    && OneHolder(s)
    && CompletionsLate(s)
    && CompletedRowsHeld(s)
  }

  // What one step of a process does to the rows: nothing, or one statement on
  // its own key.
  ghost predicate OwnStep(s: State, pid: nat, s': State)
    requires pid in s.procs
  {
    && pid in s'.procs
    && s'.procs == s.procs[pid := s'.procs[pid]]
    && SameRequest(s.procs[pid], s'.procs[pid])
  }

  lemma HoldersOthers(s: State, pid: nat, s': State, key: Key)
    requires Owned(s) && pid in s.procs && OwnStep(s, pid, s')
    requires s.procs[pid].key == Some(key)
    // only the row of this key may differ
    requires s'.db.idempotency - {key} == s.db.idempotency - {key}
    // nobody else holds it
    requires forall j :: j in s.procs && j != pid && Holds(s.procs[j]) ==> s.procs[j].key != Some(key)
    requires Holds(s'.procs[pid]) ==>
      key in s'.db.idempotency && s'.db.idempotency[key] == HeldRow(s'.procs[pid])
    ensures HoldersHaveRows(s') && OneHolder(s')
  {
    forall j | j in s'.procs && Holds(s'.procs[j])
      ensures s'.procs[j].key.value in s'.db.idempotency
      ensures s'.db.idempotency[s'.procs[j].key.value] == HeldRow(s'.procs[j])
    {
      if j != pid {
        var k := s.procs[j].key.value;
        assert k in s.db.idempotency - {key};
        assert (s.db.idempotency - {key})[k] == (s'.db.idempotency - {key})[k];
      }
    }
  }

  lemma CompletedOthers(s: State, pid: nat, s': State, key: Key)
    requires Owned(s) && pid in s.procs && OwnStep(s, pid, s')
    requires s.procs[pid].key == Some(key)
    requires s'.db.idempotency - {key} == s.db.idempotency - {key}
    requires s.procs[pid].completion.Some? ==> s'.procs[pid].completion.Some?
    requires key in s'.db.idempotency && s'.db.idempotency[key].state.Completed? ==>
      exists j :: CompletedBy(s', key, j)
    ensures CompletedRowsHeld(s')
  {
    forall k | k in s'.db.idempotency && s'.db.idempotency[k].state.Completed?
      ensures exists j :: CompletedBy(s', k, j)
    {
      if k != key {
        assert k in s'.db.idempotency - {key};
        assert (s.db.idempotency - {key})[k] == (s'.db.idempotency - {key})[k];
        var j :| CompletedBy(s, k, j);
        assert CompletedBy(s', k, j);
      }
    }
  }

  lemma QuietKeeps(s: State, pid: nat, s': State)
    requires Owned(s) && pid in s.procs && OwnStep(s, pid, s') && WellShaped(s')
    requires Quiet(s.db, s.procs[pid], s'.db, s'.procs[pid])
    requires CompletedLate(s'.procs[pid])
    ensures Owned(s')
  {
    forall k | k in s'.db.idempotency && s'.db.idempotency[k].state.Completed?
      ensures exists j :: CompletedBy(s', k, j)
    {
      var j :| CompletedBy(s, k, j);
      assert CompletedBy(s', k, j);
    }
  }

  // What the three statements on the idempotency table do to their own row.
  lemma InsertOwnRow(t: Tables, p: Proc, env: Env)
    requires Shaped(p) && p.pc.ReserveInsert? && p.completion.None? && p.key.value !in t.idempotency
    ensures
      var r := ReserveInsertStep(t, p, env);
      && r.0.idempotency - {p.key.value} == t.idempotency - {p.key.value}
      && (Holds(r.1) ==> p.key.value in r.0.idempotency && r.0.idempotency[p.key.value] == HeldRow(r.1))
      && (p.key.value in r.0.idempotency ==> r.0.idempotency[p.key.value].state.Reserved?)
      && CompletedLate(r.1)
  {
  }

  lemma InsertOnTaken(t: Tables, p: Proc, env: Env)
    requires Shaped(p) && p.pc.ReserveInsert? && p.completion.None? && p.key.value in t.idempotency
    ensures
      var r := ReserveInsertStep(t, p, env);
      Quiet(t, p, r.0, r.1) && CompletedLate(r.1)
  {
  }

  lemma ReleaseOwnRow(t: Tables, p: Proc, env: Env)
    requires Shaped(p) && p.pc.Releasing?
    requires p.key.value in t.idempotency && t.idempotency[p.key.value] == HeldRow(p)
    ensures
      var r := ReleasingStep(t, p, env);
      && r.0.idempotency - {p.key.value} == t.idempotency - {p.key.value}
      && (Holds(r.1) ==> p.key.value in r.0.idempotency && r.0.idempotency[p.key.value] == HeldRow(r.1))
      && (p.key.value in r.0.idempotency && r.0.idempotency[p.key.value].state.Completed? ==> p.completion.Some?)
      && r.1.completion == p.completion && CompletedLate(r.1)
  {
  }

  lemma CompleteOwnRow(t: Tables, p: Proc, env: Env)
    requires Shaped(p) && p.pc.Completing? && p.completion.None?
    requires p.key.value in t.idempotency && t.idempotency[p.key.value] == HeldRow(p)
    ensures
      var r := CompletingStep(t, p, env);
      && r.0.idempotency - {p.key.value} == t.idempotency - {p.key.value}
      && p.key.value in r.0.idempotency && r.0.idempotency[p.key.value] == HeldRow(r.1)
      && (r.0.idempotency[p.key.value].state.Completed? ==> r.1.completion.Some?)
      && CompletedLate(r.1)
  {
  }

  // One statement on a key that nobody else holds.
  lemma KeyStepKeeps(s: State, pid: nat, s': State, key: Key)
    requires Owned(s) && pid in s.procs && OwnStep(s, pid, s') && WellShaped(s')
    requires s.procs[pid].key == Some(key)
    requires s'.db.idempotency - {key} == s.db.idempotency - {key}
    requires forall j :: j in s.procs && j != pid && Holds(s.procs[j]) ==> s.procs[j].key != Some(key)
    requires CompletedLate(s'.procs[pid])
    requires Holds(s'.procs[pid]) ==>
      key in s'.db.idempotency && s'.db.idempotency[key] == HeldRow(s'.procs[pid])
    requires s.procs[pid].completion.Some? ==> s'.procs[pid].completion.Some?
    requires key in s'.db.idempotency && s'.db.idempotency[key].state.Completed? ==> s'.procs[pid].completion.Some?
    ensures Owned(s')
  {
    HoldersOthers(s, pid, s', key);
    if s'.procs[pid].completion.Some? {
      assert CompletedBy(s', key, pid);
    }
    CompletedOthers(s, pid, s', key);
  }

  lemma ReserveInsertKeeps(lib: Library, s: State, pid: nat, env: Env)
    requires Owned(s) && pid in s.procs && s.procs[pid].pc.ReserveInsert?
    ensures Owned(Next(lib, s, Run(pid, env)))
  {
    var p, s' := s.procs[pid], Next(lib, s, Run(pid, env));
    assert Step(lib, s.db, p, env) == ReserveInsertStep(s.db, p, env);
    if p.key.value in s.db.idempotency {
      InsertOnTaken(s.db, p, env);
      QuietKeeps(s, pid, s');
    } else {
      InsertOwnRow(s.db, p, env);
      KeyStepKeeps(s, pid, s', p.key.value);
    }
  }

  lemma CompletingKeeps(lib: Library, s: State, pid: nat, env: Env)
    requires Owned(s) && pid in s.procs && s.procs[pid].pc.Completing?
    ensures Owned(Next(lib, s, Run(pid, env)))
  {
    var p, s' := s.procs[pid], Next(lib, s, Run(pid, env));
    assert Step(lib, s.db, p, env) == CompletingStep(s.db, p, env);
    assert Holds(p);
    CompleteOwnRow(s.db, p, env);
    KeyStepKeeps(s, pid, s', p.key.value);
  }

  lemma ReleasingKeeps(lib: Library, s: State, pid: nat, env: Env)
    requires Owned(s) && pid in s.procs && s.procs[pid].pc.Releasing?
    ensures Owned(Next(lib, s, Run(pid, env)))
  {
    var p, s' := s.procs[pid], Next(lib, s, Run(pid, env));
    assert Step(lib, s.db, p, env) == ReleasingStep(s.db, p, env);
    assert Holds(p);
    ReleaseOwnRow(s.db, p, env);
    KeyStepKeeps(s, pid, s', p.key.value);
  }

  lemma RunKeeps(lib: Library, s: State, pid: nat, env: Env)
    requires Owned(s)
    ensures Owned(Next(lib, s, Run(pid, env)))
  {
    if pid in s.procs {
      var p := s.procs[pid];
      if p.pc.ReserveInsert? {
        ReserveInsertKeeps(lib, s, pid, env);
      } else if p.pc.Completing? {
        CompletingKeeps(lib, s, pid, env);
      } else if p.pc.Releasing? {
        ReleasingKeeps(lib, s, pid, env);
      } else {
        assert p.completion.Some? ==> p.pc.Done?;
        QuietKeeps(s, pid, Next(lib, s, Run(pid, env)));
      }
    }
  }

  // Nothing happens to the rows, and nobody gains or loses one.
  lemma SameRows(s: State, s': State)
    requires Owned(s) && WellShaped(s') && s'.db.idempotency == s.db.idempotency
    requires forall j :: j in s.procs ==> j in s'.procs && SameRequest(s.procs[j], s'.procs[j])
                                          && s'.procs[j].completion == s.procs[j].completion
    requires forall j :: j in s'.procs ==> CompletedLate(s'.procs[j])
    requires forall j :: j in s'.procs && Holds(s'.procs[j]) ==> j in s.procs && Holds(s.procs[j])
    ensures Owned(s')
  {
    forall k | k in s'.db.idempotency && s'.db.idempotency[k].state.Completed?
      ensures exists j :: CompletedBy(s', k, j)
    {
      var j :| CompletedBy(s, k, j);
      assert CompletedBy(s', k, j);
    }
  }

  lemma ArriveKeeps(lib: Library, s: State, pid: nat, request: Request)
    requires Owned(s)
    ensures Owned(Next(lib, s, Arrive(pid, request)))
  {
    BeginShaped(lib, request);
    SameRows(s, Next(lib, s, Arrive(pid, request)));
  }

  lemma CrashKeeps(lib: Library, s: State, pid: nat)
    requires Owned(s)
    ensures Owned(Next(lib, s, Crash(pid)))
  {
    if pid in s.procs {
      WithoutKeeps(s, pid);
    }
  }

  lemma WithoutKeeps(s: State, pid: nat)
    requires Owned(s) && pid in s.procs
    ensures Owned(Without(s, pid))
  {
    SameRows(s, Without(s, pid));
  }

  lemma SetIssuersKeeps(lib: Library, s: State, issuers: map<string, Issuer>)
    requires Owned(s)
    ensures Owned(Next(lib, s, SetIssuers(issuers)))
  {
    SameRows(s, Next(lib, s, SetIssuers(issuers)));
  }

  // Ownership survives every step of every request, in every interleaving, with
  // any statement failing in any way, with crashes and with registry writes.
  lemma NextKeeps(lib: Library, s: State, l: Label)
    requires Owned(s)
    ensures Owned(Next(lib, s, l))
  {
    match l
    case Arrive(pid, request) => ArriveKeeps(lib, s, pid, request);
    case Run(pid, env) => RunKeeps(lib, s, pid, env);
    case Crash(pid) => CrashKeeps(lib, s, pid);
    case SetIssuers(issuers) => SetIssuersKeeps(lib, s, issuers);
  }

  lemma {:induction false} ExecKeeps(lib: Library, s: State, ls: seq<Label>)
    requires Owned(s)
    ensures Owned(Exec(lib, s, ls))
    decreases |ls|
  {
    if ls != [] {
      NextKeeps(lib, s, ls[0]);
      ExecKeeps(lib, Next(lib, s, ls[0]), ls[1..]);
    }
  }

  lemma RunsAreOwned(lib: Library, issuers: map<string, Issuer>, ls: seq<Label>)
    ensures Owned(Exec(lib, Start(issuers), ls))
  {
    ExecKeeps(lib, Start(issuers), ls);
  }

  // In every run, at most one request has an open reservation on a key; its row
  // is there, carries its fingerprint, and is reserved unless that very request
  // completed it (and was told otherwise).
  lemma SingleOwner(lib: Library, issuers: map<string, Issuer>, ls: seq<Label>, i: nat)
    requires i in Exec(lib, Start(issuers), ls).procs
    requires Open(Exec(lib, Start(issuers), ls).procs[i])
    ensures
      var s := Exec(lib, Start(issuers), ls);
      var p := s.procs[i];
      && p.key.value in s.db.idempotency
      && s.db.idempotency[p.key.value].fingerprint == Trim(p.fingerprint)
      && (s.db.idempotency[p.key.value].state.Reserved? <==> p.completion.None?)
      && forall j :: j in s.procs && j != i && Open(s.procs[j]) ==> s.procs[j].key != p.key
  {
    RunsAreOwned(lib, issuers, ls);
  }

  lemma CompletingHasRow(s: State, pid: nat)
    requires Owned(s) && pid in s.procs && s.procs[pid].pc.Completing?
    ensures s.procs[pid].key.Some? && s.procs[pid].key.value in s.db.idempotency
  {
    assert Holds(s.procs[pid]);
  }

  lemma CompletionHits(s: State, i: nat, f: Fault)
    requires Owned(s) && i in s.procs && s.procs[i].pc.Completing?
    ensures
      var p := s.procs[i];
      && p.key.Some?
      && p.key.value in s.db.idempotency
      && s.db.idempotency[p.key.value] == ReservedRow(p.fingerprint)
      && !UpdateCompletion(s.db, p.key.value, p.pc.c, f).1.NoSuchRow?
  {
    assert Holds(s.procs[i]);
  }

  // The completing UPDATE always meets the caller's own, still reserved row: it
  // never affects zero rows and never overwrites a completed one.
  lemma CompletionHitsOwnReservation(lib: Library, issuers: map<string, Issuer>, ls: seq<Label>, i: nat, f: Fault)
    requires i in Exec(lib, Start(issuers), ls).procs
    requires Exec(lib, Start(issuers), ls).procs[i].pc.Completing?
    ensures
      var s := Exec(lib, Start(issuers), ls);
      var p := s.procs[i];
      && p.key.Some?
      && p.key.value in s.db.idempotency
      && s.db.idempotency[p.key.value] == ReservedRow(p.fingerprint)
      && !UpdateCompletion(s.db, p.key.value, p.pc.c, f).1.NoSuchRow?
  {
    RunsAreOwned(lib, issuers, ls);
    CompletionHits(Exec(lib, Start(issuers), ls), i, f);
  }
}
