// Reservations that nobody owns any more. Nothing in the services times them out,
// so it matters exactly which steps can leave one behind.
module Leaks {
  import opened Text
  import opened Artifact
  import opened Requests
  import opened Tables
  import opened Handlers
  import opened System
  import opened Ownership
  import Replay

  ghost predicate HeldBy(s: State, key: Key, pid: nat) {
    pid in s.procs && Holds(s.procs[pid]) && s.procs[pid].key == Some(key)
  }

  ghost predicate Orphan(s: State, key: Key) {
    && key in s.db.idempotency
    && s.db.idempotency[key].state.Reserved?
    && forall pid :: !HeldBy(s, key, pid)
  }

  // The three ways to strand a reservation: its INSERT takes effect but is not
  // acknowledged, its DELETE is refused, or its owner crashes.
  ghost predicate Strands(s: State, l: Label, key: Key) {
    match l
    case Run(pid, env) =>
      && pid in s.procs && s.procs[pid].key == Some(key)
      && (|| (s.procs[pid].pc.ReserveInsert? && key !in s.db.idempotency
              && (env.fault.Lost? || env.fault.Uncounted?))
          || (s.procs[pid].pc.Releasing? && s.procs[pid].completion.None? && env.fault.Refused?))
    case Crash(pid) =>
      pid in s.procs && s.procs[pid].key == Some(key) && Open(s.procs[pid]) && s.procs[pid].completion.None?
    case _ => false
  }

  // What a step does to the reservation of a key it does not hold.
  lemma StepWithoutHolding(lib: Library, t: Tables, p: Proc, env: Env, key: Key)
    requires Shaped(p) && !(Holds(p) && p.key == Some(key))
    requires key in t.idempotency
    ensures key in Step(lib, t, p, env).0.idempotency
    ensures Step(lib, t, p, env).0.idempotency[key] == t.idempotency[key]
    ensures !(Holds(Step(lib, t, p, env).1) && p.key == Some(key))
  {
    if p.pc.ReserveInsert? {
      InsertWithoutHolding(t, p, env, key);
      assert Step(lib, t, p, env) == ReserveInsertStep(t, p, env);
    } else if p.pc.Completing? {
      assert Step(lib, t, p, env) == CompletingStep(t, p, env);
    } else if p.pc.Releasing? {
      assert Step(lib, t, p, env) == ReleasingStep(t, p, env);
    }
  }

  lemma InsertWithoutHolding(t: Tables, p: Proc, env: Env, key: Key)
    requires Shaped(p) && p.pc.ReserveInsert? && !(Holds(p) && p.key == Some(key))
    requires key in t.idempotency
    ensures
      var r := ReserveInsertStep(t, p, env);
      && key in r.0.idempotency && r.0.idempotency[key] == t.idempotency[key]
      && !(Holds(r.1) && p.key == Some(key))
  {
  }

  lemma OrphanStays(lib: Library, s: State, l: Label, key: Key)
    requires Owned(s) && Orphan(s, key)
    ensures Orphan(Next(lib, s, l), key)
    ensures Next(lib, s, l).db.idempotency[key] == s.db.idempotency[key]
  {
    var s' := Next(lib, s, l);
    if l.Run? && l.pid in s.procs {
      assert !HeldBy(s, key, l.pid);
      StepWithoutHolding(lib, s.db, s.procs[l.pid], l.env, key);
    }
    if l.Arrive? {
      BeginShaped(lib, l.request);
    }
    forall pid ensures !HeldBy(s', key, pid) {
      assert !HeldBy(s, key, pid);
    }
  }

  // The row is left reserved, and the request that left it no longer holds it.
  lemma StrandingInsert(t: Tables, p: Proc, env: Env)
    requires Shaped(p) && p.pc.ReserveInsert? && p.completion.None? && p.key.value !in t.idempotency
    requires env.fault.Lost? || env.fault.Uncounted?
    ensures
      var r := ReserveInsertStep(t, p, env);
      p.key.value in r.0.idempotency && r.0.idempotency[p.key.value].state.Reserved? && !Holds(r.1)
  {
  }

  lemma StrandingRelease(t: Tables, p: Proc, env: Env)
    requires Shaped(p) && p.pc.Releasing? && p.completion.None? && env.fault.Refused?
    ensures ReleasingStep(t, p, env).0 == t && !Holds(ReleasingStep(t, p, env).1)
  {
  }

  lemma NobodyElse(s: State, pid: nat, s': State, key: Key)
    requires pid in s.procs && s.procs[pid].key == Some(key)
    requires pid in s'.procs && s'.procs == s.procs[pid := s'.procs[pid]] && !Holds(s'.procs[pid])
    requires forall j :: j != pid ==> !HeldBy(s, key, j)
    ensures forall j :: !HeldBy(s', key, j)
  {
    forall j ensures !HeldBy(s', key, j) {
      assert j != pid ==> !HeldBy(s, key, j);
    }
  }

  lemma OnlyHolder(s: State, pid: nat, key: Key)
    requires Owned(s) && pid in s.procs && s.procs[pid].key == Some(key)
    requires key !in s.db.idempotency || Holds(s.procs[pid])
    ensures forall j :: j != pid ==> !HeldBy(s, key, j)
  {
  }

  lemma StrandedIsOrphan(lib: Library, s: State, l: Label, key: Key)
    requires Owned(s) && Strands(s, l, key)
    ensures Orphan(Next(lib, s, l), key)
  {
    var p := s.procs[l.pid];
    if p.pc.ReserveInsert? {
      StrandingInsert(s.db, p, l.env);
      assert Step(lib, s.db, p, l.env) == ReserveInsertStep(s.db, p, l.env);
    } else {
      assert Holds(p);
      if l.Run? {
        StrandingRelease(s.db, p, l.env);
        assert Step(lib, s.db, p, l.env) == ReleasingStep(s.db, p, l.env);
      }
    }
    OnlyHolder(s, l.pid, key);
    NobodyElse(s, l.pid, Next(lib, s, l), key);
  }

  // A step of the owner: it keeps the reservation, gives it back, completes it, or
  // fails to give it back.
  lemma OwnerStep(lib: Library, t: Tables, p: Proc, env: Env)
    requires Shaped(p) && Open(p) && p.completion.None?
    requires p.key.value in t.idempotency && t.idempotency[p.key.value].state.Reserved?
    requires !(p.pc.Releasing? && env.fault.Refused?)
    ensures
      var r := Step(lib, t, p, env);
      Holds(r.1) || p.key.value !in r.0.idempotency
  {
    if p.pc.Completing? {
    } else if p.pc.Releasing? {
    } else {
    }
  }

  lemma FreshRow(lib: Library, t: Tables, p: Proc, env: Env, key: Key)
    requires Shaped(p) && key !in t.idempotency && key in Step(lib, t, p, env).0.idempotency
    ensures p.pc.ReserveInsert? && p.key == Some(key) && !env.fault.Refused?
    ensures env.fault.Fine? ==> Open(Step(lib, t, p, env).1)
  {
    if p.pc.ReserveInsert? {
    } else if p.pc.Completing? {
    } else if p.pc.Releasing? {
    } else {
    }
  }

  lemma OrphanComesFrom(lib: Library, s: State, l: Label, key: Key)
    requires Owned(s) && Orphan(Next(lib, s, l), key)
    ensures Orphan(s, key) || Strands(s, l, key)
  {
    var s' := Next(lib, s, l);
    if key !in s.db.idempotency {
      FreshRow(lib, s.db, s.procs[l.pid], l.env, key);
      if l.env.fault.Fine? {
        assert HeldBy(s', key, l.pid);
      }
    } else if s.db.idempotency[key].state.Completed? {
      Replay.CompletedRowFixedByStep(lib, s, l, key);
    } else if !Orphan(s, key) {
      var pid :| HeldBy(s, key, pid);
      assert !HeldBy(s', key, pid);
      if l.Run? && l.pid == pid {
        if !(s.procs[pid].pc.Releasing? && l.env.fault.Refused?) {
          OwnerStep(lib, s.db, s.procs[pid], l.env);
        }
      } else {
        assert l.Crash? && l.pid == pid;
      }
    }
  }

  // Exactly when a key is orphaned after a step: it already was, or this step
  // stranded it. Orphans never recover.
  lemma OrphanExactly(lib: Library, s: State, l: Label, key: Key)
    requires Owned(s)
    ensures Orphan(Next(lib, s, l), key) <==> Orphan(s, key) || Strands(s, l, key)
  {
    if Orphan(s, key) {
      OrphanStays(lib, s, l, key);
    } else if Strands(s, l, key) {
      StrandedIsOrphan(lib, s, l, key);
    } else if Orphan(Next(lib, s, l), key) {
      OrphanComesFrom(lib, s, l, key);
    }
  }

  ghost predicate StrandedDuring(lib: Library, s: State, ls: seq<Label>, key: Key)
    requires WellShaped(s)
    decreases |ls|
  {
    ls != [] && (Strands(s, ls[0], key) || StrandedDuring(lib, Next(lib, s, ls[0]), ls[1..], key))
  }

  lemma {:induction false} OrphansOfRun(lib: Library, s: State, ls: seq<Label>, key: Key)
    requires Owned(s)
    ensures Orphan(Exec(lib, s, ls), key) <==> Orphan(s, key) || StrandedDuring(lib, s, ls, key)
    decreases |ls|
  {
    if ls != [] {
      OrphanExactly(lib, s, ls[0], key);
      NextKeeps(lib, s, ls[0]);
      OrphansOfRun(lib, Next(lib, s, ls[0]), ls[1..], key);
    }
  }

  // No leaked reservations: a key no step of the run stranded is reserved exactly
  // while a request has it open, so nothing is left reserved once all are done.
  lemma ReservedExactlyWhileOpen(lib: Library, issuers: map<string, Issuer>, ls: seq<Label>, key: Key)
    requires !StrandedDuring(lib, Start(issuers), ls, key)
    ensures
      var s := Exec(lib, Start(issuers), ls);
      (key in s.db.idempotency && s.db.idempotency[key].state.Reserved?)
      <==> exists pid :: HeldBy(s, key, pid) && Open(s.procs[pid]) && s.procs[pid].completion.None?
  {
    RunsAreOwned(lib, issuers, ls);
    OrphansOfRun(lib, Start(issuers), ls, key);
    var s := Exec(lib, Start(issuers), ls);
    assert !Orphan(s, key);
    if key in s.db.idempotency && s.db.idempotency[key].state.Reserved? {
      var pid :| HeldBy(s, key, pid);
      assert s.procs[pid].completion.None?;
    }
  }

  lemma {:induction false} OrphanForever(lib: Library, s: State, ls: seq<Label>, key: Key)
    requires Owned(s) && Orphan(s, key)
    ensures Orphan(Exec(lib, s, ls), key)
    decreases |ls|
  {
    if ls != [] {
      OrphanStays(lib, s, ls[0], key);
      NextKeeps(lib, s, ls[0]);
      OrphanForever(lib, Next(lib, s, ls[0]), ls[1..], key);
    }
  }

  // Nobody holds an orphaned key, and nobody has been given a result under it.
  lemma OrphanServesNobody(s: State, key: Key, pid: nat)
    requires Owned(s) && Replay.RepliesFromRows(s) && Orphan(s, key)
    requires pid in s.procs && s.procs[pid].key == Some(key)
    ensures !Open(s.procs[pid]) && s.procs[pid].completion.None? && !Replay.Served(s.procs[pid])
  {
    assert !HeldBy(s, key, pid);
    if Replay.Served(s.procs[pid]) {
      Replay.ServedFromRow(s, pid);
    }
  }

  // A stranded key is lost: in every continuation of the run its row stays reserved,
  // and no request under it, earlier or later, is ever given a result, be it its own
  // or a replayed one.
  lemma StrandedForever(lib: Library, issuers: map<string, Issuer>, ls: seq<Label>, ms: seq<Label>, key: Key)
    requires Orphan(Exec(lib, Start(issuers), ls), key)
    ensures
      var s := Exec(lib, Start(issuers), ls + ms);
      && Orphan(s, key)
      && forall pid :: pid in s.procs && s.procs[pid].key == Some(key) ==>
           !Open(s.procs[pid]) && s.procs[pid].completion.None? && !Replay.Served(s.procs[pid])
  {
    var s := Exec(lib, Start(issuers), ls + ms);
    RunsAreOwned(lib, issuers, ls);
    ExecAppend(lib, Start(issuers), ls, ms);
    OrphanForever(lib, Exec(lib, Start(issuers), ls), ms, key);
    RunsAreOwned(lib, issuers, ls + ms);
    Replay.ExecReplies(lib, Start(issuers), ls + ms);
    forall pid | pid in s.procs && s.procs[pid].key == Some(key)
      ensures !Open(s.procs[pid]) && s.procs[pid].completion.None? && !Replay.Served(s.procs[pid])
    {
      OrphanServesNobody(s, key, pid);
    }
  }
}
