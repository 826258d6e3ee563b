// What a client may rely on when it repeats a request under the same key.
module Replay {
  import opened Text
  import opened Artifact
  import opened Requests
  import opened Tables
  import opened Handlers
  import opened System
  import opened Ownership

  ghost predicate CompletedAt(s: State, key: Key) {
    key in s.db.idempotency && s.db.idempotency[key].state.Completed?
  }

  lemma CompletedRowUntouched(lib: Library, t: Tables, p: Proc, env: Env, key: Key)
    requires Shaped(p)
    requires key in t.idempotency && t.idempotency[key].state.Completed?
    requires p.pc.Completing? ==> p.key != Some(key)
    ensures key in Step(lib, t, p, env).0.idempotency
    ensures Step(lib, t, p, env).0.idempotency[key] == t.idempotency[key]
  {
    if p.pc.ReserveInsert? {
      assert Step(lib, t, p, env) == ReserveInsertStep(t, p, env);
    } else if p.pc.Completing? {
      assert Step(lib, t, p, env) == CompletingStep(t, p, env);
    } else if p.pc.Releasing? {
      assert Step(lib, t, p, env) == ReleasingStep(t, p, env);
    }
  }

  // One step never touches a completed row: not its fingerprint, not its stored
  // response.
  lemma CompletedRowFixedByStep(lib: Library, s: State, l: Label, key: Key)
    requires Owned(s) && CompletedAt(s, key)
    ensures CompletedAt(Next(lib, s, l), key)
    ensures Next(lib, s, l).db.idempotency[key] == s.db.idempotency[key]
  {
    if l.Run? && l.pid in s.procs {
      var p := s.procs[l.pid];
      if p.pc.Completing? {
        assert Holds(p);
      }
      CompletedRowUntouched(lib, s.db, p, l.env, key);
    }
  }

  lemma {:induction false} CompletedRowFixed(lib: Library, s: State, ls: seq<Label>, key: Key)
    requires Owned(s) && CompletedAt(s, key)
    ensures CompletedAt(Exec(lib, s, ls), key)
    ensures Exec(lib, s, ls).db.idempotency[key] == s.db.idempotency[key]
    decreases |ls|
  {
    if ls != [] {
      CompletedRowFixedByStep(lib, s, ls[0], key);
      NextKeeps(lib, s, ls[0]);
      CompletedRowFixed(lib, Next(lib, s, ls[0]), ls[1..], key);
    }
  }

  // Replay stability: once a key is completed, every continuation of the run
  // leaves its row as it is.
  lemma ReplayStability(lib: Library, issuers: map<string, Issuer>, ls: seq<Label>, ms: seq<Label>, key: Key)
    requires CompletedAt(Exec(lib, Start(issuers), ls), key)
    ensures CompletedAt(Exec(lib, Start(issuers), ls + ms), key)
    ensures Exec(lib, Start(issuers), ls + ms).db.idempotency[key] == Exec(lib, Start(issuers), ls).db.idempotency[key]
  {
    RunsAreOwned(lib, issuers, ls);
    ExecAppend(lib, Start(issuers), ls, ms);
    CompletedRowFixed(lib, Exec(lib, Start(issuers), ls), ms, key);
  }

  // Replies under a key come from its row: an answer is the stored completion, a
  // replay is the stored row of a request with the same fingerprint.
  predicate ReplyFromRow(t: Tables, p: Proc)
  {
    p.key.Some? && p.pc.Done? ==>
      match p.pc.reply
      case Answered(c) => p.completion == Some(c)
      case Replayed(row) =>
        && p.key.value in t.idempotency
        && t.idempotency[p.key.value] == row
        && row.state.Completed?
        && Trim(row.fingerprint) == Trim(p.fingerprint)
      case _ => true
  }

  // A deferred release only ever follows an error.
  predicate ReleasesFailure(p: Proc) {
    p.pc.Releasing? ==> p.pc.reply.Failed?
  }

  ghost predicate RepliesFromRows(s: State) {
    forall pid :: pid in s.procs ==> ReplyFromRow(s.db, s.procs[pid]) && ReleasesFailure(s.procs[pid])
  }

  lemma BeginReplies(lib: Library, t: Tables, request: Request)
    ensures ReplyFromRow(t, Begin(lib, request)) && ReleasesFailure(Begin(lib, request))
  {
  }

  predicate RepliesOk(t: Tables, p: Proc) {
    ReplyFromRow(t, p) && ReleasesFailure(p)
  }

  lemma ReserveReplies(t: Tables, p: Proc, env: Env)
    requires Shaped(p)
    ensures p.pc.LoadIssuer? ==> RepliesOk(LoadIssuerStep(t, p, env).0, LoadIssuerStep(t, p, env).1)
    ensures p.pc.ReserveInsert? ==> RepliesOk(ReserveInsertStep(t, p, env).0, ReserveInsertStep(t, p, env).1)
    ensures p.pc.ReserveSelect? ==> RepliesOk(ReserveSelectStep(t, p, env).0, ReserveSelectStep(t, p, env).1)
  {
  }

  lemma IssuerReplies(lib: Library, t: Tables, p: Proc, env: Env)
    requires Shaped(p)
    ensures p.pc.CreateCredential? ==> RepliesOk(CreateCredentialStep(lib, t, p, env).0, CreateCredentialStep(lib, t, p, env).1)
    ensures p.pc.LoadCredential? ==> RepliesOk(LoadCredentialStep(t, p, env).0, LoadCredentialStep(t, p, env).1)
    ensures p.pc.WriteStatusRow? ==> RepliesOk(WriteStatusStep(t, p, env).0, WriteStatusStep(t, p, env).1)
  {
    if p.pc.CreateCredential? {
      CreateReplies(t, p, NewCredential(lib, p.request, p.id), env);
    }
  }

  lemma AllocateReplies(lib: Library, t: Tables, p: Proc, env: Env)
    requires Shaped(p) && p.pc.Allocate?
    ensures RepliesOk(AllocateStep(lib, t, p, env).0, AllocateStep(lib, t, p, env).1)
  {
  }

  lemma CreateReplies(t: Tables, p: Proc, c: Credential, env: Env)
    requires Shaped(p) && p.pc.CreateCredential?
    ensures RepliesOk(CreateStep(t, p, c, env).0, CreateStep(t, p, c, env).1)
  {
  }

  lemma VerifierReplies(lib: Library, t: Tables, p: Proc, env: Env)
    requires Shaped(p)
    ensures p.pc.StoreRequest? ==> RepliesOk(StoreRequestStep(lib, t, p, env).0, StoreRequestStep(lib, t, p, env).1)
    ensures p.pc.FindByDigest? ==> RepliesOk(FindByDigestStep(lib, t, p, env).0, FindByDigestStep(lib, t, p, env).1)
    ensures p.pc.FindById? ==> RepliesOk(FindByIdStep(t, p, env).0, FindByIdStep(t, p, env).1)
    ensures p.pc.Judge? ==> RepliesOk(JudgeStep(lib, t, p, env).0, JudgeStep(lib, t, p, env).1)
    ensures p.pc.StoreResult? ==> RepliesOk(StoreResultStep(t, p, env).0, StoreResultStep(t, p, env).1)
  {
  }

  lemma SettleReplies(t: Tables, p: Proc, env: Env)
    requires Shaped(p) && RepliesOk(t, p)
    requires p.pc.Completing? ==> p.key.Some? && p.key.value in t.idempotency
    ensures p.pc.Completing? ==> RepliesOk(CompletingStep(t, p, env).0, CompletingStep(t, p, env).1)
    ensures p.pc.Releasing? ==> RepliesOk(ReleasingStep(t, p, env).0, ReleasingStep(t, p, env).1)
  {
  }

  lemma StepReplies(lib: Library, t: Tables, p: Proc, env: Env)
    requires Shaped(p) && RepliesOk(t, p)
    requires p.pc.Completing? ==> p.key.Some? && p.key.value in t.idempotency
    ensures RepliesOk(Step(lib, t, p, env).0, Step(lib, t, p, env).1)
  {
    if p.pc.Allocate? {
      AllocateReplies(lib, t, p, env);
    }
    ReserveReplies(t, p, env);
    IssuerReplies(lib, t, p, env);
    VerifierReplies(lib, t, p, env);
    SettleReplies(t, p, env);
  }

  lemma RunReplies(lib: Library, s: State, pid: nat, env: Env)
    requires Owned(s) && RepliesFromRows(s) && pid in s.procs
    ensures RepliesOk(Step(lib, s.db, s.procs[pid], env).0, Step(lib, s.db, s.procs[pid], env).1)
  {
    if s.procs[pid].pc.Completing? {
      assert Holds(s.procs[pid]);
    }
    StepReplies(lib, s.db, s.procs[pid], env);
  }

  // What was replayed stays in its row, whoever takes the step.
  lemma OthersReplies(lib: Library, s: State, l: Label, pid: nat)
    requires Owned(s) && RepliesFromRows(s) && pid in s.procs && !(l.Run? && l.pid == pid)
    ensures pid in Next(lib, s, l).procs && RepliesOk(Next(lib, s, l).db, Next(lib, s, l).procs[pid])
  {
    var p := s.procs[pid];
    if p.key.Some? && p.pc.Done? && p.pc.reply.Replayed? {
      CompletedRowFixedByStep(lib, s, l, p.key.value);
    }
  }

  lemma NextReplies(lib: Library, s: State, l: Label)
    requires Owned(s) && RepliesFromRows(s)
    ensures RepliesFromRows(Next(lib, s, l))
  {
    var s' := Next(lib, s, l);
    forall pid | pid in s'.procs ensures RepliesOk(s'.db, s'.procs[pid]) {
      if pid !in s.procs {
        BeginReplies(lib, s.db, l.request);
      } else if l.Run? && l.pid == pid {
        RunReplies(lib, s, pid, l.env);
      } else {
        OthersReplies(lib, s, l, pid);
      }
    }
  }

  lemma {:induction false} ExecReplies(lib: Library, s: State, ls: seq<Label>)
    requires Owned(s) && RepliesFromRows(s)
    ensures RepliesFromRows(Exec(lib, s, ls))
    decreases |ls|
  {
    if ls != [] {
      NextReplies(lib, s, ls[0]);
      NextKeeps(lib, s, ls[0]);
      ExecReplies(lib, Next(lib, s, ls[0]), ls[1..]);
    }
  }

  // A request that got a result: its own answer or a replayed one.
  predicate Served(p: Proc) {
    p.key.Some? && p.pc.Done? && (p.pc.reply.Answered? || p.pc.reply.Replayed?)
  }

  // The response it was given, as a stored row.
  function ServedRow(p: Proc): Row
    requires Served(p)
  {
    match p.pc.reply
    case Answered(c) => CompletedRow(Trim(p.fingerprint), c)
    case Replayed(row) => row
  }

  lemma ServedFromRow(s: State, pid: nat)
    requires Owned(s) && RepliesFromRows(s)
    requires pid in s.procs && Served(s.procs[pid])
    ensures
      var p := s.procs[pid];
      && CompletedAt(s, p.key.value)
      && s.db.idempotency[p.key.value] == ServedRow(p)
      && Trim(ServedRow(p).fingerprint) == Trim(p.fingerprint)
  {
    var p := s.procs[pid];
    TrimIdempotent(p.fingerprint);
    if p.pc.reply.Answered? {
      assert Holds(p);
    }
  }

  // All results ever given under one key, first answers and replays alike, are
  // one and the same response to one and the same fingerprint.
  lemma ResponsesAgree(lib: Library, issuers: map<string, Issuer>, ls: seq<Label>, i: nat, j: nat)
    requires
      var procs := Exec(lib, Start(issuers), ls).procs;
      i in procs && j in procs && Served(procs[i]) && Served(procs[j]) && procs[i].key == procs[j].key
    ensures
      var procs := Exec(lib, Start(issuers), ls).procs;
      && ServedRow(procs[i]) == ServedRow(procs[j])
      && Trim(procs[i].fingerprint) == Trim(procs[j].fingerprint)
  {
    RunsAreOwned(lib, issuers, ls);
    ExecReplies(lib, Start(issuers), ls);
    var s := Exec(lib, Start(issuers), ls);
    ServedFromRow(s, i);
    ServedFromRow(s, j);
  }

  // A reservation attempted on a completed key changes nothing and is answered
  // from the row: the stored response for the same fingerprint, a conflict for
  // any other.
  lemma ReserveOnCompleted(s: State, key: Key, fingerprint: string, f: Fault, g: Fault)
    requires Owned(s) && CompletedAt(s, key) && !Errs(g)
    ensures InsertReservation(s.db, key, fingerprint, f).0 == s.db
    ensures !InsertReservation(s.db, key, fingerprint, f).1.Inserted?
    ensures SelectReservation(s.db, key, g) == Found(s.db.idempotency[key])
    ensures AnswerFrom(s.db.idempotency[key], fingerprint)
            == if s.db.idempotency[key].fingerprint == Trim(fingerprint) then Replayed(s.db.idempotency[key])
               else Failed(IdempotencyConflict)
  {
    var pid :| CompletedBy(s, key, pid);
    assert Holds(s.procs[pid]);
    TrimIdempotent(s.procs[pid].fingerprint);
  }
}
