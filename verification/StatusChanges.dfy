// What a status change that was answered means for the credential, and exactly
// when a write replaces an earlier change.
module StatusChanges {
  import opened Text
  import opened Artifact
  import opened Requests
  import opened Tables
  import opened Handlers
  import opened System
  import opened Ownership
  import opened Progress
  import opened Numbering
  import opened CredentialTable
  import VerificationTables

  // Each row is as it was, or not active.
  ghost predicate Touches(t: Tables, t': Tables) {
    forall id :: id in t.credentials ==>
      id in t'.credentials && (t'.credentials[id] == t.credentials[id] || t'.credentials[id].status != ACTIVE)
  }

  // A change about to be written was admitted on an active row; the row in the
  // table is still that one, or somebody else has changed it since.
  predicate WritesActive(t: Tables, p: Proc) {
    p.pc.WriteStatusRow? ==>
      && p.request.Status? && p.read.Some?
      && var record := p.read.value.record;
      && record.status == ACTIVE
      && Trim(record.credentialId) == record.credentialId
      && record.credentialId in t.credentials
      && (t.credentials[record.credentialId] == record || t.credentials[record.credentialId].status != ACTIVE)
  }

  // An answered change: the response repeats the request, and the credential is
  // not active.
  predicate ChangeAnswered(t: Tables, p: Proc, c: Completion) {
    && p.request.Status? && ValidStatusChange(p.request.status, p.request.supersededBy)
    && p.read.Some?
    && var record := p.read.value.record;
    && c.statusCode == 200 && c.location == NoLocation
    && Trim(c.resourceId) == c.resourceId == record.credentialId
    && c.body.StatusBody?
    && c.body.credentialId == record.credentialId
    && c.body.status == p.request.status
    && c.body.statusReference == record.statusReference
    && c.body.expiresAt == record.expiresAt
    && c.body.supersededBy == Trim(p.request.supersededBy)
    && record.credentialId in t.credentials
    && t.credentials[record.credentialId].status != ACTIVE
  }

  predicate AnswersHold(t: Tables, p: Proc) {
    p.request.Status? ==>
      && (p.pc.Completing? ==> ChangeAnswered(t, p, p.pc.c))
      && (p.completion.Some? ==> ChangeAnswered(t, p, p.completion.value))
      && (p.pc.Done? && p.pc.reply.Answered? ==> ChangeAnswered(t, p, p.pc.reply.c))
  }

  predicate StatusFacts(t: Tables, p: Proc) {
    WritesActive(t, p) && AnswersHold(t, p)
  }

  ghost predicate AllStatusFacts(s: State) {
    forall pid :: pid in s.procs ==> StatusFacts(s.db, s.procs[pid])
  }

  lemma FactsOutliveTouch(t: Tables, t': Tables, p: Proc)
    requires StatusFacts(t, p) && Touches(t, t')
    ensures StatusFacts(t', p)
  {
  }

  lemma WriteTouches(t: Tables, p: Proc, env: Env)
    requires Shaped(p) && p.pc.WriteStatusRow? && ChangesValid(p)
    ensures Touches(t, WriteStatusStep(t, p, env).0)
  {
    var t' := WriteStatusStep(t, p, env).0;
    var id := Trim(p.read.value.record.credentialId);
    if id in t.credentials && !env.fault.Refused? {
      StatusWriteOk(p.request.status, p.request.supersededBy, t.credentials[id], env.now);
      assert t'.credentials == t.credentials[id := t'.credentials[id]];
    } else {
      assert t' == t;
    }
  }

  lemma CreateTouches(lib: Library, t: Tables, p: Proc, env: Env)
    requires Shaped(p) && p.pc.CreateCredential?
    ensures Touches(t, CreateCredentialStep(lib, t, p, env).0)
  {
  }

  lemma StepTouches(lib: Library, t: Tables, p: Proc, env: Env)
    requires Shaped(p) && ChangesValid(p)
    ensures Touches(t, Step(lib, t, p, env).0)
  {
    if p.pc.WriteStatusRow? {
      WriteTouches(t, p, env);
      assert Step(lib, t, p, env) == WriteStatusStep(t, p, env);
    } else if p.pc.CreateCredential? {
      CreateTouches(lib, t, p, env);
      assert Step(lib, t, p, env) == CreateCredentialStep(lib, t, p, env);
    } else {
      CredentialsFrame(lib, t, p, env);
    }
  }

  lemma LoadStatusFacts(t: Tables, p: Proc, env: Env)
    requires Shaped(p) && OnTrack(p) && RowsOk(t) && p.pc.LoadCredential?
    ensures StatusFacts(LoadCredentialStep(t, p, env).0, LoadCredentialStep(t, p, env).1)
  {
    TrimIdempotent(p.request.pathId);
  }

  lemma WriteStatusFacts(t: Tables, p: Proc, env: Env)
    requires Shaped(p) && OnTrack(p) && StatusFacts(t, p) && ChangesValid(p) && p.pc.WriteStatusRow?
    ensures StatusFacts(WriteStatusStep(t, p, env).0, WriteStatusStep(t, p, env).1)
  {
  }

  // The response an earlier step computed goes from one field to the next.
  lemma SettleStatusFacts(t: Tables, p: Proc, t': Tables, q: Proc)
    requires (p.pc.Completing? || p.pc.Releasing?) && StatusFacts(t, p) && t'.credentials == t.credentials
    requires q == p.(pc := q.pc, completion := q.completion) && !q.pc.WriteStatusRow? && !q.pc.Completing?
    requires q.completion.Some? ==> q.completion == p.completion || (p.pc.Completing? && q.completion == Some(p.pc.c))
    requires q.pc.Done? && q.pc.reply.Answered? ==> p.pc.Completing? && q.pc.reply.c == p.pc.c
    ensures StatusFacts(t', q)
  {
  }

  lemma CompletingStatusFacts(t: Tables, p: Proc, env: Env)
    requires Shaped(p) && StatusFacts(t, p) && p.pc.Completing?
    ensures StatusFacts(CompletingStep(t, p, env).0, CompletingStep(t, p, env).1)
  {
    var r := CompletingStep(t, p, env);
    SettleStatusFacts(t, p, r.0, r.1);
  }

  lemma ReleasingStatusFacts(t: Tables, p: Proc, env: Env)
    requires Shaped(p) && OnTrack(p) && StatusFacts(t, p) && p.pc.Releasing?
    ensures StatusFacts(ReleasingStep(t, p, env).0, ReleasingStep(t, p, env).1)
  {
    var r := ReleasingStep(t, p, env);
    SettleStatusFacts(t, p, r.0, r.1);
  }

  lemma ReserveStatusFacts(t: Tables, p: Proc, env: Env)
    requires Shaped(p) && OnTrack(p) && StatusFacts(t, p)
    ensures p.pc.LoadIssuer? ==> StatusFacts(LoadIssuerStep(t, p, env).0, LoadIssuerStep(t, p, env).1)
    ensures p.pc.ReserveInsert? ==> StatusFacts(ReserveInsertStep(t, p, env).0, ReserveInsertStep(t, p, env).1)
    ensures p.pc.ReserveSelect? ==> StatusFacts(ReserveSelectStep(t, p, env).0, ReserveSelectStep(t, p, env).1)
  {
  }

  predicate OfOthers(p: Proc) {
    !p.request.Status? && !p.pc.WriteStatusRow?
  }

  lemma OthersStay(lib: Library, t: Tables, p: Proc, env: Env)
    requires Shaped(p) && OfOthers(p)
    ensures OfOthers(Step(lib, t, p, env).1)
  {
  }

  lemma StepStatusFacts(lib: Library, t: Tables, p: Proc, env: Env)
    requires Shaped(p) && OnTrack(p) && RowsOk(t) && StatusFacts(t, p) && ChangesValid(p)
    ensures StatusFacts(Step(lib, t, p, env).0, Step(lib, t, p, env).1)
  {
    match p.pc
    case LoadCredential => LoadStatusFacts(t, p, env);
    case WriteStatusRow => WriteStatusFacts(t, p, env);
    case Completing(_) => CompletingStatusFacts(t, p, env);
    case Releasing(_) => ReleasingStatusFacts(t, p, env);
    case LoadIssuer => ReserveStatusFacts(t, p, env);
    case ReserveInsert => ReserveStatusFacts(t, p, env);
    case ReserveSelect => ReserveStatusFacts(t, p, env);
    case Done(_) =>
    case _ => OthersStay(lib, t, p, env);
  }

  lemma BeginStatusFacts(lib: Library, t: Tables, request: Request)
    ensures StatusFacts(t, Begin(lib, request))
  {
  }

  ghost predicate StatusLawful(lib: Library, s: State) {
    Numbered(lib, s) && Credentialed(s) && AllStatusFacts(s)
  }

  // One request changes, and every row is as it was or not active.
  lemma FactsAfter(s: State, pid: nat, s': State)
    requires AllStatusFacts(s) && Touches(s.db, s'.db)
    requires pid in s'.procs && s'.procs == s.procs[pid := s'.procs[pid]]
    requires StatusFacts(s'.db, s'.procs[pid])
    ensures AllStatusFacts(s')
  {
    forall j | j in s'.procs ensures StatusFacts(s'.db, s'.procs[j]) {
      if j != pid {
        FactsOutliveTouch(s.db, s'.db, s.procs[j]);
      }
    }
  }

  lemma RunStatusFacts(lib: Library, s: State, pid: nat, env: Env)
    requires Credentialed(s) && AllStatusFacts(s) && pid in s.procs
    ensures AllStatusFacts(Next(lib, s, Run(pid, env)))
  {
    StepTouches(lib, s.db, s.procs[pid], env);
    StepStatusFacts(lib, s.db, s.procs[pid], env);
    FactsAfter(s, pid, Next(lib, s, Run(pid, env)));
  }

  lemma NextStatusFacts(lib: Library, s: State, l: Label)
    requires Credentialed(s) && AllStatusFacts(s)
    ensures AllStatusFacts(Next(lib, s, l))
  {
    match l
    case Arrive(pid, request) =>
      if pid !in s.procs {
        BeginStatusFacts(lib, s.db, request);
        FactsAfter(s, pid, Next(lib, s, l));
      }
    case Run(pid, env) =>
      if pid in s.procs {
        RunStatusFacts(lib, s, pid, env);
      }
    case Crash(pid) =>
      if pid in s.procs {
        FactsAfter(s, pid, Next(lib, s, l));
      }
    case SetIssuers(_) =>
      forall pid | pid in s.procs ensures StatusFacts(Next(lib, s, l).db, s.procs[pid]) {
        FactsOutliveTouch(s.db, Next(lib, s, l).db, s.procs[pid]);
      }
  }

  lemma {:induction false} ExecStatusLawful(lib: Library, s: State, ls: seq<Label>)
    requires StatusLawful(lib, s)
    ensures StatusLawful(lib, Exec(lib, s, ls))
    decreases |ls|
  {
    if ls != [] {
      NextNumbered(lib, s, ls[0]);
      NextCredentialed(lib, s, ls[0]);
      NextStatusFacts(lib, s, ls[0]);
      ExecStatusLawful(lib, Next(lib, s, ls[0]), ls[1..]);
    }
  }

  lemma FaithfulChange(s: State, key: Key)
    requires Owned(s) && AllStatusFacts(s) && VerificationTables.AllKeyed(s)
    requires key.op == WriteStatus && key in s.db.idempotency && s.db.idempotency[key].state.Completed?
    ensures
      var row := s.db.idempotency[key];
      && row.statusCode == 200 && row.location == NoLocation
      && row.resourceId in s.db.credentials
      && s.db.credentials[row.resourceId].status != ACTIVE
      && row.body.StatusBody? && row.body.credentialId == row.resourceId
      && ValidStatusChange(row.body.status, row.body.supersededBy)
  {
    var pid :| CompletedBy(s, key, pid);
    var p := s.procs[pid];
    assert Holds(p);
    assert ChangeAnswered(s.db, p, p.completion.value);
    TrimIdempotent(p.request.supersededBy);
  }

  // A completed status change is true of its credential in every later state: the
  // response names an existing credential, which is not active.
  lemma CompletedChangeFaithful(lib: Library, issuers: map<string, Issuer>, ls: seq<Label>, key: Key)
    requires
      var t := Exec(lib, Start(issuers), ls).db.idempotency;
      key.op == WriteStatus && key in t && t[key].state.Completed?
    ensures
      var db := Exec(lib, Start(issuers), ls).db;
      var row := db.idempotency[key];
      && row.statusCode == 200 && row.location == NoLocation
      && row.resourceId in db.credentials
      && db.credentials[row.resourceId].status != ACTIVE
      && row.body.StatusBody? && row.body.credentialId == row.resourceId
      && ValidStatusChange(row.body.status, row.body.supersededBy)
  {
    RunsAreOwned(lib, issuers, ls);
    ExecStatusLawful(lib, Start(issuers), ls);
    VerificationTables.ExecKeyed(lib, Start(issuers), ls);
    FaithfulChange(Exec(lib, Start(issuers), ls), key);
  }

  // When a status write replaces an earlier transition: exactly when the row is no
  // longer the one the handler read. The UPDATE itself does not look.
  lemma ReplacesExactly(lib: Library, issuers: map<string, Issuer>, ls: seq<Label>, pid: nat)
    requires
      var s := Exec(lib, Start(issuers), ls);
      pid in s.procs && s.procs[pid].pc.WriteStatusRow?
    ensures
      var s := Exec(lib, Start(issuers), ls);
      && s.procs[pid].read.Some?
      && var record := s.procs[pid].read.value.record;
      && record.credentialId in s.db.credentials
      && (s.db.credentials[record.credentialId].status != ACTIVE <==> s.db.credentials[record.credentialId] != record)
  {
    ExecStatusLawful(lib, Start(issuers), ls);
  }

  // A status UPDATE of this credential takes effect.
  ghost predicate Writes(s: State, l: Label, id: string) {
    && l.Run? && l.pid in s.procs && s.procs[l.pid].pc.WriteStatusRow? && s.procs[l.pid].read.Some?
    && s.procs[l.pid].read.value.record.credentialId == id && !l.env.fault.Refused?
  }

  // And the row it replaces is not the one the handler read.
  ghost predicate WritesStale(s: State, l: Label, id: string) {
    && Writes(s, l, id)
    && id in s.db.credentials && s.db.credentials[id] != s.procs[l.pid].read.value.record
  }

  ghost function Count(b: bool): nat {
    if b then 1 else 0
  }

  // 1 once the credential has left active.
  ghost function Left(t: Tables, id: string): nat {
    Count(id in t.credentials && t.credentials[id].status != ACTIVE)
  }

  lemma WriteLeaves(t: Tables, p: Proc, env: Env, id: string)
    requires Shaped(p) && p.pc.WriteStatusRow? && WritesActive(t, p) && ChangesValid(p)
    ensures
      var t' := WriteStatusStep(t, p, env).0;
      var record := p.read.value.record;
      var writes := record.credentialId == id && !env.fault.Refused?;
      && Left(t', id) == (if writes then 1 else Left(t, id))
      && (writes ==> Left(t, id) == Count(t.credentials[id] != record))
  {
    var record, t' := p.read.value.record, WriteStatusStep(t, p, env).0;
    StatusWriteOk(p.request.status, p.request.supersededBy, t.credentials[record.credentialId], env.now);
    if env.fault.Refused? {
      assert t' == t;
    } else {
      assert t'.credentials == t.credentials[record.credentialId := t'.credentials[record.credentialId]];
    }
  }

  lemma CreateLeaves(t: Tables, p: Proc, c: Credential, env: Env, id: string)
    requires Shaped(p) && p.pc.CreateCredential? && Trim(c.status) == ACTIVE
    ensures Left(CreateStep(t, p, c, env).0, id) == Left(t, id)
  {
  }

  lemma StepLeaves(lib: Library, t: Tables, p: Proc, env: Env, id: string)
    requires Shaped(p) && !p.pc.WriteStatusRow?
    ensures Left(Step(lib, t, p, env).0, id) == Left(t, id)
  {
    if p.pc.CreateCredential? {
      var c := NewCredential(lib, p.request, p.id);
      TightIsFixed(ACTIVE);
      CreateLeaves(t, p, c, env, id);
      assert Step(lib, t, p, env) == CreateStep(t, p, c, env);
    } else {
      CredentialsFrame(lib, t, p, env);
    }
  }

  // The balance of one label.
  lemma LabelLeaves(lib: Library, s: State, l: Label, id: string)
    requires WellShaped(s) && AllCredentialFacts(s) && AllStatusFacts(s)
    ensures Left(Next(lib, s, l).db, id) + Count(WritesStale(s, l, id)) == Left(s.db, id) + Count(Writes(s, l, id))
    ensures WritesStale(s, l, id) ==> Left(s.db, id) == 1
  {
    if l.Run? && l.pid in s.procs {
      var p := s.procs[l.pid];
      assert CredentialFacts(s.db, p) && StatusFacts(s.db, p);
      if p.pc.WriteStatusRow? {
        WriteLeaves(s.db, p, l.env, id);
        assert Step(lib, s.db, p, l.env) == WriteStatusStep(s.db, p, l.env);
      } else {
        StepLeaves(lib, s.db, p, l.env, id);
      }
    }
  }

  ghost function WritesDuring(lib: Library, s: State, ls: seq<Label>, id: string): nat
    requires WellShaped(s)
    decreases |ls|
  {
    if ls == [] then 0 else Count(Writes(s, ls[0], id)) + WritesDuring(lib, Next(lib, s, ls[0]), ls[1..], id)
  }

  ghost function StaleDuring(lib: Library, s: State, ls: seq<Label>, id: string): nat
    requires WellShaped(s)
    decreases |ls|
  {
    if ls == [] then 0 else Count(WritesStale(s, ls[0], id)) + StaleDuring(lib, Next(lib, s, ls[0]), ls[1..], id)
  }

  lemma NextStatusLawful(lib: Library, s: State, l: Label)
    requires StatusLawful(lib, s)
    ensures StatusLawful(lib, Next(lib, s, l))
  {
    NextNumbered(lib, s, l);
    NextCredentialed(lib, s, l);
    NextStatusFacts(lib, s, l);
  }

  lemma {:induction false} WritesCounted(lib: Library, s: State, ls: seq<Label>, id: string)
    requires StatusLawful(lib, s)
    ensures Left(Exec(lib, s, ls).db, id) + StaleDuring(lib, s, ls, id) == Left(s.db, id) + WritesDuring(lib, s, ls, id)
    ensures Left(s.db, id) <= Left(Exec(lib, s, ls).db, id)
    ensures StaleDuring(lib, s, ls, id) > 0 ==> Left(Exec(lib, s, ls).db, id) == 1
    decreases |ls|
  {
    if ls != [] {
      LabelLeaves(lib, s, ls[0], id);
      NextStatusLawful(lib, s, ls[0]);
      WritesCounted(lib, Next(lib, s, ls[0]), ls[1..], id);
    }
  }

  // Over whole runs: the status writes a credential has seen are one if it has left
  // active, and one for each write whose row was no longer the one its handler had
  // read. So a credential changes at most once exactly when no such write occurs.
  lemma TransitionsCounted(lib: Library, issuers: map<string, Issuer>, ls: seq<Label>, id: string)
    ensures
      var s := Exec(lib, Start(issuers), ls);
      var writes, stale := WritesDuring(lib, Start(issuers), ls, id), StaleDuring(lib, Start(issuers), ls, id);
      && writes == Left(s.db, id) + stale
      && (writes <= 1 <==> stale == 0)
  {
    WritesCounted(lib, Start(issuers), ls, id);
  }
}
