// How often a credential changes its status. The status handler reads, checks and
// writes in separate statements: served one at a time it makes at most one
// transition per credential; interleaved it can make two.
module Transitions {
  import opened Text
  import opened Artifact
  import opened Requests
  import opened Tables
  import opened Evaluation
  import opened Handlers
  import opened System
  import opened Progress
  import opened Numbering
  import opened CredentialTable
  import opened Serial

  // The row a status change is about to write is the row it read.
  predicate FreshRead(t: Tables, p: Proc) {
    p.pc.WriteStatusRow? ==>
      && p.request.Status? && p.read.Some?
      && var record := p.read.value.record;
      && Trim(record.credentialId) == record.credentialId
      && record.credentialId in t.credentials
      && t.credentials[record.credentialId] == record
      && record.status == ACTIVE
  }

  // What a request run alone may do to a row: nothing, or end its activity.
  ghost predicate OnceOnly(t: Tables, t': Tables) {
    forall id :: id in t.credentials ==>
      && id in t'.credentials
      && (t'.credentials[id] == t.credentials[id]
          || (t.credentials[id].status == ACTIVE && t'.credentials[id].status != ACTIVE))
  }

  predicate SerialFacts(t: Tables, p: Proc) {
    FreshRead(t, p) && ChangesValid(p)
  }

  lemma LoadFresh(t: Tables, p: Proc, env: Env)
    requires Shaped(p) && RowsOk(t) && ChangesValid(p) && p.pc.LoadCredential?
    ensures SerialFacts(t, LoadCredentialStep(t, p, env).1)
  {
    TrimIdempotent(p.request.pathId);
  }

  lemma WriteOnce(t: Tables, p: Proc, env: Env)
    requires Shaped(p) && RowsOk(t) && SerialFacts(t, p) && p.pc.WriteStatusRow?
    ensures OnceOnly(t, WriteStatusStep(t, p, env).0)
    ensures !WriteStatusStep(t, p, env).1.pc.WriteStatusRow?
  {
    var record, t' := p.read.value.record, WriteStatusStep(t, p, env).0;
    StatusWriteOk(p.request.status, p.request.supersededBy, record, env.now);
    if env.fault.Refused? {
      assert t' == t;
    } else {
      assert t'.credentials == t.credentials[record.credentialId := t'.credentials[record.credentialId]];
    }
  }

  lemma CreateOnce(lib: Library, t: Tables, p: Proc, env: Env)
    requires Shaped(p) && p.pc.CreateCredential?
    ensures OnceOnly(t, CreateCredentialStep(lib, t, p, env).0)
  {
  }

  lemma StepOnce(lib: Library, t: Tables, p: Proc, env: Env)
    requires Shaped(p) && RowsOk(t) && SerialFacts(t, p)
    ensures
      var r := Step(lib, t, p, env);
      OnceOnly(t, r.0) && SerialFacts(r.0, r.1)
  {
    var r := Step(lib, t, p, env);
    if p.pc.LoadCredential? {
      LoadFresh(t, p, env);
    } else if p.pc.WriteStatusRow? {
      WriteOnce(t, p, env);
    } else if p.pc.CreateCredential? {
      CreateOnce(lib, t, p, env);
      NotWriting(lib, t, p, env);
    } else {
      CredentialsFrame(lib, t, p, env);
      NotWriting(lib, t, p, env);
    }
  }

  lemma NotWriting(lib: Library, t: Tables, p: Proc, env: Env)
    requires Shaped(p) && !p.pc.LoadCredential? && !p.pc.WriteStatusRow?
    ensures !Step(lib, t, p, env).1.pc.WriteStatusRow?
  {
  }

  lemma NamedStays(lib: Library, t: Tables, p: Proc, env: Env)
    requires Shaped(p) && OnTrack(p) && Named(lib, p)
    ensures Named(lib, Step(lib, t, p, env).1)
  {
    if p.pc.Allocate? {
      AllocateNames(lib, t, p, env);
    } else {
      FieldsFrame(lib, t, p, env);
    }
  }

  ghost predicate Alone(lib: Library, t: Tables, p: Proc) {
    Shaped(p) && OnTrack(p) && Named(lib, p) && RowsOk(t) && CredentialFacts(t, p) && FreshRead(t, p)
  }

  lemma AloneStep(lib: Library, t: Tables, p: Proc, env: Env)
    requires Alone(lib, t, p)
    ensures
      var r := Step(lib, t, p, env);
      Alone(lib, r.0, r.1) && OnceOnly(t, r.0) && (r.0.credentials != t.credentials ==> !r.1.pc.WriteStatusRow?)
  {
    StepOnce(lib, t, p, env);
    StepOnTrack(lib, t, p, env);
    NamedStays(lib, t, p, env);
    StepFacts(lib, t, p, env);
    if !p.pc.CreateCredential? && !p.pc.WriteStatusRow? {
      CredentialsFrame(lib, t, p, env);
    } else if p.pc.WriteStatusRow? {
      WriteOnce(t, p, env);
    } else {
      NotWriting(lib, t, p, env);
    }
  }

  lemma OnceThenOnce(t0: Tables, t1: Tables, t2: Tables)
    requires OnceOnly(t0, t1) && OnceOnly(t1, t2)
    ensures OnceOnly(t0, t2)
  {
  }

  lemma {:induction false} DriveOnce(lib: Library, t: Tables, p: Proc, envs: seq<Env>)
    requires Alone(lib, t, p)
    ensures RowsOk(Drive(lib, t, p, envs).0) && OnceOnly(t, Drive(lib, t, p, envs).0)
    decreases |envs|
  {
    if !p.pc.Done? && envs != [] {
      var r := Step(lib, t, p, envs[0]);
      AloneStep(lib, t, p, envs[0]);
      DriveOnce(lib, r.0, r.1, envs[1..]);
      OnceThenOnce(t, r.0, Drive(lib, r.0, r.1, envs[1..]).0);
    }
  }

  // A request with the surroundings of its steps.
  datatype Visit = Visit(request: Request, envs: seq<Env>)

  ghost function Serve(lib: Library, t: Tables, visit: Visit): Tables {
    BeginShaped(lib, visit.request);
    Drive(lib, t, Begin(lib, visit.request), visit.envs).0
  }

  ghost function ServeAll(lib: Library, t: Tables, visits: seq<Visit>): Tables
    decreases |visits|
  {
    if visits == [] then t else ServeAll(lib, Serve(lib, t, visits[0]), visits[1..])
  }

  lemma ServeOnce(lib: Library, t: Tables, visit: Visit)
    requires RowsOk(t)
    ensures RowsOk(Serve(lib, t, visit)) && OnceOnly(t, Serve(lib, t, visit))
  {
    BeginShaped(lib, visit.request);
    BeginOnTrack(lib, visit.request);
    BeginCredentialFacts(lib, t, visit.request);
    BeginUnnumbered(lib, visit.request);
    BeginNotWriting(lib, visit.request);
    DriveOnce(lib, t, Begin(lib, visit.request), visit.envs);
  }

  lemma BeginNotWriting(lib: Library, request: Request)
    ensures !Begin(lib, request).pc.WriteStatusRow?
  {
  }

  lemma {:induction false} ServeAllOnce(lib: Library, t: Tables, visits: seq<Visit>)
    requires RowsOk(t)
    ensures RowsOk(ServeAll(lib, t, visits)) && OnceOnly(t, ServeAll(lib, t, visits))
    decreases |visits|
  {
    if visits != [] {
      ServeOnce(lib, t, visits[0]);
      var t1 := Serve(lib, t, visits[0]);
      ServeAllOnce(lib, t1, visits[1..]);
      OnceThenOnce(t, t1, ServeAll(lib, t1, visits[1..]));
    }
  }

  // With requests served one at a time, each failing as it may, a credential
  // changes at most once: after any stretch of visits that changed its row, no
  // later stretch changes it again.
  lemma SerialOneTransition(lib: Library, t: Tables, first: seq<Visit>, second: seq<Visit>, id: string)
    requires RowsOk(t) && id in t.credentials
    ensures
      var t1 := ServeAll(lib, t, first);
      var t2 := ServeAll(lib, t1, second);
      && id in t1.credentials && id in t2.credentials
      && (t1.credentials[id] != t.credentials[id] ==> t2.credentials[id] == t1.credentials[id])
  {
    ServeAllOnce(lib, t, first);
    ServeAllOnce(lib, ServeAll(lib, t, first), second);
  }

  const CALM: Env := Env(Fine, 0, TrustRefused)

  function StatusRequest(caller: Caller, id: string, status: string, next: string): Request {
    Status(caller, "", id, status, next)
  }

  lemma ArriveStatus(lib: Library, s: State, pid: nat, request: Request)
    requires WellShaped(s) && pid !in s.procs
    requires request.Status? && request.idempotencyHeader == "" && Attributed(request.caller)
    requires ValidStatusChange(request.status, request.supersededBy)
    ensures
      var s' := Next(lib, s, Arrive(pid, request));
      && s'.db == s.db && s'.procs.Keys == s.procs.Keys + {pid}
      && (forall k :: k in s.procs ==> s'.procs[k] == s.procs[k])
      && s'.procs[pid].pc.LoadCredential? && s'.procs[pid].key.None? && s'.procs[pid].request == request
  {
  }

  lemma LoadStatus(lib: Library, s: State, pid: nat, id: string)
    requires WellShaped(s) && pid in s.procs && s.procs[pid].pc.LoadCredential?
    requires s.procs[pid].request.Status? && s.procs[pid].request.pathId == id == Trim(id) && id in s.db.credentials
    requires s.db.credentials[id].issuerId == s.procs[pid].request.caller.organizationId
    requires s.db.credentials[id].status == ACTIVE
    ensures
      var s' := Next(lib, s, Run(pid, CALM));
      && s'.db == s.db
      && s'.procs == s.procs[pid := s.procs[pid].(pc := WriteStatusRow, read := Some(ReadBack(s.db.credentials[id], false)))]
  {
    assert Step(lib, s.db, s.procs[pid], CALM) == LoadCredentialStep(s.db, s.procs[pid], CALM);
  }

  lemma WriteStatus(lib: Library, s: State, pid: nat, id: string)
    requires WellShaped(s) && pid in s.procs && s.procs[pid].pc.WriteStatusRow?
    requires s.procs[pid].request.Status? && s.procs[pid].read.Some?
    requires s.procs[pid].read.value.record.credentialId == id == Trim(id) && id in s.db.credentials
    ensures
      var s' := Next(lib, s, Run(pid, CALM));
      && id in s'.db.credentials && s'.db.credentials[id].status == Trim(s.procs[pid].request.status)
      && (forall k :: k in s.procs && k != pid ==> k in s'.procs && s'.procs[k] == s.procs[k])
  {
    assert Step(lib, s.db, s.procs[pid], CALM) == WriteStatusStep(s.db, s.procs[pid], CALM);
  }

  lemma BothArrive(lib: Library, s: State, i: nat, r1: Request, j: nat, r2: Request) returns (s': State)
    requires WellShaped(s) && i !in s.procs && j !in s.procs && i != j
    requires r1.Status? && r1.idempotencyHeader == "" && Attributed(r1.caller) && ValidStatusChange(r1.status, r1.supersededBy)
    requires r2.Status? && r2.idempotencyHeader == "" && Attributed(r2.caller) && ValidStatusChange(r2.status, r2.supersededBy)
    ensures s' == Next(lib, Next(lib, s, Arrive(i, r1)), Arrive(j, r2))
    ensures WellShaped(s') && s'.db == s.db && i in s'.procs && j in s'.procs
    ensures s'.procs[i].pc.LoadCredential? && s'.procs[i].request == r1
    ensures s'.procs[j].pc.LoadCredential? && s'.procs[j].request == r2
  {
    ArriveStatus(lib, s, i, r1);
    var s1 := Next(lib, s, Arrive(i, r1));
    ArriveStatus(lib, s1, j, r2);
    s' := Next(lib, s1, Arrive(j, r2));
  }

  predicate AboutToRead(s: State, pid: nat, id: string) {
    && pid in s.procs && s.procs[pid].pc.LoadCredential? && s.procs[pid].request.Status?
    && s.procs[pid].request.pathId == id == Trim(id)
    && id in s.db.credentials
    && s.db.credentials[id].issuerId == s.procs[pid].request.caller.organizationId
    && s.db.credentials[id].status == ACTIVE
    && s.db.credentials[id].credentialId == id
  }

  predicate AboutToWrite(s: State, pid: nat, id: string) {
    && pid in s.procs && s.procs[pid].pc.WriteStatusRow? && s.procs[pid].request.Status? && s.procs[pid].read.Some?
    && s.procs[pid].read.value.record.credentialId == id == Trim(id)
    && id in s.db.credentials
  }

  lemma BothLoad(lib: Library, s: State, i: nat, j: nat, id: string) returns (s': State)
    requires WellShaped(s) && i != j && AboutToRead(s, i, id) && AboutToRead(s, j, id)
    ensures s' == Next(lib, Next(lib, s, Run(i, CALM)), Run(j, CALM))
    ensures WellShaped(s') && AboutToWrite(s', i, id) && AboutToWrite(s', j, id)
    ensures s'.procs[i].request == s.procs[i].request && s'.procs[j].request == s.procs[j].request
  {
    LoadStatus(lib, s, i, id);
    var s1 := Next(lib, s, Run(i, CALM));
    LoadStatus(lib, s1, j, id);
    s' := Next(lib, s1, Run(j, CALM));
  }

  lemma BothWrite(lib: Library, s: State, i: nat, j: nat, id: string) returns (once: State, twice: State)
    requires WellShaped(s) && i != j && AboutToWrite(s, i, id) && AboutToWrite(s, j, id)
    ensures once == Next(lib, s, Run(i, CALM)) && twice == Next(lib, once, Run(j, CALM))
    ensures id in once.db.credentials && once.db.credentials[id].status == Trim(s.procs[i].request.status)
    ensures id in twice.db.credentials && twice.db.credentials[id].status == Trim(s.procs[j].request.status)
  {
    WriteStatus(lib, s, i, id);
    once := Next(lib, s, Run(i, CALM));
    WriteStatus(lib, once, j, id);
    twice := Next(lib, once, Run(j, CALM));
  }

  // Both requests arrive and read; then the first one writes.
  function BothRead(i: nat, r1: Request, j: nat, r2: Request): seq<Label> {
    [Arrive(i, r1), Arrive(j, r2), Run(i, CALM), Run(j, CALM)]
  }

  function FirstWrites(i: nat, r1: Request, j: nat, r2: Request): seq<Label> {
    BothRead(i, r1, j, r2) + [Run(i, CALM)]
  }

  // Interleaved, one credential can make two transitions: from any state with an
  // active credential, two handlers that both read before either writes take it
  // from active to revoked and on to superseded.
  lemma InterleavedTwoTransitions(lib: Library, s: State, id: string, i: nat, j: nat, caller: Caller, next: string)
    requires WellShaped(s) && i !in s.procs && j !in s.procs && i != j
    requires id in s.db.credentials && Trim(id) == id && s.db.credentials[id].credentialId == id
    requires s.db.credentials[id].status == ACTIVE && s.db.credentials[id].issuerId == caller.organizationId
    requires Attributed(caller) && Trim(next) != ""
    ensures
      var ls := FirstWrites(i, StatusRequest(caller, id, REVOKED, ""), j, StatusRequest(caller, id, SUPERSEDED, next));
      var once := Exec(lib, s, ls).db.credentials;
      var twice := Exec(lib, s, ls + [Run(j, CALM)]).db.credentials;
      id in once && once[id].status == REVOKED && id in twice && twice[id].status == SUPERSEDED
  {
    var r1, r2 := StatusRequest(caller, id, REVOKED, ""), StatusRequest(caller, id, SUPERSEDED, next);
    StatusesAreTight();
    var s4 := BothAdmitted(lib, s, i, r1, j, r2, id);
    var once, twice := BothWrite(lib, s4, i, j, id);
    ExecSnoc(lib, s, BothRead(i, r1, j, r2), Run(i, CALM));
    ExecSnoc(lib, s, FirstWrites(i, r1, j, r2), Run(j, CALM));
  }

  lemma StatusesAreTight()
    ensures Trim(REVOKED) == REVOKED && Trim(SUPERSEDED) == SUPERSEDED && Trim("") == ""
  {
    TightIsFixed(REVOKED);
    TightIsFixed(SUPERSEDED);
    TightIsFixed("");
  }

  // Both requests arrive and read before either writes.
  lemma BothAdmitted(lib: Library, s: State, i: nat, r1: Request, j: nat, r2: Request, id: string) returns (s': State)
    requires WellShaped(s) && i !in s.procs && j !in s.procs && i != j
    requires r1.Status? && r1.idempotencyHeader == "" && Attributed(r1.caller) && ValidStatusChange(r1.status, r1.supersededBy)
    requires r2.Status? && r2.idempotencyHeader == "" && Attributed(r2.caller) && ValidStatusChange(r2.status, r2.supersededBy)
    requires r1.pathId == r2.pathId == id == Trim(id) && id in s.db.credentials && s.db.credentials[id].credentialId == id
    requires s.db.credentials[id].status == ACTIVE
    requires s.db.credentials[id].issuerId == r1.caller.organizationId == r2.caller.organizationId
    ensures s' == Exec(lib, s, BothRead(i, r1, j, r2))
    ensures WellShaped(s') && AboutToWrite(s', i, id) && AboutToWrite(s', j, id)
    ensures s'.procs[i].request == r1 && s'.procs[j].request == r2
  {
    var s2 := BothArrive(lib, s, i, r1, j, r2);
    s' := BothLoad(lib, s2, i, j, id);
    Unroll4(lib, s, BothRead(i, r1, j, r2));
  }
}
