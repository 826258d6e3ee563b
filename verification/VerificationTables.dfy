// The verification tables over whole runs, and what a completed verification row
// says about them.
module VerificationTables {
  import opened Text
  import opened Identifiers
  import opened Artifact
  import opened Requests
  import opened Tables
  import opened Handlers
  import opened System
  import opened Ownership
  import opened Progress
  import opened Numbering

  ghost predicate Grows(t: Tables, t': Tables) {
    && (forall id :: id in t.requests ==> id in t'.requests && t'.requests[id] == t.requests[id])
    && (forall id :: id in t.results ==> id in t'.results && t'.results[id] == t.results[id])
  }

  // The request row repeats the request, its evaluation time and the envelope's
  // credential; the result row repeats the verdict.
  predicate RecordFacts(t: Tables, p: Proc) {
    && (p.filed ==>
          && p.request.Verify? && p.envelope.Some? && Trim(p.id) in t.requests
          && var row := t.requests[Trim(p.id)];
          && row.credentialId == Trim(p.envelope.value.credentialId)
          && row.verifierId == Trim(p.request.caller.organizationId)
          && row.policyId == Trim(p.request.policyId)
          && row.requestedAt == p.at
          && row.caller == p.request.caller)
    && (p.stored ==>
          && p.verdict.Some? && Trim(p.id) in t.results
          && t.results[Trim(p.id)] == StoredResult(p.verdict.value))
  }

  ghost predicate AllRecordFacts(s: State) {
    forall pid :: pid in s.procs ==> RecordFacts(s.db, s.procs[pid])
  }

  ghost predicate StoredBy(s: State, id: string, pid: nat) {
    pid in s.procs && s.procs[pid].stored && Trim(s.procs[pid].id) == id
  }

  ghost predicate ResultsStored(s: State) {
    forall id :: id in s.db.results ==> exists pid :: StoredBy(s, id, pid)
  }

  ghost predicate Recorded(s: State) {
    && WellShaped(s)
    && AllOnTrack(s)
    && AllRecordFacts(s)
    && ResultsStored(s)
  }

  lemma StoreRequestFacts(lib: Library, t: Tables, p: Proc, env: Env)
    requires Shaped(p) && OnTrack(p) && RecordFacts(t, p) && p.pc.StoreRequest?
    ensures
      var r := StoreRequestStep(lib, t, p, env);
      RecordFacts(r.0, r.1) && Grows(t, r.0)
  {
  }

  // The row a verification files, column by column.
  lemma FilesExactly(lib: Library, t: Tables, p: Proc, env: Env)
    requires Shaped(p) && p.pc.StoreRequest? && Trim(p.id) !in t.requests
    ensures
      var t' := StoreRequestStep(lib, t, p, env).0;
      if env.fault.Refused? then t' == t
      else
        && t'.requests.Keys == t.requests.Keys + {Trim(p.id)}
        && var row := t'.requests[Trim(p.id)];
        && row.verificationId == Trim(p.id) && row.verifierId == Trim(p.request.caller.organizationId)
        && row.digest == Trim(Digest(lib, p.request.value))
        && row.credentialId == Trim(p.envelope.value.credentialId) && row.policyId == Trim(p.request.policyId)
        && row.requestedAt == p.at && row.caller == p.request.caller
        && row.idempotencyKey == Trim(p.request.idempotencyHeader)
  {
    TrimIdempotent(p.request.idempotencyHeader);
  }

  lemma StoreResultFacts(t: Tables, p: Proc, env: Env)
    requires Shaped(p) && OnTrack(p) && RecordFacts(t, p) && p.pc.StoreResult?
    ensures
      var r := StoreResultStep(t, p, env);
      && RecordFacts(r.0, r.1) && Grows(t, r.0)
      && (r.0.results.Keys == t.results.Keys || (r.1.stored && r.0.results.Keys == t.results.Keys + {Trim(r.1.id)}))
  {
  }

  lemma StepRecordFacts(lib: Library, t: Tables, p: Proc, env: Env)
    requires Shaped(p) && OnTrack(p) && RecordFacts(t, p)
    ensures
      var r := Step(lib, t, p, env);
      && RecordFacts(r.0, r.1) && Grows(t, r.0)
      && (p.stored ==> r.1.stored && r.1.id == p.id)
      && (r.0.results.Keys == t.results.Keys || (r.1.stored && r.0.results.Keys == t.results.Keys + {Trim(r.1.id)}))
  {
    FieldsFrame(lib, t, p, env);
    if p.pc.StoreRequest? {
      StoreRequestFacts(lib, t, p, env);
      ResultsFrame(lib, t, p, env);
    } else if p.pc.StoreResult? {
      StoreResultFacts(t, p, env);
    } else {
      RequestsFrame(lib, t, p, env);
      ResultsFrame(lib, t, p, env);
    }
  }

  lemma FactsStill(s: State, pid: nat, s': State)
    requires AllRecordFacts(s) && Grows(s.db, s'.db)
    requires pid in s'.procs && s'.procs == s.procs[pid := s'.procs[pid]]
    requires RecordFacts(s'.db, s'.procs[pid])
    ensures AllRecordFacts(s')
  {
  }

  lemma StillStored(s: State, pid: nat, s': State)
    requires ResultsStored(s)
    requires pid in s'.procs && s'.procs == s.procs[pid := s'.procs[pid]]
    requires pid in s.procs && s.procs[pid].stored ==> s'.procs[pid].stored && s'.procs[pid].id == s.procs[pid].id
    requires s'.db.results.Keys == s.db.results.Keys
             || (s'.procs[pid].stored && s'.db.results.Keys == s.db.results.Keys + {Trim(s'.procs[pid].id)})
    ensures ResultsStored(s')
  {
    forall id | id in s'.db.results.Keys ensures exists j :: StoredBy(s', id, j) {
      if id in s.db.results.Keys {
        var j :| StoredBy(s, id, j);
        assert StoredBy(s', id, j);
      } else {
        assert StoredBy(s', id, pid);
      }
    }
  }

  lemma RunRecorded(lib: Library, s: State, pid: nat, env: Env)
    requires Recorded(s) && pid in s.procs
    ensures Recorded(Next(lib, s, Run(pid, env))) && Grows(s.db, Next(lib, s, Run(pid, env)).db)
  {
    NextOnTrack(lib, s, Run(pid, env));
    StepRecordFacts(lib, s.db, s.procs[pid], env);
    FactsStill(s, pid, Next(lib, s, Run(pid, env)));
    StillStored(s, pid, Next(lib, s, Run(pid, env)));
  }

  lemma BeginRecordFacts(lib: Library, t: Tables, request: Request)
    ensures RecordFacts(t, Begin(lib, request))
  {
  }

  lemma ArriveRecorded(lib: Library, s: State, pid: nat, request: Request)
    requires Recorded(s)
    ensures Recorded(Next(lib, s, Arrive(pid, request)))
    ensures Grows(s.db, Next(lib, s, Arrive(pid, request)).db)
  {
    NextOnTrack(lib, s, Arrive(pid, request));
    if pid !in s.procs {
      BeginRecordFacts(lib, s.db, request);
      FactsStill(s, pid, Next(lib, s, Arrive(pid, request)));
      StillStored(s, pid, Next(lib, s, Arrive(pid, request)));
    }
  }

  lemma CrashRecorded(lib: Library, s: State, pid: nat)
    requires Recorded(s)
    ensures Recorded(Next(lib, s, Crash(pid))) && Grows(s.db, Next(lib, s, Crash(pid)).db)
  {
    if pid in s.procs {
      WithoutRecorded(s, pid);
    }
  }

  lemma WithoutRecorded(s: State, pid: nat)
    requires Recorded(s) && pid in s.procs
    ensures Recorded(Without(s, pid)) && Without(s, pid).db == s.db
  {
    WithoutOnTrack(s, pid);
    FactsStill(s, pid, Without(s, pid));
    StillStored(s, pid, Without(s, pid));
  }

  // Only the issuers change.
  lemma SetIssuersRecorded(lib: Library, s: State, issuers: map<string, Issuer>)
    requires Recorded(s)
    ensures Recorded(Next(lib, s, SetIssuers(issuers))) && Grows(s.db, Next(lib, s, SetIssuers(issuers)).db)
  {
    var s' := Next(lib, s, SetIssuers(issuers));
    NextOnTrack(lib, s, SetIssuers(issuers));
    SameStored(s, s');
    SameFacts(s, s');
  }

  lemma SameStored(s: State, s': State)
    requires ResultsStored(s) && s'.procs == s.procs && s'.db.results == s.db.results
    ensures ResultsStored(s')
  {
    forall id | id in s'.db.results ensures exists j :: StoredBy(s', id, j) {
      var j :| StoredBy(s, id, j);
      assert StoredBy(s', id, j);
    }
  }

  lemma SameFacts(s: State, s': State)
    requires AllRecordFacts(s) && s'.procs == s.procs
    requires s'.db.requests == s.db.requests && s'.db.results == s.db.results
    ensures AllRecordFacts(s')
  {
  }

  lemma NextRecorded(lib: Library, s: State, l: Label)
    requires Recorded(s)
    ensures Recorded(Next(lib, s, l)) && Grows(s.db, Next(lib, s, l).db)
  {
    match l
    case Arrive(pid, request) => ArriveRecorded(lib, s, pid, request);
    case Run(pid, env) =>
      if pid in s.procs {
        RunRecorded(lib, s, pid, env);
      }
    case Crash(pid) => CrashRecorded(lib, s, pid);
    case SetIssuers(issuers) => SetIssuersRecorded(lib, s, issuers);
  }

  lemma {:induction false} ExecRecorded(lib: Library, s: State, ls: seq<Label>)
    requires Recorded(s)
    ensures Recorded(Exec(lib, s, ls)) && Grows(s.db, Exec(lib, s, ls).db)
    decreases |ls|
  {
    if ls != [] {
      NextRecorded(lib, s, ls[0]);
      ExecRecorded(lib, Next(lib, s, ls[0]), ls[1..]);
    }
  }

  // In every run each result belongs to a stored request, and neither ever changes.
  lemma ResultsHaveRequests(lib: Library, issuers: map<string, Issuer>, ls: seq<Label>, ms: seq<Label>, id: string)
    requires id in Exec(lib, Start(issuers), ls).db.results
    ensures id in Exec(lib, Start(issuers), ls).db.requests
    ensures Grows(Exec(lib, Start(issuers), ls).db, Exec(lib, Start(issuers), ls + ms).db)
  {
    ExecRecorded(lib, Start(issuers), ls);
    ExecAppend(lib, Start(issuers), ls, ms);
    var s := Exec(lib, Start(issuers), ls);
    ExecRecorded(lib, s, ms);
    var pid :| StoredBy(s, id, pid);
  }

  // The stored response of a verification against its tables: a 201 repeats the
  // stored result, up to the trimming of columns; a 404 has a request and no
  // result.
  predicate Faithful(t: Tables, row: Row) {
    && row.resourceId in t.requests
    && (|| (&& row.statusCode == 201 && row.location == VerificationLocation(row.resourceId)
            && row.resourceId in t.results
            && row.body.VerificationBody?
            && var result := t.results[row.resourceId];
            && row.body.verificationId == result.verificationId == row.resourceId
            && Trim(row.body.credentialId) == t.requests[row.resourceId].credentialId
            && Trim(row.body.issuerId) == result.issuerId
            && row.body.decision == result.decision
            && row.body.reasons == result.reasons
            && row.body.evaluatedAt == result.evaluatedAt
            && row.body.credentialStatus == result.credentialStatus)
        || (&& row.statusCode == 404 && row.location == NoLocation
            && row.body == CredentialNotFoundBody
            && row.resourceId !in t.results))
  }

  lemma FaithfulRow(lib: Library, s: State, pid: nat, key: Key)
    requires Owned(s) && Recorded(s) && Numbered(lib, s)
    requires CompletedBy(s, key, pid) && s.procs[pid].request.Verify?
    ensures key in s.db.idempotency && Faithful(s.db, s.db.idempotency[key])
  {
    var p := s.procs[pid];
    assert Holds(p);
    var c := p.completion.value;
    assert OwnAnswer(p, c);
    IdentifiersAreTight("", p.number);
    if !p.stored && p.id in s.db.results {
      var other :| StoredBy(s, p.id, other);
      IdentifiersAreTight("", s.procs[other].number);
      SameIdSameProc(lib, s, pid, other);
    }
  }

  // In every run and at every later point of it, each completed verification row
  // is faithful to the tables; in particular a 404 never gains a result.
  lemma CompletedVerificationsFaithful(lib: Library, issuers: map<string, Issuer>, ls: seq<Label>, key: Key)
    requires
      var t := Exec(lib, Start(issuers), ls).db.idempotency;
      key in t && t[key].state.Completed? && key.op == CreateVerification
    ensures Faithful(Exec(lib, Start(issuers), ls).db, Exec(lib, Start(issuers), ls).db.idempotency[key])
  {
    RunsAreOwned(lib, issuers, ls);
    ExecRecorded(lib, Start(issuers), ls);
    ExecNumbered(lib, Start(issuers), ls);
    ExecKeyed(lib, Start(issuers), ls);
    var s := Exec(lib, Start(issuers), ls);
    var pid :| CompletedBy(s, key, pid);
    FaithfulRow(lib, s, pid, key);
  }

  // The key of a request names its operation.
  ghost predicate AllKeyed(s: State) {
    forall pid :: pid in s.procs && s.procs[pid].key.Some? ==> s.procs[pid].key.value.op == s.procs[pid].request.Op()
  }

  lemma {:induction false} ExecKeyed(lib: Library, s: State, ls: seq<Label>)
    requires WellShaped(s) && AllKeyed(s)
    ensures AllKeyed(Exec(lib, s, ls))
    decreases |ls|
  {
    if ls != [] {
      NextKeyed(lib, s, ls[0]);
      ExecKeyed(lib, Next(lib, s, ls[0]), ls[1..]);
    }
  }

  lemma NextKeyed(lib: Library, s: State, l: Label)
    requires WellShaped(s) && AllKeyed(s)
    ensures AllKeyed(Next(lib, s, l))
  {
    if l.Arrive? {
      BeginKeyed(lib, l.request);
    }
  }

  lemma BeginKeyed(lib: Library, request: Request)
    ensures
      var p := Begin(lib, request);
      p.request == request && (p.key.Some? ==> p.key.value.op == request.Op())
  {
  }
}
