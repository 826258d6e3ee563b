// The handlers as the services write them: one request at a time against the
// store object, with the reservationOpen flag and the deferred release. Each
// handler is proved to be the run of its process with nothing in between.
module Serial {
  import opened Text
  import opened Identifiers
  import opened Artifact
  import opened Requests
  import opened Tables
  import opened Evaluation
  import opened Handlers
  import opened Store

  // One request run alone, one surrounding per step, until it is done or the list
  // of surroundings ends.
  ghost function Drive(lib: Library, t: Tables, p: Proc, envs: seq<Env>): (r: (Tables, Proc))
    requires Shaped(p)
    ensures Shaped(r.1)
    decreases |envs|
  {
    if p.pc.Done? || envs == [] then (t, p)
    else
      var (t', q) := Step(lib, t, p, envs[0]);
      Drive(lib, t', q, envs[1..])
  }

  // Where a run stands: the tables, the process, and the surroundings still to come.
  datatype Point = Point(t: Tables, p: Proc, envs: seq<Env>)

  ghost predicate Same(lib: Library, a: Point, b: Point)
    requires Shaped(a.p) && Shaped(b.p)
  {
    Drive(lib, a.t, a.p, a.envs) == Drive(lib, b.t, b.p, b.envs)
  }

  lemma OneStep(lib: Library, t: Tables, p: Proc, envs: seq<Env>)
    requires Shaped(p) && !p.pc.Done? && envs != []
    ensures
      var r := Step(lib, t, p, envs[0]);
      Same(lib, Point(t, p, envs), Point(r.0, r.1, envs[1..]))
  {
  }

  lemma AtTheEnd(lib: Library, t: Tables, p: Proc, envs: seq<Env>)
    requires p.pc.Done?
    ensures Drive(lib, t, p, envs) == (t, p)
  {
  }

  // The reservation alone: its INSERT, and its SELECT when that conflicted.
  lemma ReserveSteps(lib: Library, t: Tables, p: Proc, envs: seq<Env>)
    requires p.pc.ReserveInsert? && Shaped(p) && |envs| >= 2
    ensures
      var r := ReserveInsertStep(t, p, envs[0]);
      var s := if r.1.pc.ReserveSelect? then ReserveSelectStep(r.0, r.1, envs[1]) else r;
      Same(lib, Point(t, p, envs), Point(s.0, s.1, envs[1..]))
  {
    var r := ReserveInsertStep(t, p, envs[0]);
    OneStep(lib, t, p, envs);
    if r.1.pc.ReserveSelect? {
      var s := ReserveSelectStep(r.0, r.1, envs[1]);
      OneStep(lib, r.0, r.1, envs[1..]);
      AtTheEnd(lib, s.0, s.1, envs[1..]);
      AtTheEnd(lib, s.0, s.1, envs[1..][1..]);
    }
  }

  // An answer sent under a key is the response stored under it.
  ghost predicate SentIsStored(t: Tables, key: Option<Key>, reply: Reply) {
    key.Some? && reply.Answered? ==>
      && key.value in t.idempotency
      && t.idempotency[key.value] == CompletedRow(t.idempotency[key.value].fingerprint, reply.c)
  }

  ghost predicate HasRow(t: Tables, key: Option<Key>) {
    key.Some? ==> key.value in t.idempotency
  }

  // The reservation helper: an early reply, or none when the key was won.
  method Reserve(lib: Library, store: SqlStore, key: Key, fingerprint: string, ghost p: Proc, envs: seq<Env>)
    returns (early: Option<Reply>, ghost q: Proc)
    requires p.pc.ReserveInsert? && p.key == Some(key) && p.fingerprint == fingerprint && |envs| >= 2
    modifies store`idempotency
    ensures q == p.(pc := if early.None? then FirstWork(p.request) else Done(early.value))
    ensures if early.None? then key in store.idempotency else !early.value.Answered?
    ensures Same(lib, Point(old(store.Contents()), p, envs), Point(store.Contents(), q, envs[1..]))
  {
    ReserveSteps(lib, store.Contents(), p, envs);
    early := store.ReserveIdempotencyRecord(key, fingerprint, envs[0].fault, envs[1].fault);
    q := p.(pc := if early.None? then FirstWork(p.request) else Done(early.value));
  }

  // The end of a handler: store the response under the key, if there is one. The
  // reservation stays open when that fails.
  method Complete(lib: Library, store: SqlStore, key: Option<Key>, c: Completion, ghost p: Proc, envs: seq<Env>)
    returns (reply: Reply, reservationOpen: bool, ghost q: Proc, rest: seq<Env>)
    requires Shaped(p) && p.key == key && p.pc == (if key.Some? then Completing(c) else Done(Answered(c))) && |envs| >= 1
    modifies store`idempotency
    ensures Shaped(q) && q.key == key && q.pc == if reservationOpen then Releasing(reply) else Done(reply)
    ensures rest == envs[1..]
    ensures HasRow(old(store.Contents()), key) ==> SentIsStored(store.Contents(), key, reply)
    ensures Same(lib, Point(old(store.Contents()), p, envs), Point(store.Contents(), q, rest))
  {
    reply, reservationOpen, q, rest := Answered(c), false, p, envs[1..];
    if key.Some? {
      OneStep(lib, store.Contents(), p, envs);
      q := CompletingStep(store.Contents(), p, envs[0]).1;
      var written := store.CompleteIdempotencyRecord(key.value, c, envs[0].fault);
      if !written.Updated? {
        reply, reservationOpen := Failed(PersistenceError), true;
      }
    } else {
      AtTheEnd(lib, store.Contents(), p, envs);
      AtTheEnd(lib, store.Contents(), p, rest);
    }
  }

  // The deferred function of every handler.
  method Deferred(lib: Library, store: SqlStore, key: Option<Key>, reservationOpen: bool, reply: Reply, ghost p: Proc, envs: seq<Env>)
    returns (ghost q: Proc)
    requires Shaped(p) && p.key == key && p.pc == (if reservationOpen then Releasing(reply) else Done(reply)) && |envs| >= 1
    modifies store`idempotency
    ensures q == p.(pc := Done(reply))
    ensures SentIsStored(old(store.Contents()), key, reply) ==> SentIsStored(store.Contents(), key, reply)
    ensures Drive(lib, old(store.Contents()), p, envs) == (store.Contents(), q)
  {
    q := p.(pc := Done(reply));
    if reservationOpen {
      OneStep(lib, store.Contents(), p, envs);
      store.ReleaseIdempotencyRecord(key.value, envs[0].fault);
      AtTheEnd(lib, store.Contents(), q, envs[1..]);
    } else {
      AtTheEnd(lib, store.Contents(), p, envs);
    }
  }

  // Where an early return of the work leaves the handler.
  ghost predicate Stopped(q: Proc, key: Option<Key>, reply: Reply, reservationOpen: bool) {
    Shaped(q) && q.key == key && q.pc == if reservationOpen then Releasing(reply) else Done(reply)
  }

  method IssueWork(lib: Library, store: SqlStore, request: Request, key: Option<Key>, ghost p: Proc, envs: seq<Env>)
    returns (reply: Reply, reservationOpen: bool, ghost q: Proc, rest: seq<Env>)
    requires Shaped(p) && p.pc.Allocate? && p.request == request && request.Issue? && p.key == key && |envs| >= 4
    modifies store`idempotency, store`sequences, store`credentials
    ensures Stopped(q, key, reply, reservationOpen) && |rest| >= |envs| - 3
    ensures HasRow(old(store.Contents()), key) ==> SentIsStored(store.Contents(), key, reply)
    ensures Same(lib, Point(old(store.Contents()), p, envs), Point(store.Contents(), q, rest))
  {
    OneStep(lib, store.Contents(), p, envs);
    q := AllocateStep(lib, store.Contents(), p, envs[0]).1;
    var n, id := store.NextCredentialId(request.templateId, envs[0].fault);
    rest := envs[1..];
    if n.None? {
      return Failed(PersistenceError), key.Some?, q, rest;
    }
    reply, reservationOpen, q, rest := Mint(lib, store, NewCredential(lib, request, id), key, q, rest);
  }

  method Mint(lib: Library, store: SqlStore, c: Credential, key: Option<Key>, ghost p: Proc, envs: seq<Env>)
    returns (reply: Reply, reservationOpen: bool, ghost q: Proc, rest: seq<Env>)
    requires Shaped(p) && p.pc.CreateCredential? && c == NewCredential(lib, p.request, p.id) && p.key == key && |envs| >= 3
    modifies store`idempotency, store`credentials
    ensures Stopped(q, key, reply, reservationOpen) && |rest| >= |envs| - 2
    ensures HasRow(old(store.Contents()), key) ==> SentIsStored(store.Contents(), key, reply)
    ensures Same(lib, Point(old(store.Contents()), p, envs), Point(store.Contents(), q, rest))
  {
    OneStep(lib, store.Contents(), p, envs);
    q := CreateCredentialStep(lib, store.Contents(), p, envs[0]).1;
    var ok := store.CreateCredentialRecord(c, envs[0].fault);
    rest := envs[1..];
    if !ok {
      return Failed(PersistenceError), key.Some?, q, rest;
    }
    reply, reservationOpen, q, rest := Complete(lib, store, key, IssuedCompletion(c), q, rest);
  }

  // POST of a credential.
  method IssueCredential(lib: Library, store: SqlStore, request: Request, envs: seq<Env>)
    returns (reply: Reply, ghost q: Proc)
    requires request.Issue? && |envs| >= 7
    modifies store
    ensures Drive(lib, old(store.Contents()), Begin(lib, request), envs) == (store.Contents(), q)
    ensures q.pc == Done(reply)
    ensures SentIsStored(store.Contents(), KeyOf(request), reply)
  {
    ghost var p := Begin(lib, request);
    if !Attributed(request.caller) || !Valid(lib, request) {
      reply := if !Attributed(request.caller) then Failed(Unauthenticated) else Failed(InvalidRequest);
      AtTheEnd(lib, store.Contents(), p, envs);
      return reply, p;
    }
    OneStep(lib, store.Contents(), p, envs);
    ghost var loaded := LoadIssuerStep(store.Contents(), p, envs[0]).1;
    var issuer := store.GetIssuerRecord(request.caller.organizationId, envs[0].fault);
    if !issuer.Found? || request.templateId !in issuer.value.allowedTemplates {
      reply := if !issuer.Found? then Failed(UntrustedIssuer) else Failed(UnsupportedTemplate);
      AtTheEnd(lib, store.Contents(), loaded, envs[1..]);
      return reply, loaded;
    }
    reply, q := IssueAdmitted(lib, store, request, KeyOf(request), loaded, envs[1..]);
  }

  method IssueAdmitted(lib: Library, store: SqlStore, request: Request, key: Option<Key>, ghost p: Proc, envs: seq<Env>)
    returns (reply: Reply, ghost q: Proc)
    requires Shaped(p) && p.request == request && request.Issue? && p.key == key && |envs| >= 6
    requires p.fingerprint == Fingerprint(lib, request)
    requires p.pc == if key.Some? then ReserveInsert else Allocate
    modifies store
    ensures Drive(lib, old(store.Contents()), p, envs) == (store.Contents(), q)
    ensures q.pc == Done(reply)
    ensures SentIsStored(store.Contents(), key, reply)
  {
    var reservationOpen := false;
    var rest := envs;
    q := p;
    if key.Some? {
      var early;
      early, q := Reserve(lib, store, key.value, Fingerprint(lib, request), p, envs);
      rest := envs[1..];
      if early.Some? {
        AtTheEnd(lib, store.Contents(), q, rest);
        return early.value, q;
      }
      reservationOpen := true;
    }
    reply, reservationOpen, q, rest := IssueWork(lib, store, request, key, q, rest);
    q := Deferred(lib, store, key, reservationOpen, reply, q, rest);
  }

  method StatusWork(lib: Library, store: SqlStore, request: Request, key: Option<Key>, ghost p: Proc, envs: seq<Env>)
    returns (reply: Reply, reservationOpen: bool, ghost q: Proc, rest: seq<Env>)
    requires Shaped(p) && p.pc.LoadCredential? && p.request == request && p.key == key && |envs| >= 4
    modifies store`idempotency, store`credentials
    ensures Stopped(q, key, reply, reservationOpen) && |rest| >= |envs| - 3
    ensures HasRow(old(store.Contents()), key) ==> SentIsStored(store.Contents(), key, reply)
    ensures Same(lib, Point(old(store.Contents()), p, envs), Point(store.Contents(), q, rest))
  {
    OneStep(lib, store.Contents(), p, envs);
    q := LoadCredentialStep(store.Contents(), p, envs[0]).1;
    var found := store.GetCredentialRecord(request.pathId, envs[0].fault);
    reservationOpen, rest := key.Some?, envs[1..];
    match found
    case Unreadable => reply := Failed(PersistenceError);
    case Absent => reply := Failed(UnknownCredential);
    case Found(record) =>
      if record.issuerId != request.caller.organizationId {
        reply := Failed(UnknownCredential);
      } else if record.status != ACTIVE {
        reply := Failed(InvalidTransition);
      } else {
        reply, reservationOpen, q, rest := ChangeStatus(lib, store, record, request, key, q, rest);
      }
  }

  method ChangeStatus(lib: Library, store: SqlStore, record: Credential, request: Request, key: Option<Key>, ghost p: Proc, envs: seq<Env>)
    returns (reply: Reply, reservationOpen: bool, ghost q: Proc, rest: seq<Env>)
    requires Shaped(p) && p.pc.WriteStatusRow? && p.request == request && p.key == key && |envs| >= 3
    requires p.read.value.record == record
    modifies store`idempotency, store`credentials
    ensures Stopped(q, key, reply, reservationOpen) && |rest| >= |envs| - 2
    ensures HasRow(old(store.Contents()), key) ==> SentIsStored(store.Contents(), key, reply)
    ensures Same(lib, Point(old(store.Contents()), p, envs), Point(store.Contents(), q, rest))
  {
    OneStep(lib, store.Contents(), p, envs);
    q := WriteStatusStep(store.Contents(), p, envs[0]).1;
    var now := envs[0].now;
    var written := store.UpdateCredentialStatus(record.credentialId, request.status, now, request.supersededBy, envs[0].fault);
    rest := envs[1..];
    match written
    case NoSuchRow => reply, reservationOpen := Failed(UnknownCredential), key.Some?;
    case WriteFailed => reply, reservationOpen := Failed(PersistenceError), key.Some?;
    case Updated =>
      reply, reservationOpen, q, rest := Complete(lib, store, key, StatusCompletion(record, request, now), q, rest);
  }

  // POST of a status change.
  method UpdateCredentialStatus(lib: Library, store: SqlStore, request: Request, envs: seq<Env>)
    returns (reply: Reply, ghost q: Proc)
    requires request.Status? && |envs| >= 6
    modifies store
    ensures Drive(lib, old(store.Contents()), Begin(lib, request), envs) == (store.Contents(), q)
    ensures q.pc == Done(reply)
    ensures SentIsStored(store.Contents(), KeyOf(request), reply)
  {
    q := Begin(lib, request);
    if !Attributed(request.caller) || !Valid(lib, request) {
      reply := if !Attributed(request.caller) then Failed(Unauthenticated) else Failed(InvalidRequest);
      AtTheEnd(lib, store.Contents(), q, envs);
      return;
    }
    var key, reservationOpen, rest := KeyOf(request), false, envs;
    if key.Some? {
      var early;
      early, q := Reserve(lib, store, key.value, Fingerprint(lib, request), q, envs);
      rest := envs[1..];
      if early.Some? {
        AtTheEnd(lib, store.Contents(), q, rest);
        return early.value, q;
      }
      reservationOpen := true;
    }
    reply, reservationOpen, q, rest := StatusWork(lib, store, request, key, q, rest);
    q := Deferred(lib, store, key, reservationOpen, reply, q, rest);
  }

  // Allocation, the evaluation time, the envelope and the request row.
  method OpenVerification(lib: Library, store: SqlStore, request: Request, key: Option<Key>, ghost p: Proc, envs: seq<Env>)
    returns (failed: Option<Failure>, id: string, at: int, envelope: Option<Envelope>, ghost q: Proc, rest: seq<Env>)
    requires Shaped(p) && p.pc.Allocate? && p.request == request && request.Verify? && p.key == key && |envs| >= 2
    modifies store`sequences, store`requests
    ensures Shaped(q) && q.key == key && q.request == request && |rest| >= |envs| - 2
    ensures failed.Some? ==> Stopped(q, key, Failed(failed.value), key.Some?)
    ensures failed.None? ==> q.pc.FindByDigest? && q.id == id && q.at == at && q.envelope == envelope
    ensures Same(lib, Point(old(store.Contents()), p, envs), Point(store.Contents(), q, rest))
  {
    OneStep(lib, store.Contents(), p, envs);
    q := AllocateStep(lib, store.Contents(), p, envs[0]).1;
    var n;
    n, id := store.NextVerificationId(envs[0].fault);
    at, envelope, rest := 0, None, envs[1..];
    if n.None? {
      failed := Some(PersistenceError);
      return;
    }
    at := EvaluatedAt(id);
    envelope := Parse(lib, request.value);
    if envelope.None? {
      failed := Some(InvalidRequest);
      return;
    }
    failed, q := FileRequest(lib, store, request, id, at, envelope.value, key, q, rest);
    rest := rest[1..];
  }

  method FileRequest(
    lib: Library, store: SqlStore, request: Request, id: string, at: int, envelope: Envelope, key: Option<Key>,
    ghost p: Proc, envs: seq<Env>) returns (failed: Option<Failure>, ghost q: Proc)
    requires Shaped(p) && p.pc.StoreRequest? && p.request == request && p.key == key && |envs| >= 1
    requires request.Verify? && p.id == id && p.at == at && p.envelope == Some(envelope)
    modifies store`requests
    ensures Shaped(q) && q.key == key && q.request == request && q.id == id && q.at == at && q.envelope == Some(envelope)
    ensures if failed.Some? then Stopped(q, key, Failed(failed.value), key.Some?) else q.pc.FindByDigest?
    ensures Same(lib, Point(old(store.Contents()), p, envs), Point(store.Contents(), q, envs[1..]))
  {
    OneStep(lib, store.Contents(), p, envs);
    q := StoreRequestStep(lib, store.Contents(), p, envs[0]).1;
    var record := RequestRecord(id, request.caller.organizationId, Digest(lib, request.value), envelope.credentialId,
                                request.policyId, at, request.caller, Trim(request.idempotencyHeader));
    var ok := store.CreateVerificationRequestRecord(record, envs[0].fault);
    failed := if ok then None else Some(PersistenceError);
  }

  // By digest first; on any failure by the envelope's identifier.
  method ResolveCredential(lib: Library, store: SqlStore, value: string, credentialId: string, ghost p: Proc, envs: seq<Env>)
    returns (found: Option<ReadBack>, ghost q: Proc, rest: seq<Env>)
    requires Shaped(p) && p.pc.FindByDigest? && p.request.value == value && p.envelope.value.credentialId == credentialId
    requires |envs| >= 2 && UniqueDigests(store.Contents())
    ensures Shaped(q) && |rest| >= |envs| - 2
    ensures q == if found.Some? then p.(pc := Judge, read := found) else Finish(p, NotFoundCompletion(p.id))
    ensures Same(lib, Point(store.Contents(), p, envs), Point(store.Contents(), q, rest))
  {
    OneStep(lib, store.Contents(), p, envs);
    q := FindByDigestStep(lib, store.Contents(), p, envs[0]).1;
    var byDigest := store.GetCredentialRecordByArtifactDigest(Digest(lib, value), envs[0].fault);
    rest := envs[1..];
    if byDigest.Found? {
      return Some(ReadBack(byDigest.value, true)), q, rest;
    }
    OneStep(lib, store.Contents(), q, rest);
    q := FindByIdStep(store.Contents(), q, rest[0]).1;
    var byId := store.GetCredentialRecord(credentialId, rest[0].fault);
    rest := rest[1..];
    found := if byId.Found? then Some(ReadBack(byId.value, false)) else None;
  }

  method DecideAndStore(
    lib: Library, store: SqlStore, request: Request, id: string, at: int, envelope: Envelope, read: ReadBack,
    key: Option<Key>, ghost p: Proc, envs: seq<Env>)
    returns (reply: Reply, reservationOpen: bool, ghost q: Proc, rest: seq<Env>)
    requires Shaped(p) && p.pc.Judge? && p.request == request && p.key == key && |envs| >= 4
    requires request.Verify? && p.id == id && p.at == at && p.envelope == Some(envelope) && p.read == Some(read)
    modifies store`idempotency, store`results
    ensures Stopped(q, key, reply, reservationOpen) && |rest| >= |envs| - 3
    ensures HasRow(old(store.Contents()), key) ==> SentIsStored(store.Contents(), key, reply)
    ensures Same(lib, Point(old(store.Contents()), p, envs), Point(store.Contents(), q, rest))
  {
    OneStep(lib, store.Contents(), p, envs);
    q := JudgeStep(lib, store.Contents(), p, envs[0]).1;
    var result := EvaluateVerification(lib, request.policyId, request.credentialId, envelope, read.record, read.byDigest,
                                       id, at, envs[0].trust);
    reply, reservationOpen, q, rest := StoreVerdict(lib, store, result, envelope.credentialId, key, q, envs[1..]);
  }

  method StoreVerdict(
    lib: Library, store: SqlStore, result: ResultRecord, credentialId: string, key: Option<Key>, ghost p: Proc, envs: seq<Env>)
    returns (reply: Reply, reservationOpen: bool, ghost q: Proc, rest: seq<Env>)
    requires Shaped(p) && p.pc.StoreResult? && p.verdict == Some(result) && p.key == key && |envs| >= 3
    requires p.envelope.value.credentialId == credentialId
    modifies store`idempotency, store`results
    ensures Stopped(q, key, reply, reservationOpen) && |rest| >= |envs| - 2
    ensures HasRow(old(store.Contents()), key) ==> SentIsStored(store.Contents(), key, reply)
    ensures Same(lib, Point(old(store.Contents()), p, envs), Point(store.Contents(), q, rest))
  {
    OneStep(lib, store.Contents(), p, envs);
    q := StoreResultStep(store.Contents(), p, envs[0]).1;
    var ok := store.CreateVerificationResultRecord(result, envs[0].fault);
    rest := envs[1..];
    if !ok {
      return Failed(PersistenceError), key.Some?, q, rest;
    }
    reply, reservationOpen, q, rest := Complete(lib, store, key, ResultCompletion(result, credentialId), q, rest);
  }

  method VerifyWork(lib: Library, store: SqlStore, request: Request, key: Option<Key>, ghost p: Proc, envs: seq<Env>)
    returns (reply: Reply, reservationOpen: bool, ghost q: Proc, rest: seq<Env>)
    requires Shaped(p) && p.pc.Allocate? && p.request == request && request.Verify? && p.key == key && |envs| >= 8
    requires UniqueDigests(store.Contents())
    modifies store`idempotency, store`sequences, store`requests, store`results
    ensures Stopped(q, key, reply, reservationOpen) && |rest| >= 1
    ensures HasRow(old(store.Contents()), key) ==> SentIsStored(store.Contents(), key, reply)
    ensures Same(lib, Point(old(store.Contents()), p, envs), Point(store.Contents(), q, rest))
  {
    var failed, id, at, envelope, q0, rest0 := OpenVerification(lib, store, request, key, p, envs);
    if failed.Some? {
      return Failed(failed.value), key.Some?, q0, rest0;
    }
    var found, q1, rest1 := ResolveCredential(lib, store, request.value, envelope.value.credentialId, q0, rest0);
    if found.Some? {
      reply, reservationOpen, q, rest :=
        DecideAndStore(lib, store, request, id, at, envelope.value, found.value, key, q1, rest1);
    } else {
      reply, reservationOpen, q, rest := Complete(lib, store, key, NotFoundCompletion(id), q1, rest1);
    }
  }

  // POST of a verification.
  method CreateVerification(lib: Library, store: SqlStore, request: Request, envs: seq<Env>)
    returns (reply: Reply, ghost q: Proc)
    requires request.Verify? && |envs| >= 10
    requires UniqueDigests(store.Contents())
    modifies store
    ensures Drive(lib, old(store.Contents()), Begin(lib, request), envs) == (store.Contents(), q)
    ensures q.pc == Done(reply)
    ensures SentIsStored(store.Contents(), KeyOf(request), reply)
  {
    q := Begin(lib, request);
    if !Attributed(request.caller) || !Valid(lib, request) {
      reply := if !Attributed(request.caller) then Failed(Unauthenticated) else Failed(InvalidRequest);
      AtTheEnd(lib, store.Contents(), q, envs);
      return;
    }
    var key, reservationOpen, rest := KeyOf(request), false, envs;
    if key.Some? {
      var early;
      early, q := Reserve(lib, store, key.value, Fingerprint(lib, request), q, envs);
      rest := envs[1..];
      if early.Some? {
        AtTheEnd(lib, store.Contents(), q, rest);
        return early.value, q;
      }
      reservationOpen := true;
    }
    reply, reservationOpen, q, rest := VerifyWork(lib, store, request, key, q, rest);
    q := Deferred(lib, store, key, reservationOpen, reply, q, rest);
  }
}
