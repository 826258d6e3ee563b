// The three write handlers as processes: between two steps of one process any
// other process may run. A step is one SQL call together with the pure code up to
// the next one.
module Handlers {
  import opened Text
  import opened Identifiers
  import opened Artifact
  import opened Requests
  import opened Tables
  import opened Evaluation

  datatype Failure =
    | Unauthenticated | InvalidRequest | UntrustedIssuer | UnsupportedTemplate | PersistenceError
    | IdempotencyInProgress | IdempotencyConflict | UnknownCredential | InvalidTransition

  // What the client is told. Answered: the handler's own result. Replayed: the
  // stored response of an earlier request.
  datatype Reply = Answered(c: Completion) | Replayed(row: Row) | Failed(why: Failure) | Crashed

  datatype PC =
    | LoadIssuer
    | ReserveInsert
    | ReserveSelect
    | Allocate
    | CreateCredential
    | LoadCredential
    | WriteStatusRow
    | StoreRequest
    | FindByDigest
    | FindById
    | Judge
    | StoreResult
    | Completing(c: Completion)
    | Releasing(reply: Reply)
    | Done(reply: Reply)

  // The credential row a handler read, and whether the digest index found it.
  datatype ReadBack = ReadBack(record: Credential, byDigest: bool)

  // An in-flight request. Everything but the program counter is set once: number
  // is the sequence number it drew (0 before), id the identifier printed from it,
  // at the evaluation time, minted the credential row its INSERT wrote, read the
  // row it read, verdict the result it computed, filed and stored whether its
  // request row and its result row were written, completion the response its
  // UPDATE stored in the idempotency table.
  datatype Proc = Proc(
    request: Request,
    key: Option<Key>,
    fingerprint: string,
    pc: PC,
    number: nat,
    id: string,
    at: int,
    envelope: Option<Envelope>,
    read: Option<ReadBack>,
    verdict: Option<ResultRecord>,
    minted: Option<Credential>,
    filed: bool,
    stored: bool,
    completion: Option<Completion>)

  // One step's surroundings: how its SQL call goes, the wall clock, and the
  // answer of the trust registry.
  datatype Env = Env(fault: Fault, now: int, trust: TrustRead)

  // The reservation is open from the winning INSERT until the deferred release.
  predicate OpenAt(pc: PC) {
    match pc
    case LoadIssuer => false
    case ReserveInsert => false
    case ReserveSelect => false
    case Done(_) => false
    case _ => true
  }

  predicate Open(p: Proc) {
    p.key.Some? && OpenAt(p.pc)
  }

  // Which fields a program counter relies on. Every process of a run has them.
  predicate Shaped(p: Proc) {
    match p.pc
    case LoadIssuer => p.request.Issue?
    case ReserveInsert => p.key.Some?
    case ReserveSelect => p.key.Some?
    case Allocate => !p.request.Status?
    case CreateCredential => p.request.Issue?
    case LoadCredential => p.request.Status?
    case WriteStatusRow => p.request.Status? && p.read.Some?
    case StoreRequest => p.request.Verify? && p.envelope.Some?
    case FindByDigest => p.request.Verify? && p.envelope.Some?
    case FindById => p.request.Verify? && p.envelope.Some?
    case Judge => p.request.Verify? && p.envelope.Some? && p.read.Some?
    case StoreResult => p.request.Verify? && p.envelope.Some? && p.read.Some? && p.verdict.Some?
    case Completing(_) => p.key.Some?
    case Releasing(_) => p.key.Some?
    case Done(_) => true
  }

  // The identity of a request never changes.
  predicate SameRequest(p: Proc, q: Proc) {
    q.request == p.request && q.key == p.key && q.fingerprint == p.fingerprint
  }

  // A step that leaves the idempotency table and the reservation alone.
  predicate Quiet(t: Tables, p: Proc, t': Tables, q: Proc) {
    && SameRequest(p, q)
    && Shaped(q)
    && t'.idempotency == t.idempotency
    && q.completion == p.completion
    && Open(q) == Open(p)
  }

  function FirstWork(request: Request): (pc: PC)
    ensures OpenAt(pc)
  {
    match request
    case Issue(_, _, _, _, _) => Allocate
    case Status(_, _, _, _, _) => LoadCredential
    case Verify(_, _, _, _, _, _, _) => Allocate
  }

  function Reserving(p: Proc): Proc {
    p.(pc := if p.key.Some? then ReserveInsert else FirstWork(p.request))
  }

  function Begin(lib: Library, request: Request): Proc {
    var p := Proc(request, KeyOf(request), Fingerprint(lib, request), Done(Failed(InvalidRequest)),
                  0, "", 0, None, None, None, None, false, false, None);
    if !Attributed(request.caller) then p.(pc := Done(Failed(Unauthenticated)))
    else if !Valid(lib, request) then p
    else if request.Issue? then p.(pc := LoadIssuer)
    else Reserving(p)
  }

  // An early return: with a reservation the deferred release still has to run.
  function Leave(p: Proc, reply: Reply): (q: Proc)
    ensures Shaped(q) && q == p.(pc := q.pc) && (p.key.Some? ==> q.pc == Releasing(reply))
  {
    p.(pc := if p.key.Some? then Releasing(reply) else Done(reply))
  }

  function Abort(p: Proc, why: Failure): Proc {
    Leave(p, Failed(why))
  }

  // The handler has its answer; with a key it is stored before it is sent.
  function Finish(p: Proc, c: Completion): (q: Proc)
    ensures Shaped(q) && q == p.(pc := q.pc) && (p.key.Some? ==> q.pc == Completing(c))
  {
    p.(pc := if p.key.Some? then Completing(c) else Done(Answered(c)))
  }

  function LoadIssuerStep(t: Tables, p: Proc, env: Env): (r: (Tables, Proc))
    requires p.pc.LoadIssuer? && Shaped(p)
    ensures Quiet(t, p, r.0, r.1)
    ensures r.0 == t && r.1 == p.(pc := r.1.pc)
  {
    var org := Trim(p.request.caller.organizationId);
    if Errs(env.fault) || org !in t.issuers then (t, p.(pc := Done(Failed(UntrustedIssuer))))
    else if p.request.templateId !in t.issuers[org].allowedTemplates then (t, p.(pc := Done(Failed(UnsupportedTemplate))))
    else (t, Reserving(p))
  }

  function ReserveInsertStep(t: Tables, p: Proc, env: Env): (r: (Tables, Proc))
    requires p.pc.ReserveInsert? && Shaped(p)
    ensures SameRequest(p, r.1) && Shaped(r.1)
    ensures r.0 == t.(idempotency := r.0.idempotency) && r.1 == p.(pc := r.1.pc)
  {
    var (t', report) := InsertReservation(t, p.key.value, p.fingerprint, env.fault);
    match report
    case Inserted => (t', p.(pc := FirstWork(p.request)))
    case NotInserted => (t', p.(pc := ReserveSelect))
    case InsertFailed => (t', p.(pc := Done(Failed(PersistenceError))))
  }

  // How an existing row answers a reservation.
  function AnswerFrom(row: Row, fingerprint: string): Reply {
    if Trim(row.fingerprint) != Trim(fingerprint) then Failed(IdempotencyConflict)
    else if row.state.Completed? then Replayed(row)
    else Failed(IdempotencyInProgress)
  }

  function ReserveSelectStep(t: Tables, p: Proc, env: Env): (r: (Tables, Proc))
    requires p.pc.ReserveSelect? && Shaped(p)
    ensures Quiet(t, p, r.0, r.1)
    ensures r.0 == t && r.1 == p.(pc := r.1.pc)
  {
    match SelectReservation(t, p.key.value, env.fault)
    case Found(row) => (t, p.(pc := Done(AnswerFrom(row, p.fingerprint))))
    case Absent => (t, p.(pc := Done(Failed(PersistenceError))))
    case Unreadable => (t, p.(pc := Done(Failed(PersistenceError))))
  }

  function IssuerOf(request: Request): string {
    Trim(request.caller.organizationId)
  }

  function AllocateStep(lib: Library, t: Tables, p: Proc, env: Env): (r: (Tables, Proc))
    requires p.pc.Allocate? && Shaped(p)
    ensures Quiet(t, p, r.0, r.1)
    ensures r.0 == t.(sequences := r.0.sequences)
    ensures r.1 == p.(pc := r.1.pc, number := r.1.number, id := r.1.id, at := r.1.at, envelope := r.1.envelope)
  {
    if p.request.Issue? then
      match AdvanceSequence(t, CredentialSequence, env.fault)
      case (t', None) => (t', Abort(p, PersistenceError))
      case (t', Some(n)) =>
        (t', p.(pc := CreateCredential, number := n, id := FormatCredentialId(p.request.templateId, n)))
    else
      match AdvanceSequence(t, VerificationSequence, env.fault)
      case (t', None) => (t', Abort(p, PersistenceError))
      case (t', Some(n)) =>
        var id := FormatVerificationId(n);
        var envelope := Parse(lib, p.request.value);
        var q := p.(number := n, id := id, at := EvaluatedAt(id), envelope := envelope);
        (t', if envelope.None? then Abort(q, InvalidRequest) else q.(pc := StoreRequest))
  }

  function StatusReference(id: string): string {
    "status:" + id
  }

  function NewCredential(lib: Library, request: Request, id: string): Credential
    requires request.Issue?
  {
    var artifact := Materialize(lib, id, IssuerOf(request), request.templateId, request.claims.expiresAt);
    Credential(id, IssuerOf(request), request.templateId, request.subjectReference, request.claims,
               Digest(lib, artifact), artifact, ACTIVE, StatusReference(id),
               request.claims.verifiedAt, request.claims.expiresAt, request.claims.verifiedAt, "")
  }

  function IssuedCompletion(c: Credential): Completion {
    Completion(201, c.credentialId, CredentialLocation(c.credentialId),
               IssuedBody(c.credentialId, c.issuerId, c.templateId, c.status, c.issuedAt, c.expiresAt,
                          c.statusReference, c.artifact))
  }

  function CreateStep(t: Tables, p: Proc, c: Credential, env: Env): (r: (Tables, Proc))
    requires p.pc.CreateCredential? && Shaped(p)
    ensures Quiet(t, p, r.0, r.1)
    ensures r.0 == t.(credentials := r.0.credentials) && r.1 == p.(pc := r.1.pc, minted := r.1.minted)
  {
    var (t', ok) := InsertCredential(t, c, env.fault);
    var written := !env.fault.Refused? && Trim(c.credentialId) !in t.credentials;
    var q := p.(minted := if written then Some(StoredCredential(c)) else p.minted);
    (t', if ok then Finish(q, IssuedCompletion(c)) else Abort(q, PersistenceError))
  }

  function CreateCredentialStep(lib: Library, t: Tables, p: Proc, env: Env): (r: (Tables, Proc))
    requires p.pc.CreateCredential? && Shaped(p)
    ensures Quiet(t, p, r.0, r.1)
    ensures r.0 == t.(credentials := r.0.credentials) && r.1 == p.(pc := r.1.pc, minted := r.1.minted)
  {
    CreateStep(t, p, NewCredential(lib, p.request, p.id), env)
  }

  function LoadCredentialStep(t: Tables, p: Proc, env: Env): (r: (Tables, Proc))
    requires p.pc.LoadCredential? && Shaped(p)
    ensures Quiet(t, p, r.0, r.1)
    ensures r.0 == t && r.1 == p.(pc := r.1.pc, read := r.1.read)
  {
    match SelectCredential(t, p.request.pathId, env.fault)
    case Unreadable => (t, Abort(p, PersistenceError))
    case Absent => (t, Abort(p, UnknownCredential))
    case Found(record) =>
      if record.issuerId != p.request.caller.organizationId then (t, Abort(p, UnknownCredential))
      else if record.status != ACTIVE then (t, Abort(p, InvalidTransition))
      else (t, p.(pc := WriteStatusRow, read := Some(ReadBack(record, false))))
  }

  // The answer repeats the requested status untrimmed; the table holds it trimmed.
  function StatusCompletion(record: Credential, request: Request, now: int): Completion
    requires request.Status?
  {
    Completion(200, record.credentialId, NoLocation,
               StatusBody(record.credentialId, request.status, record.statusReference, now, record.expiresAt,
                          Trim(request.supersededBy)))
  }

  function WriteStatusStep(t: Tables, p: Proc, env: Env): (r: (Tables, Proc))
    requires p.pc.WriteStatusRow? && Shaped(p)
    ensures Quiet(t, p, r.0, r.1)
    ensures r.0 == t.(credentials := r.0.credentials) && r.1 == p.(pc := r.1.pc)
  {
    var record := p.read.value.record;
    var (t', written) := UpdateStatus(t, record.credentialId, p.request.status, env.now, p.request.supersededBy, env.fault);
    match written
    case Updated => (t', Finish(p, StatusCompletion(record, p.request, env.now)))
    case NoSuchRow => (t', Abort(p, UnknownCredential))
    case WriteFailed => (t', Abort(p, PersistenceError))
  }

  function NewRequestRecord(lib: Library, p: Proc): RequestRecord
    requires p.request.Verify? && p.envelope.Some?
  {
    RequestRecord(p.id, p.request.caller.organizationId, Digest(lib, p.request.value), p.envelope.value.credentialId,
                  p.request.policyId, p.at, p.request.caller, Trim(p.request.idempotencyHeader))
  }

  function StoreRequestStep(lib: Library, t: Tables, p: Proc, env: Env): (r: (Tables, Proc))
    requires p.pc.StoreRequest? && Shaped(p)
    ensures Quiet(t, p, r.0, r.1)
    ensures r.0 == t.(requests := r.0.requests) && r.1 == p.(pc := r.1.pc, filed := r.1.filed)
  {
    var record := NewRequestRecord(lib, p);
    var (t', ok) := InsertRequest(t, record, env.fault);
    var q := p.(filed := p.filed || (!env.fault.Refused? && Trim(record.verificationId) !in t.requests));
    (t', if ok then q.(pc := FindByDigest) else Abort(q, PersistenceError))
  }

  // Any failure of the digest lookup falls through to the lookup by identifier.
  ghost function FindByDigestStep(lib: Library, t: Tables, p: Proc, env: Env): (r: (Tables, Proc))
    requires p.pc.FindByDigest? && Shaped(p)
    ensures Quiet(t, p, r.0, r.1)
    ensures r.0 == t && r.1 == p.(pc := r.1.pc, read := r.1.read)
  {
    match SelectByDigest(t, Digest(lib, p.request.value), env.fault)
    case Found(record) => (t, p.(pc := Judge, read := Some(ReadBack(record, true))))
    case _ => (t, p.(pc := FindById))
  }

  function NotFoundCompletion(id: string): Completion {
    Completion(404, id, NoLocation, CredentialNotFoundBody)
  }

  // Any failure here, a failed read included, is answered as an unknown credential.
  function FindByIdStep(t: Tables, p: Proc, env: Env): (r: (Tables, Proc))
    requires p.pc.FindById? && Shaped(p)
    ensures Quiet(t, p, r.0, r.1)
    ensures r.0 == t && r.1 == p.(pc := r.1.pc, read := r.1.read)
  {
    match SelectCredential(t, p.envelope.value.credentialId, env.fault)
    case Found(record) => (t, p.(pc := Judge, read := Some(ReadBack(record, false))))
    case _ => (t, Finish(p, NotFoundCompletion(p.id)))
  }

  function JudgeProc(lib: Library, p: Proc, trust: TrustRead): ResultRecord
    requires p.request.Verify? && p.envelope.Some? && p.read.Some?
  {
    Judgement(lib, p.request.policyId, p.request.credentialId, p.envelope.value,
              p.read.value.record, p.read.value.byDigest, p.id, p.at, trust)
  }

  function JudgeStep(lib: Library, t: Tables, p: Proc, env: Env): (r: (Tables, Proc))
    requires p.pc.Judge? && Shaped(p)
    ensures Quiet(t, p, r.0, r.1)
    ensures r.0 == t && r.1 == p.(pc := r.1.pc, verdict := r.1.verdict)
  {
    (t, p.(pc := StoreResult, verdict := Some(JudgeProc(lib, p, env.trust))))
  }

  function ResultCompletion(r: ResultRecord, credentialId: string): Completion {
    Completion(201, r.verificationId, VerificationLocation(r.verificationId),
               VerificationBody(r.verificationId, credentialId, r.issuerId, r.decision, r.reasons, r.evaluatedAt,
                                r.credentialStatus))
  }

  function StoreResultStep(t: Tables, p: Proc, env: Env): (r: (Tables, Proc))
    requires p.pc.StoreResult? && Shaped(p)
    ensures Quiet(t, p, r.0, r.1)
    ensures r.0 == t.(results := r.0.results) && r.1 == p.(pc := r.1.pc, stored := r.1.stored)
  {
    var result := p.verdict.value;
    var (t', ok) := InsertResult(t, result, env.fault);
    var q := p.(stored := p.stored || (!env.fault.Refused? && Trim(result.verificationId) !in t.results));
    (t', if ok then Finish(q, ResultCompletion(result, p.envelope.value.credentialId)) else Abort(q, PersistenceError))
  }

  function CompletingStep(t: Tables, p: Proc, env: Env): (r: (Tables, Proc))
    requires p.pc.Completing? && Shaped(p)
    ensures SameRequest(p, r.1) && Shaped(r.1)
    ensures r.0 == t.(idempotency := r.0.idempotency) && r.1 == p.(pc := r.1.pc, completion := r.1.completion)
  {
    var c := p.pc.c;
    var (t', written) := UpdateCompletion(t, p.key.value, c, env.fault);
    var stored := !env.fault.Refused? && p.key.value in t.idempotency;
    var q := p.(completion := if stored then Some(c) else p.completion);
    (t', if written.Updated? then q.(pc := Done(Answered(c))) else Abort(q, PersistenceError))
  }

  function ReleasingStep(t: Tables, p: Proc, env: Env): (r: (Tables, Proc))
    requires p.pc.Releasing? && Shaped(p)
    ensures SameRequest(p, r.1) && Shaped(r.1)
    ensures r.0 == t.(idempotency := r.0.idempotency) && r.1 == p.(pc := r.1.pc)
  {
    (DeleteReservation(t, p.key.value, env.fault), p.(pc := Done(p.pc.reply)))
  }

  ghost function Step(lib: Library, t: Tables, p: Proc, env: Env): (r: (Tables, Proc))
    requires Shaped(p)
    ensures SameRequest(p, r.1) && Shaped(r.1)
    ensures !p.pc.ReserveInsert? && !p.pc.Completing? && !p.pc.Releasing? ==> Quiet(t, p, r.0, r.1)
  {
    match p.pc
    case LoadIssuer => LoadIssuerStep(t, p, env)
    case ReserveInsert => ReserveInsertStep(t, p, env)
    case ReserveSelect => ReserveSelectStep(t, p, env)
    case Allocate => AllocateStep(lib, t, p, env)
    case CreateCredential => CreateCredentialStep(lib, t, p, env)
    case LoadCredential => LoadCredentialStep(t, p, env)
    case WriteStatusRow => WriteStatusStep(t, p, env)
    case StoreRequest => StoreRequestStep(lib, t, p, env)
    case FindByDigest => FindByDigestStep(lib, t, p, env)
    case FindById => FindByIdStep(t, p, env)
    case Judge => JudgeStep(lib, t, p, env)
    case StoreResult => StoreResultStep(t, p, env)
    case Completing(_) => CompletingStep(t, p, env)
    case Releasing(_) => ReleasingStep(t, p, env)
    case Done(_) => (t, p)
  }
}
