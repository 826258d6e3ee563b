// The shared SQL tables and the statements the services run against them. Each
// statement is one atomic step and may fail in the ways a Fault lists.
module Tables {
  import opened Text
  import opened Requests

  // How one SQL call goes. Refused: an error, nothing was written. Lost: the
  // write took effect but the caller sees an error. Uncounted: the write took
  // effect but the driver cannot report the number of affected rows.
  datatype Fault = Fine | Refused | Lost | Uncounted

  predicate Errs(f: Fault) { f.Refused? || f.Lost? }

  datatype RowState = Reserved | Completed

  datatype Location = NoLocation | CredentialLocation(id: string) | VerificationLocation(id: string)

  datatype Decision = Allow | Deny

  datatype Reason =
    | ArtifactContinuityFailed | CredentialIdMismatch | IssuerNotTrusted | IssuerSuspended
    | CredentialStatusRevoked | CredentialStatusSuperseded | CredentialExpired | TemplateMismatch
    | IssuerTrusted | CredentialStatusActive | TemplateMatch

  datatype Snapshot = ActiveNow | RevokedNow | SupersededNow | ExpiredNow

  datatype Body =
    | NoBody
    | IssuedBody(credentialId: string, issuerId: string, templateId: string, status: string,
                 issuedAt: int, expiresAt: int, statusReference: string, artifact: string)
    | StatusBody(credentialId: string, status: string, statusReference: string, statusUpdatedAt: int,
                 expiresAt: int, supersededBy: string)
    | VerificationBody(verificationId: string, credentialId: string, issuerId: string, decision: Decision,
                       reasons: seq<Reason>, evaluatedAt: int, credentialStatus: Snapshot)
    | CredentialNotFoundBody

  // The response a request finishes with.
  datatype Completion = Completion(statusCode: int, resourceId: string, location: Location, body: Body)

  datatype Row = Row(fingerprint: string, state: RowState, statusCode: int, resourceId: string,
                     location: Location, body: Body)

  datatype Issuer = Issuer(displayName: string, trustState: string, allowedTemplates: seq<string>,
                           keyReferences: seq<string>, createdAt: int, updatedAt: int)

  datatype Credential = Credential(
    credentialId: string, issuerId: string, templateId: string, subjectReference: string, claims: Claims,
    digest: string, artifact: string, status: string, statusReference: string,
    issuedAt: int, expiresAt: int, statusUpdatedAt: int, supersededBy: string)

  datatype RequestRecord = RequestRecord(
    verificationId: string, verifierId: string, digest: string, credentialId: string, policyId: string,
    requestedAt: int, caller: Caller, idempotencyKey: string)

  datatype ResultRecord = ResultRecord(
    verificationId: string, issuerId: string, decision: Decision, reasons: seq<Reason>, trustState: string,
    credentialStatus: Snapshot, evaluatedAt: int)

  datatype Audit = Audit(authenticationReference: string, resourceId: string, occurredAt: int)

  datatype Sequence = CredentialSequence | VerificationSequence

  datatype Tables = Tables(
    issuers: map<string, Issuer>,
    credentials: map<string, Credential>,
    requests: map<string, RequestRecord>,
    results: map<string, ResultRecord>,
    idempotency: map<Key, Row>,
    sequences: map<Sequence, nat>)

  datatype Lookup<+T> = Found(value: T) | Absent | Unreadable

  datatype Written = Updated | NoSuchRow | WriteFailed

  datatype InsertReport = Inserted | NotInserted | InsertFailed

  function ReservedRow(fingerprint: string): Row {
    Row(Trim(fingerprint), Reserved, 0, "", NoLocation, NoBody)
  }

  function CompletedRow(fingerprint: string, c: Completion): Row {
    Row(fingerprint, Completed, c.statusCode, Trim(c.resourceId), c.location, c.body)
  }

  // INSERT ... ON CONFLICT DO NOTHING. The row counts as inserted only when the
  // driver says that a row was affected.
  function InsertReservation(t: Tables, key: Key, fingerprint: string, f: Fault): (Tables, InsertReport) {
    if f.Refused? then (t, InsertFailed)
    else if key in t.idempotency then (t, if f.Lost? then InsertFailed else NotInserted)
    else
      (t.(idempotency := t.idempotency[key := ReservedRow(fingerprint)]),
       match f
       case Lost => InsertFailed
       case Uncounted => NotInserted
       case _ => Inserted)
  }

  function SelectReservation(t: Tables, key: Key, f: Fault): Lookup<Row> {
    if Errs(f) then Unreadable
    else if key in t.idempotency then Found(t.idempotency[key]) else Absent
  }

  // UPDATE by primary key; there is no condition on the row's state.
  function UpdateCompletion(t: Tables, key: Key, c: Completion, f: Fault): (Tables, Written) {
    if f.Refused? then (t, WriteFailed)
    else if key !in t.idempotency then (t, if f.Fine? then NoSuchRow else if f.Lost? then WriteFailed else Updated)
    else
      (t.(idempotency := t.idempotency[key := CompletedRow(t.idempotency[key].fingerprint, c)]),
       if f.Lost? then WriteFailed else Updated)
  }

  // DELETE ... WHERE reservation_state = 'reserved'; the outcome is ignored.
  function DeleteReservation(t: Tables, key: Key, f: Fault): Tables {
    if f.Refused? || key !in t.idempotency || t.idempotency[key].state.Completed? then t
    else t.(idempotency := t.idempotency - {key})
  }

  function Current(t: Tables, name: Sequence): nat {
    if name in t.sequences then t.sequences[name] else 0
  }

  // The insert-if-missing, increment, read transaction.
  function AdvanceSequence(t: Tables, name: Sequence, f: Fault): (Tables, Option<nat>) {
    if f.Refused? then (t, None)
    else
      var next := Current(t, name) + 1;
      (t.(sequences := t.sequences[name := next]), if f.Lost? then None else Some(next))
  }

  function StoredCredential(c: Credential): Credential {
    c.(credentialId := Trim(c.credentialId), issuerId := Trim(c.issuerId), templateId := Trim(c.templateId),
       subjectReference := Trim(c.subjectReference), digest := Trim(c.digest), status := Trim(c.status),
       statusReference := Trim(c.statusReference), supersededBy := Trim(c.supersededBy))
  }

  // A plain INSERT: a taken primary key is an error.
  function InsertCredential(t: Tables, c: Credential, f: Fault): (Tables, bool) {
    var row := StoredCredential(c);
    if f.Refused? || row.credentialId in t.credentials then (t, false)
    else (t.(credentials := t.credentials[row.credentialId := row]), !f.Lost?)
  }

  function SelectCredential(t: Tables, id: string, f: Fault): Lookup<Credential> {
    if Errs(f) then Unreadable
    else if Trim(id) in t.credentials then Found(t.credentials[Trim(id)]) else Absent
  }

  // The index on artifact_digest is not unique: any matching row may be first.
  ghost function SelectByDigest(t: Tables, digest: string, f: Fault): (r: Lookup<Credential>)
    ensures r.Found? ==> exists id :: id in t.credentials && t.credentials[id].digest == Trim(digest)
                                      && r.value == t.credentials[id]
    ensures r.Absent? ==> forall id :: id in t.credentials ==> t.credentials[id].digest != Trim(digest)
    ensures r.Unreadable? <==> Errs(f)
  {
    if Errs(f) then Unreadable
    else if exists id :: id in t.credentials && t.credentials[id].digest == Trim(digest) then
      var id :| id in t.credentials && t.credentials[id].digest == Trim(digest);
      Found(t.credentials[id])
    else Absent
  }

  function UpdateStatus(t: Tables, id: string, status: string, at: int, supersededBy: string, f: Fault): (Tables, Written) {
    if f.Refused? then (t, WriteFailed)
    else if Trim(id) !in t.credentials then (t, if f.Fine? then NoSuchRow else if f.Lost? then WriteFailed else Updated)
    else
      var row := t.credentials[Trim(id)].(status := Trim(status), statusUpdatedAt := at, supersededBy := Trim(supersededBy));
      (t.(credentials := t.credentials[Trim(id) := row]), if f.Lost? then WriteFailed else Updated)
  }

  function StoredRequest(r: RequestRecord): RequestRecord {
    r.(verificationId := Trim(r.verificationId), verifierId := Trim(r.verifierId), digest := Trim(r.digest),
       credentialId := Trim(r.credentialId), policyId := Trim(r.policyId), idempotencyKey := Trim(r.idempotencyKey))
  }

  function InsertRequest(t: Tables, r: RequestRecord, f: Fault): (Tables, bool) {
    var row := StoredRequest(r);
    if f.Refused? || row.verificationId in t.requests then (t, false)
    else (t.(requests := t.requests[row.verificationId := row]), !f.Lost?)
  }

  function StoredResult(r: ResultRecord): ResultRecord {
    r.(verificationId := Trim(r.verificationId), issuerId := Trim(r.issuerId), trustState := Trim(r.trustState))
  }

  function InsertResult(t: Tables, r: ResultRecord, f: Fault): (Tables, bool) {
    var row := StoredResult(r);
    if f.Refused? || row.verificationId in t.results then (t, false)
    else (t.(results := t.results[row.verificationId := row]), !f.Lost?)
  }
}
