// The SQL store as an object: one method per operation, each proved against the
// table function of the same statement.
module Store {
  import opened Text
  import opened Identifiers
  import opened Artifact
  import opened Requests
  import opened Tables
  import opened Handlers
  import AtomicReservation

  // No two rows share a digest; so it is in every reachable database.
  ghost predicate UniqueDigests(t: Tables) {
    forall i, j ::
      i in t.credentials && j in t.credentials && t.credentials[i].digest == t.credentials[j].digest ==> i == j
  }

  class SqlStore {
    var issuers: map<string, Issuer>
    var credentials: map<string, Credential>
    var requests: map<string, RequestRecord>
    var results: map<string, ResultRecord>
    var idempotency: map<Key, Row>
    var sequences: map<Sequence, nat>
    var audits: map<string, Audit>

    ghost function Contents(): Tables
      reads this
    {
      Tables(issuers, credentials, requests, results, idempotency, sequences)
    }

    constructor (issuers: map<string, Issuer>)
      ensures Contents() == Tables(issuers, map[], map[], map[], map[], map[])
    {
      this.issuers := issuers;
      credentials, requests, results := map[], map[], map[];
      idempotency, sequences, audits := map[], map[], map[];
    }

    method GetIssuerRecord(id: string, f: Fault) returns (r: Lookup<Issuer>)
      ensures r == if Errs(f) then Unreadable else if Trim(id) in issuers then Found(issuers[Trim(id)]) else Absent
    {
      if Errs(f) {
        return Unreadable;
      }
      if Trim(id) in issuers {
        return Found(issuers[Trim(id)]);
      }
      return Absent;
    }

    method UpsertIssuerRecord(id: string, record: Issuer, f: Fault) returns (ok: bool)
      modifies this`issuers
      ensures ok == !Errs(f)
      ensures issuers == if f.Refused? then old(issuers) else old(issuers)[Trim(id) := record]
    {
      if f.Refused? {
        return false;
      }
      issuers := issuers[Trim(id) := record];
      ok := !f.Lost?;
    }

    // The audit identifier is the table's primary key: a second record with the
    // same identifier is an error.
    method AppendAuditRecord(id: string, record: Audit, f: Fault) returns (ok: bool)
      modifies this`audits
      ensures ok == (!Errs(f) && Trim(id) !in old(audits))
      ensures audits == if f.Refused? || Trim(id) in old(audits) then old(audits) else old(audits)[Trim(id) := record]
    {
      if f.Refused? || Trim(id) in audits {
        return false;
      }
      audits := audits[Trim(id) := record];
      ok := !f.Lost?;
    }

    // The INSERT of a reservation; true when the driver counted an affected row.
    method InsertIfFree(key: Key, fingerprint: string, f: Fault) returns (report: InsertReport)
      modifies this`idempotency
      ensures (Contents(), report) == InsertReservation(old(Contents()), key, fingerprint, f)
    {
      if f.Refused? {
        return InsertFailed;
      }
      var conflict := key in idempotency;
      if !conflict {
        idempotency := idempotency[key := ReservedRow(fingerprint)];
      }
      if f.Lost? {
        return InsertFailed;
      }
      report := if conflict || f.Uncounted? then NotInserted else Inserted;
    }

    method GetIdempotencyRecord(key: Key, f: Fault) returns (r: Lookup<Row>)
      ensures r == SelectReservation(Contents(), key, f)
    {
      if Errs(f) {
        return Unreadable;
      }
      if key in idempotency {
        return Found(idempotency[key]);
      }
      return Absent;
    }

    // Reservation as the handlers call it: INSERT, and SELECT when it conflicted.
    // Without interference it is the atomic test-and-set: None when the key is won.
    method ReserveIdempotencyRecord(key: Key, fingerprint: string, f: Fault, g: Fault) returns (early: Option<Reply>)
      modifies this`idempotency
      ensures f.Fine? && g.Fine? ==>
        (Contents(), early) == AtomicReservation.AtomicReserve(old(Contents()), key, fingerprint)
      ensures
        var insert := InsertReservation(old(Contents()), key, fingerprint, f);
        && Contents() == insert.0
        && early == match insert.1
             case Inserted => None
             case InsertFailed => Some(Failed(PersistenceError))
             case NotInserted =>
               match SelectReservation(insert.0, key, g)
               case Found(row) => Some(AnswerFrom(row, fingerprint))
               case _ => Some(Failed(PersistenceError))
    {
      var report := InsertIfFree(key, fingerprint, f);
      if report.InsertFailed? {
        return Some(Failed(PersistenceError));
      }
      if report.Inserted? {
        return None;
      }
      var stored := GetIdempotencyRecord(key, g);
      if !stored.Found? {
        return Some(Failed(PersistenceError));
      }
      var row := stored.value;
      if Trim(row.fingerprint) != Trim(fingerprint) {
        return Some(Failed(IdempotencyConflict));
      }
      if row.state.Completed? {
        return Some(Replayed(row));
      }
      return Some(Failed(IdempotencyInProgress));
    }

    method CompleteIdempotencyRecord(key: Key, c: Completion, f: Fault) returns (written: Written)
      modifies this`idempotency
      ensures (Contents(), written) == UpdateCompletion(old(Contents()), key, c, f)
    {
      if f.Refused? {
        return WriteFailed;
      }
      var affected := key in idempotency;
      if affected {
        idempotency := idempotency[key := CompletedRow(idempotency[key].fingerprint, c)];
      }
      if f.Lost? {
        return WriteFailed;
      }
      written := if f.Fine? && !affected then NoSuchRow else Updated;
    }

    method ReleaseIdempotencyRecord(key: Key, f: Fault)
      modifies this`idempotency
      ensures Contents() == DeleteReservation(old(Contents()), key, f)
    {
      if !f.Refused? && key in idempotency && idempotency[key].state.Reserved? {
        idempotency := idempotency - {key};
      }
    }

    // One transaction: make sure the row is there, increment it, read it back.
    method NextSequence(name: Sequence, f: Fault) returns (n: Option<nat>)
      modifies this`sequences
      ensures (Contents(), n) == AdvanceSequence(old(Contents()), name, f)
    {
      if f.Refused? {
        return None;
      }
      if name !in sequences {
        sequences := sequences[name := 0];
      }
      sequences := sequences[name := sequences[name] + 1];
      assert sequences == old(sequences)[name := Current(old(Contents()), name) + 1];
      n := if f.Lost? then None else Some(sequences[name]);
    }

    method NextCredentialId(templateId: string, f: Fault) returns (n: Option<nat>, id: string)
      modifies this`sequences
      ensures (Contents(), n) == AdvanceSequence(old(Contents()), CredentialSequence, f)
      ensures n.Some? ==> id == FormatCredentialId(templateId, n.value)
    {
      n := NextSequence(CredentialSequence, f);
      id := if n.Some? then FormatCredentialId(templateId, n.value) else "";
    }

    method NextVerificationId(f: Fault) returns (n: Option<nat>, id: string)
      modifies this`sequences
      ensures (Contents(), n) == AdvanceSequence(old(Contents()), VerificationSequence, f)
      ensures n.Some? ==> id == FormatVerificationId(n.value)
    {
      n := NextSequence(VerificationSequence, f);
      id := if n.Some? then FormatVerificationId(n.value) else "";
    }

    method CreateCredentialRecord(c: Credential, f: Fault) returns (ok: bool)
      modifies this`credentials
      ensures (Contents(), ok) == InsertCredential(old(Contents()), c, f)
    {
      var row := StoredCredential(c);
      if f.Refused? || row.credentialId in credentials {
        return false;
      }
      credentials := credentials[row.credentialId := row];
      ok := !f.Lost?;
    }

    method GetCredentialRecord(id: string, f: Fault) returns (r: Lookup<Credential>)
      ensures r == SelectCredential(Contents(), id, f)
    {
      if Errs(f) {
        return Unreadable;
      }
      if Trim(id) in credentials {
        return Found(credentials[Trim(id)]);
      }
      return Absent;
    }

    // Some matching row, if there is one. With at most one match it is the row.
    method GetCredentialRecordByArtifactDigest(digest: string, f: Fault) returns (r: Lookup<Credential>)
      ensures r.Unreadable? <==> Errs(f)
      ensures r.Found? ==> exists id :: id in credentials && credentials[id].digest == Trim(digest) && r.value == credentials[id]
      ensures r.Absent? ==> forall id :: id in credentials ==> credentials[id].digest != Trim(digest)
      ensures UniqueDigests(Contents()) ==> r == SelectByDigest(Contents(), digest, f)
    {
      if Errs(f) {
        return Unreadable;
      }
      var wanted := Trim(digest);
      var ids := credentials.Keys;
      while ids != {}
        invariant ids <= credentials.Keys
        invariant forall id :: id in credentials && id !in ids ==> credentials[id].digest != wanted
        decreases |ids|
      {
        var id :| id in ids;
        if credentials[id].digest == wanted {
          return Found(credentials[id]);
        }
        ids := ids - {id};
      }
      return Absent;
    }

    method UpdateCredentialStatus(id: string, status: string, at: int, supersededBy: string, f: Fault) returns (written: Written)
      modifies this`credentials
      ensures (Contents(), written) == UpdateStatus(old(Contents()), id, status, at, supersededBy, f)
    {
      if f.Refused? {
        return WriteFailed;
      }
      var affected := Trim(id) in credentials;
      if affected {
        credentials := credentials[Trim(id) :=
          credentials[Trim(id)].(status := Trim(status), statusUpdatedAt := at, supersededBy := Trim(supersededBy))];
      }
      if f.Lost? {
        return WriteFailed;
      }
      written := if f.Fine? && !affected then NoSuchRow else Updated;
    }

    method CreateVerificationRequestRecord(r: RequestRecord, f: Fault) returns (ok: bool)
      modifies this`requests
      ensures (Contents(), ok) == InsertRequest(old(Contents()), r, f)
    {
      var row := StoredRequest(r);
      if f.Refused? || row.verificationId in requests {
        return false;
      }
      requests := requests[row.verificationId := row];
      ok := !f.Lost?;
    }

    method CreateVerificationResultRecord(r: ResultRecord, f: Fault) returns (ok: bool)
      modifies this`results
      ensures (Contents(), ok) == InsertResult(old(Contents()), r, f)
    {
      var row := StoredResult(r);
      if f.Refused? || row.verificationId in results {
        return false;
      }
      results := results[row.verificationId := row];
      ok := !f.Lost?;
    }
  }
}
