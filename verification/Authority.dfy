// On whose authority the tables change: which caller a key, a credential and its
// status belong to, and what an issuance was checked against.
module Authority {
  import opened Text
  import opened Identifiers
  import opened Artifact
  import opened Requests
  import opened Tables
  import opened Handlers
  import opened System
  import opened Ownership
  import opened Progress
  import opened CredentialTable
  import opened Minting
  import opened Reachability
  import opened StatusChanges
  import Replay
  import ToldAllows
  import VerificationTables
  import Verdicts

  // It got past the checks that come before the first statement.
  predicate Worked(p: Proc) {
    !p.pc.Done? || !Untouched(p)
  }

  // Its key is the one its own header and caller name, its fingerprint its own; it
  // worked only if it is attributed and valid.
  predicate Vetted(lib: Library, p: Proc) {
    && p.key == KeyOf(p.request)
    && p.fingerprint == Fingerprint(lib, p.request)
    && (Worked(p) ==> Attributed(p.request.caller) && Valid(lib, p.request))
  }

  // The credential a status change admitted: the one it names, active, and its own
  // organization's.
  predicate Authorised(p: Proc) {
    p.request.Status? && p.read.Some? ==>
      && p.read.value.record.credentialId == Trim(p.request.pathId)
      && p.read.value.record.issuerId == p.request.caller.organizationId
      && p.read.value.record.status == ACTIVE
  }

  ghost predicate AllVetted(lib: Library, s: State) {
    forall pid :: pid in s.procs ==> Vetted(lib, s.procs[pid])
  }

  ghost predicate AllAuthorised(s: State) {
    forall pid :: pid in s.procs ==> Authorised(s.procs[pid])
  }

  lemma BeginVetted(lib: Library, request: Request)
    ensures Vetted(lib, Begin(lib, request)) && Authorised(Begin(lib, request))
  {
    BeginUntouched(lib, request);
  }

  lemma StepVetted(lib: Library, t: Tables, p: Proc, env: Env)
    requires Shaped(p) && Vetted(lib, p)
    ensures Vetted(lib, Step(lib, t, p, env).1)
  {
  }

  lemma LoadAuthorised(t: Tables, p: Proc, env: Env)
    requires Shaped(p) && RowsOk(t) && p.pc.LoadCredential? && Authorised(p)
    ensures Authorised(LoadCredentialStep(t, p, env).1)
  {
  }

  lemma StepAuthorised(lib: Library, t: Tables, p: Proc, env: Env)
    requires Shaped(p) && RowsOk(t) && Authorised(p)
    ensures Authorised(Step(lib, t, p, env).1)
  {
    if p.pc.LoadCredential? {
      LoadAuthorised(t, p, env);
      assert Step(lib, t, p, env) == LoadCredentialStep(t, p, env);
    } else {
      FieldsFrame(lib, t, p, env);
    }
  }

  lemma VettedAfter(lib: Library, s: State, pid: nat, s': State)
    requires AllVetted(lib, s) && pid in s'.procs && s'.procs == s.procs[pid := s'.procs[pid]]
    requires Vetted(lib, s'.procs[pid])
    ensures AllVetted(lib, s')
  {
  }

  lemma CrashedVetted(lib: Library, p: Proc)
    requires Vetted(lib, p) && !p.pc.Done?
    ensures Vetted(lib, p.(pc := Done(Crashed)))
  {
  }

  lemma NextVetted(lib: Library, s: State, l: Label)
    requires WellShaped(s) && AllVetted(lib, s)
    ensures AllVetted(lib, Next(lib, s, l))
  {
    match l
    case Arrive(pid, request) =>
      if pid !in s.procs {
        BeginVetted(lib, request);
        VettedAfter(lib, s, pid, Next(lib, s, l));
      }
    case Run(pid, env) =>
      if pid in s.procs {
        StepVetted(lib, s.db, s.procs[pid], env);
        VettedAfter(lib, s, pid, Next(lib, s, l));
      }
    case Crash(pid) =>
      if pid in s.procs && !s.procs[pid].pc.Done? {
        CrashedVetted(lib, s.procs[pid]);
        VettedAfter(lib, s, pid, Next(lib, s, l));
      }
    case SetIssuers(_) =>
  }

  lemma NextAuthorised(lib: Library, s: State, l: Label)
    requires Credentialed(s) && AllAuthorised(s)
    ensures AllAuthorised(Next(lib, s, l))
  {
    var s' := Next(lib, s, l);
    forall pid | pid in s'.procs ensures Authorised(s'.procs[pid]) {
      if pid !in s.procs {
        BeginVetted(lib, l.request);
      } else if l.Run? && l.pid == pid {
        StepAuthorised(lib, s.db, s.procs[pid], l.env);
      }
    }
  }

  lemma {:induction false} ExecVetted(lib: Library, s: State, ls: seq<Label>)
    requires WellShaped(s) && AllVetted(lib, s)
    ensures AllVetted(lib, Exec(lib, s, ls))
    decreases |ls|
  {
    if ls != [] {
      NextVetted(lib, s, ls[0]);
      ExecVetted(lib, Next(lib, s, ls[0]), ls[1..]);
    }
  }

  lemma {:induction false} ExecAuthorised(lib: Library, s: State, ls: seq<Label>)
    requires Lawful(lib, s) && AllAuthorised(s)
    ensures AllAuthorised(Exec(lib, s, ls))
    decreases |ls|
  {
    if ls != [] {
      NextAuthorised(lib, s, ls[0]);
      NextLawful(lib, s, ls[0]);
      ExecAuthorised(lib, Next(lib, s, ls[0]), ls[1..]);
    }
  }

  lemma VettedWhenReachable(lib: Library, s: State)
    requires Reachable(lib, s)
    ensures AllVetted(lib, s) && AllAuthorised(s)
  {
    var issuers, ls :| s == Exec(lib, Start(issuers), ls);
    ExecVetted(lib, Start(issuers), ls);
    ExecAuthorised(lib, Start(issuers), ls);
  }

  lemma StatusWhenReachable(lib: Library, s: State)
    requires Reachable(lib, s)
    ensures AllStatusFacts(s)
  {
    var issuers, ls :| s == Exec(lib, Start(issuers), ls);
    ExecStatusLawful(lib, Start(issuers), ls);
  }

  // What the invariants say of a status change that is about to be written.
  lemma WriterFacts(lib: Library, s: State, pid: nat)
    requires Reachable(lib, s) && pid in s.procs && s.procs[pid].pc.WriteStatusRow?
    ensures
      var p := s.procs[pid];
      && Shaped(p) && p.request.Status? && p.read.Some?
      && var record := p.read.value.record;
      && Trim(record.credentialId) == record.credentialId == Trim(p.request.pathId)
      && record.credentialId in s.db.credentials
      && s.db.credentials[record.credentialId].issuerId == p.request.caller.organizationId
      && ValidStatusChange(p.request.status, p.request.supersededBy)
  {
    Invariants(lib, s);
    StatusWhenReachable(lib, s);
    VettedWhenReachable(lib, s);
    WriterInState(lib, s, pid);
  }

  lemma WriterInState(lib: Library, s: State, pid: nat)
    requires Credentialed(s) && AllStatusFacts(s) && AllVetted(lib, s) && AllAuthorised(s)
    requires pid in s.procs && s.procs[pid].pc.WriteStatusRow?
    ensures
      var p := s.procs[pid];
      && Shaped(p) && p.request.Status? && p.read.Some?
      && var record := p.read.value.record;
      && Trim(record.credentialId) == record.credentialId == Trim(p.request.pathId)
      && record.credentialId in s.db.credentials
      && s.db.credentials[record.credentialId].issuerId == p.request.caller.organizationId
      && ValidStatusChange(p.request.status, p.request.supersededBy)
  {
    var p := s.procs[pid];
    assert StatusFacts(s.db, p) && CredentialFacts(s.db, p) && Authorised(p);
    var record := p.read.value.record;
    assert Issued(s.db.credentials[record.credentialId]).issuerId == Issued(record).issuerId;
  }

  // A row after a write of this status.
  predicate Rewritten(row: Credential, row': Credential, request: Request, now: int)
    requires request.Status?
  {
    && row'.status == Trim(request.status) && row'.supersededBy == Trim(request.supersededBy)
    && row'.statusUpdatedAt == now
    && row' == row.(status := row'.status, supersededBy := row'.supersededBy, statusUpdatedAt := row'.statusUpdatedAt)
  }

  lemma WritesRow(t: Tables, p: Proc, env: Env, id: string)
    requires Shaped(p) && p.pc.WriteStatusRow? && p.read.Some? && id in t.credentials
    requires
      var record := p.read.value.record;
      Trim(record.credentialId) == record.credentialId && record.credentialId in t.credentials
    ensures
      var t' := WriteStatusStep(t, p, env).0;
      && id in t'.credentials
      && if p.read.value.record.credentialId == id && !env.fault.Refused?
         then Rewritten(t.credentials[id], t'.credentials[id], p.request, env.now)
         else t'.credentials[id] == t.credentials[id]
  {
  }

  lemma CreatesElsewhere(t: Tables, p: Proc, c: Credential, env: Env, id: string)
    requires Shaped(p) && p.pc.CreateCredential? && id in t.credentials
    ensures
      var t' := CreateStep(t, p, c, env).0;
      id in t'.credentials && t'.credentials[id] == t.credentials[id]
  {
  }

  lemma OtherStepKeepsRow(lib: Library, t: Tables, p: Proc, env: Env, id: string)
    requires Shaped(p) && !p.pc.WriteStatusRow? && id in t.credentials
    ensures
      var t' := Step(lib, t, p, env).0;
      id in t'.credentials && t'.credentials[id] == t.credentials[id]
  {
    if p.pc.CreateCredential? {
      var c := NewCredential(lib, p.request, p.id);
      CreatesElsewhere(t, p, c, env, id);
      assert Step(lib, t, p, env) == CreateStep(t, p, c, env);
    } else {
      CredentialsFrame(lib, t, p, env);
    }
  }

  // Who changes a credential, and how: in every reachable state a label changes a row
  // only by a status write of a caller whose organization issued that credential and
  // whose request named it; the row then has the requested status and successor and
  // the time of the write, and is otherwise as it was.
  lemma RowChangesExactly(lib: Library, s: State, l: Label, id: string)
    requires Reachable(lib, s) && WellShaped(s) && id in s.db.credentials
    ensures id in Next(lib, s, l).db.credentials
    ensures !Writes(s, l, id) ==> Next(lib, s, l).db.credentials[id] == s.db.credentials[id]
    ensures Writes(s, l, id) ==>
      var request, row := s.procs[l.pid].request, s.db.credentials[id];
      && request.Status? && ValidStatusChange(request.status, request.supersededBy)
      && request.caller.organizationId == row.issuerId
      && Trim(request.pathId) == id
      && Rewritten(row, Next(lib, s, l).db.credentials[id], request, l.env.now)
  {
    if l.Run? && l.pid in s.procs {
      var p := s.procs[l.pid];
      if p.pc.WriteStatusRow? {
        WriterFacts(lib, s, l.pid);
        WritesRow(s.db, p, l.env, id);
        assert Step(lib, s.db, p, l.env) == WriteStatusStep(s.db, p, l.env);
      } else {
        OtherStepKeepsRow(lib, s.db, p, l.env, id);
      }
    }
  }

  // An acknowledged write is answered, or completes the key, with what it wrote.
  lemma WriteReported(lib: Library, s: State, pid: nat, env: Env)
    requires Reachable(lib, s) && WellShaped(s) && pid in s.procs && s.procs[pid].pc.WriteStatusRow? && !Errs(env.fault)
    ensures
      var p, s' := s.procs[pid], Next(lib, s, Run(pid, env));
      var q := s'.procs[pid];
      && p.request.Status? && (q.pc.Completing? || (q.pc.Done? && q.pc.reply.Answered?))
      && var c := if q.pc.Completing? then q.pc.c else q.pc.reply.c;
      && c.statusCode == 200 && c.resourceId == Trim(p.request.pathId) && c.resourceId in s'.db.credentials
      && var row := s'.db.credentials[c.resourceId];
      && c.body.StatusBody? && c.body.credentialId == c.resourceId
      && c.body.status == p.request.status && Trim(c.body.status) == row.status
      && c.body.supersededBy == row.supersededBy == Trim(p.request.supersededBy)
      && c.body.statusUpdatedAt == row.statusUpdatedAt == env.now
  {
    WriterFacts(lib, s, pid);
    WriteAnswers(s.db, s.procs[pid], env);
    assert Step(lib, s.db, s.procs[pid], env) == WriteStatusStep(s.db, s.procs[pid], env);
  }

  lemma WriteAnswers(t: Tables, p: Proc, env: Env)
    requires Shaped(p) && p.pc.WriteStatusRow? && !Errs(env.fault)
    requires
      var record := p.read.value.record;
      Trim(record.credentialId) == record.credentialId && record.credentialId in t.credentials
    ensures
      var (t', q) := WriteStatusStep(t, p, env);
      var id := p.read.value.record.credentialId;
      && (q.pc.Completing? || (q.pc.Done? && q.pc.reply.Answered?))
      && var c := if q.pc.Completing? then q.pc.c else q.pc.reply.c;
      && c.statusCode == 200 && c.resourceId == id && id in t'.credentials
      && c.body.StatusBody? && c.body.credentialId == id
      && c.body.status == p.request.status && Trim(c.body.status) == t'.credentials[id].status
      && c.body.supersededBy == t'.credentials[id].supersededBy == Trim(p.request.supersededBy)
      && c.body.statusUpdatedAt == t'.credentials[id].statusUpdatedAt == env.now
  {
  }

  lemma IssuerIsTrimmed(lib: Library, s: State, id: string)
    requires Reachable(lib, s) && id in s.db.credentials
    ensures Trim(s.db.credentials[id].issuerId) == s.db.credentials[id].issuerId
  {
    Invariants(lib, s);
    var minter := RowHasMinter(lib, s, id);
    TrimIdempotent(s.procs[minter].request.caller.organizationId);
  }

  lemma KeyNamesCaller(request: Request)
    requires KeyOf(request).Some?
    ensures
      var key := KeyOf(request).value;
      && key.op == request.Op() && key.organizationId == Trim(request.caller.organizationId)
      && key.principalId == Trim(request.caller.principalId) && key.actorType == Trim(request.caller.actorType)
      && key.idempotencyKey == Trim(request.idempotencyHeader) != ""
  {
    TrimIdempotent(request.idempotencyHeader);
  }

  // A completed status change is its issuer's: the request that completed it came from
  // the organization that issued the credential it changed, which is the organization
  // of the key, and it named that credential.
  lemma ChangedByIssuer(lib: Library, s: State, key: Key) returns (pid: nat)
    requires Reachable(lib, s)
    requires key.op == WriteStatus && key in s.db.idempotency && s.db.idempotency[key].state.Completed?
    ensures CompletedBy(s, key, pid)
    ensures
      var request, id := s.procs[pid].request, s.db.idempotency[key].resourceId;
      && request.Status? && id == Trim(request.pathId) && id in s.db.credentials
      && s.db.credentials[id].issuerId == request.caller.organizationId == key.organizationId
  {
    OwnedWhenReachable(lib, s);
    pid := ChangerOf(s, key);
    KeyNames(lib, s, pid);
    ChangerNames(lib, s, pid);
    IssuerIsTrimmed(lib, s, s.procs[pid].read.value.record.credentialId);
  }

  lemma KeyNames(lib: Library, s: State, pid: nat)
    requires Reachable(lib, s) && pid in s.procs && s.procs[pid].key.Some?
    ensures s.procs[pid].key.value.op == s.procs[pid].request.Op()
    ensures s.procs[pid].key.value.organizationId == Trim(s.procs[pid].request.caller.organizationId)
  {
    VettedWhenReachable(lib, s);
    KeyIsCallers(lib, s, pid);
  }

  lemma ChangerNames(lib: Library, s: State, pid: nat)
    requires Reachable(lib, s) && pid in s.procs && s.procs[pid].request.Status? && s.procs[pid].completion.Some?
    ensures
      var p := s.procs[pid];
      && p.read.Some?
      && var id := p.read.value.record.credentialId;
      && Trim(p.completion.value.resourceId) == id == Trim(p.request.pathId) && id in s.db.credentials
      && s.db.credentials[id].issuerId == p.request.caller.organizationId
  {
    Invariants(lib, s);
    VettedWhenReachable(lib, s);
    StatusWhenReachable(lib, s);
    ChangerRead(s, pid);
  }

  lemma ChangerOf(s: State, key: Key) returns (pid: nat)
    requires Owned(s) && key in s.db.idempotency && s.db.idempotency[key].state.Completed?
    ensures CompletedBy(s, key, pid)
    ensures s.db.idempotency[key] == CompletedRow(Trim(s.procs[pid].fingerprint), s.procs[pid].completion.value)
  {
    pid :| CompletedBy(s, key, pid);
    assert Holds(s.procs[pid]);
  }

  lemma ChangerRead(s: State, pid: nat)
    requires AllCredentialFacts(s) && AllAuthorised(s) && AllStatusFacts(s)
    requires pid in s.procs && s.procs[pid].request.Status? && s.procs[pid].completion.Some?
    ensures
      var p := s.procs[pid];
      && p.read.Some?
      && var id := p.read.value.record.credentialId;
      && Trim(p.completion.value.resourceId) == id == Trim(p.request.pathId) && id in s.db.credentials
      && s.db.credentials[id].issuerId == p.request.caller.organizationId
  {
    var p := s.procs[pid];
    assert Authorised(p) && StatusFacts(s.db, p) && CredentialFacts(s.db, p);
    assert ChangeAnswered(s.db, p, p.completion.value);
    var record := p.read.value.record;
    assert Issued(s.db.credentials[record.credentialId]).issuerId == Issued(record).issuerId;
  }

  // The columns of a key are its request's.
  lemma KeyIsCallers(lib: Library, s: State, pid: nat)
    requires AllVetted(lib, s) && pid in s.procs && s.procs[pid].key.Some?
    ensures
      var request, key := s.procs[pid].request, s.procs[pid].key.value;
      && key.op == request.Op() && key.organizationId == Trim(request.caller.organizationId)
      && key.principalId == Trim(request.caller.principalId) && key.actorType == Trim(request.caller.actorType)
      && key.idempotencyKey == Trim(request.idempotencyHeader) != ""
  {
    assert Vetted(lib, s.procs[pid]);
    KeyNamesCaller(s.procs[pid].request);
  }

  // An issuance and a verification are their caller's too: the organization of a
  // completed key issued the credential it names, or is the verifier of the request.
  lemma CompletedForOrganization(lib: Library, s: State, key: Key) returns (pid: nat)
    requires Reachable(lib, s) && key in s.db.idempotency && s.db.idempotency[key].state.Completed?
    ensures CompletedBy(s, key, pid)
    ensures
      var id, request := s.db.idempotency[key].resourceId, s.procs[pid].request;
      && (key.op == IssueCredential ==>
            request.Issue? && id in s.db.credentials && s.db.credentials[id].issuerId == key.organizationId)
      && (key.op == CreateVerification ==>
            request.Verify? && id in s.db.requests && s.db.requests[id].verifierId == key.organizationId)
  {
    OwnedWhenReachable(lib, s);
    pid := ChangerOf(s, key);
    KeyNames(lib, s, pid);
    if key.op == IssueCredential {
      IssuerNamed(lib, s, pid);
      Verdicts.IssuedRow(lib, s, s.procs[pid].id, pid);
    } else if key.op == CreateVerification {
      VerifierNamed(lib, s, pid);
    }
  }

  lemma IssuerNamed(lib: Library, s: State, pid: nat)
    requires Reachable(lib, s) && pid in s.procs && s.procs[pid].request.Issue? && s.procs[pid].completion.Some?
    ensures s.procs[pid].completion.value.resourceId == s.procs[pid].id && s.procs[pid].id in s.db.credentials
    ensures MintedBy(s, s.procs[pid].id, pid)
  {
    Invariants(lib, s);
    assert OwnAnswer(s.procs[pid], s.procs[pid].completion.value);
  }

  lemma VerifierNamed(lib: Library, s: State, pid: nat)
    requires Reachable(lib, s) && pid in s.procs && s.procs[pid].request.Verify? && s.procs[pid].completion.Some?
    ensures
      var p := s.procs[pid];
      var id := Trim(p.completion.value.resourceId);
      id in s.db.requests && s.db.requests[id].verifierId == Trim(p.request.caller.organizationId)
  {
    Invariants(lib, s);
    VerifierInState(s, pid);
  }

  lemma VerifierInState(s: State, pid: nat)
    requires VerificationTables.Recorded(s)
    requires pid in s.procs && s.procs[pid].request.Verify? && s.procs[pid].completion.Some?
    ensures
      var p := s.procs[pid];
      var id := Trim(p.completion.value.resourceId);
      id in s.db.requests && s.db.requests[id].verifierId == Trim(p.request.caller.organizationId)
  {
    var p := s.procs[pid];
    assert OnTrack(p) && VerificationTables.RecordFacts(s.db, p);
    assert OwnAnswer(p, p.completion.value);
  }

  // Two requests of one caller under one idempotency header.
  predicate SameCaller(r1: Request, r2: Request) {
    && r1.Op() == r2.Op()
    && Trim(r1.caller.organizationId) == Trim(r2.caller.organizationId)
    && Trim(r1.caller.principalId) == Trim(r2.caller.principalId)
    && Trim(r1.caller.actorType) == Trim(r2.caller.actorType)
    && Trim(r1.idempotencyHeader) == Trim(r2.idempotencyHeader) != ""
  }

  // A replay stays with its caller: the request whose stored response is replayed is of
  // the same operation, organization, principal and actor type, under the same header,
  // and has the same fingerprint.
  lemma ReplayedToItsCaller(lib: Library, issuers: map<string, Issuer>, ls: seq<Label>, i: nat) returns (j: nat)
    requires CollisionFree(lib)
    requires
      var procs := Exec(lib, Start(issuers), ls).procs;
      i in procs && procs[i].pc.Done? && procs[i].pc.reply.Replayed?
    ensures
      var procs := Exec(lib, Start(issuers), ls).procs;
      && j in procs && procs[j].completion.Some?
      && procs[i].pc.reply.row == CompletedRow(Trim(procs[j].fingerprint), procs[j].completion.value)
      && SameCaller(procs[i].request, procs[j].request)
      && Fingerprint(lib, procs[i].request) == Fingerprint(lib, procs[j].request)
  {
    RunsAreOwned(lib, issuers, ls);
    Replay.ExecReplies(lib, Start(issuers), ls);
    VerificationTables.ExecKeyed(lib, Start(issuers), ls);
    ToldAllows.ExecReplaysKeyed(lib, Start(issuers), ls);
    ExecVetted(lib, Start(issuers), ls);
    j := ReplayerOf(lib, Exec(lib, Start(issuers), ls), i);
  }

  lemma ReplayerOf(lib: Library, s: State, i: nat) returns (j: nat)
    requires CollisionFree(lib)
    requires Owned(s) && Replay.RepliesFromRows(s) && VerificationTables.AllKeyed(s) && AllVetted(lib, s)
    requires i in s.procs && s.procs[i].pc.Done? && s.procs[i].pc.reply.Replayed? && ToldAllows.ReplaysKeyed(s.procs[i])
    ensures j in s.procs && s.procs[j].completion.Some?
    ensures s.procs[i].pc.reply.row == CompletedRow(Trim(s.procs[j].fingerprint), s.procs[j].completion.value)
    ensures SameCaller(s.procs[i].request, s.procs[j].request)
    ensures Fingerprint(lib, s.procs[i].request) == Fingerprint(lib, s.procs[j].request)
  {
    j := ToldAllows.ReplayedBy(s, i);
    assert Vetted(lib, s.procs[i]) && Vetted(lib, s.procs[j]);
    SameKeyExactly(s.procs[i].request, s.procs[j].request);
    TightFingerprint(lib, s.procs[i].request);
    TightFingerprint(lib, s.procs[j].request);
  }

  lemma TightFingerprint(lib: Library, request: Request)
    requires CollisionFree(lib)
    ensures Trim(Fingerprint(lib, request)) == Fingerprint(lib, request)
  {
  }

  // Every row of the idempotency table was reserved by a request with that key.
  ghost predicate KeptFor(s: State, key: Key, pid: nat) {
    pid in s.procs && s.procs[pid].key == Some(key)
  }

  ghost predicate RowsKept(s: State) {
    forall key :: key in s.db.idempotency ==> exists pid :: KeptFor(s, key, pid)
  }

  lemma StepAddsOwnRow(lib: Library, t: Tables, p: Proc, env: Env)
    requires Shaped(p)
    ensures forall key :: key in Step(lib, t, p, env).0.idempotency ==> key in t.idempotency || p.key == Some(key)
  {
    if p.pc.ReserveInsert? {
      InsertAddsOwnRow(t, p, env);
      assert Step(lib, t, p, env) == ReserveInsertStep(t, p, env);
    } else if p.pc.Completing? {
      assert Step(lib, t, p, env) == CompletingStep(t, p, env);
    } else if p.pc.Releasing? {
      assert Step(lib, t, p, env) == ReleasingStep(t, p, env);
    }
  }

  lemma InsertAddsOwnRow(t: Tables, p: Proc, env: Env)
    requires Shaped(p) && p.pc.ReserveInsert?
    ensures forall key :: key in ReserveInsertStep(t, p, env).0.idempotency ==> key in t.idempotency || p.key == Some(key)
  {
  }

  lemma NextRowsKept(lib: Library, s: State, l: Label)
    requires WellShaped(s) && RowsKept(s)
    ensures RowsKept(Next(lib, s, l))
  {
    var s' := Next(lib, s, l);
    forall key | key in s'.db.idempotency ensures exists pid :: KeptFor(s', key, pid) {
      if l.Run? && l.pid in s.procs {
        StepAddsOwnRow(lib, s.db, s.procs[l.pid], l.env);
      }
      if key in s.db.idempotency {
        var pid :| KeptFor(s, key, pid);
        assert KeptFor(s', key, pid);
      } else {
        assert KeptFor(s', key, l.pid);
      }
    }
  }

  lemma {:induction false} ExecRowsKept(lib: Library, s: State, ls: seq<Label>)
    requires WellShaped(s) && RowsKept(s)
    ensures RowsKept(Exec(lib, s, ls))
    decreases |ls|
  {
    if ls != [] {
      NextRowsKept(lib, s, ls[0]);
      ExecRowsKept(lib, Next(lib, s, ls[0]), ls[1..]);
    }
  }

  // So a row is never found under a key by a caller other than the ones it was made
  // for: in every run its key's columns are those of a request that arrived.
  lemma RowsHaveCallers(lib: Library, issuers: map<string, Issuer>, ls: seq<Label>, key: Key) returns (pid: nat)
    requires key in Exec(lib, Start(issuers), ls).db.idempotency
    ensures
      var procs := Exec(lib, Start(issuers), ls).procs;
      && pid in procs
      && var request := procs[pid].request;
      && key.op == request.Op() && key.organizationId == Trim(request.caller.organizationId)
      && key.principalId == Trim(request.caller.principalId) && key.actorType == Trim(request.caller.actorType)
      && key.idempotencyKey == Trim(request.idempotencyHeader) != ""
  {
    ExecRowsKept(lib, Start(issuers), ls);
    ExecVetted(lib, Start(issuers), ls);
    var s := Exec(lib, Start(issuers), ls);
    pid :| KeptFor(s, key, pid);
    KeyIsCallers(lib, s, pid);
  }

  // An issuance that is past its check of the registry.
  predicate Passed(p: Proc) {
    p.request.Issue? && (p.minted.Some? || (!p.pc.Done? && !p.pc.LoadIssuer?))
  }

  // The registry holds the requester's organization and lists the template verbatim.
  predicate Lists(t: Tables, request: Request)
    requires request.Issue?
  {
    && Trim(request.caller.organizationId) in t.issuers
    && request.templateId in t.issuers[Trim(request.caller.organizationId)].allowedTemplates
  }

  lemma StepPasses(lib: Library, t: Tables, p: Proc, env: Env)
    requires Shaped(p) && OnTrack(p) && !Passed(p) && Passed(Step(lib, t, p, env).1)
    ensures p.request.Issue? && p.pc.LoadIssuer? && Lists(t, p.request)
  {
    if p.pc.LoadIssuer? {
      assert Step(lib, t, p, env) == LoadIssuerStep(t, p, env);
    }
  }

  lemma BeginsNotPassed(lib: Library, request: Request)
    ensures !Passed(Begin(lib, request))
  {
    BeginUntouched(lib, request);
  }

  lemma LabelPasses(lib: Library, s: State, l: Label, pid: nat)
    requires WellShaped(s) && AllOnTrack(s) && !PassedAt(s, pid) && PassedAt(Next(lib, s, l), pid)
    ensures ListedAt(s, pid)
  {
    if pid !in s.procs {
      BeginsNotPassed(lib, l.request);
    } else if l.Run? && l.pid == pid {
      StepPasses(lib, s.db, s.procs[pid], l.env);
    }
  }

  // This request is about to be checked, and the registry lists its template.
  ghost predicate ListedAt(s: State, pid: nat) {
    && pid in s.procs && s.procs[pid].request.Issue?
    && s.procs[pid].pc.LoadIssuer? && Lists(s.db, s.procs[pid].request)
  }

  ghost predicate PassedAt(s: State, pid: nat) {
    pid in s.procs && Passed(s.procs[pid])
  }

  lemma {:induction false} PassedDuring(lib: Library, s: State, ls: seq<Label>, pid: nat) returns (k: nat)
    requires WellShaped(s) && AllOnTrack(s) && !PassedAt(s, pid) && PassedAt(Exec(lib, s, ls), pid)
    ensures k < |ls| && ListedAt(Exec(lib, s, ls[..k]), pid)
    decreases |ls|
  {
    if PassedAt(Next(lib, s, ls[0]), pid) {
      k := 0;
      LabelPasses(lib, s, ls[0], pid);
    } else {
      NextOnTrack(lib, s, ls[0]);
      var j := PassedDuring(lib, Next(lib, s, ls[0]), ls[1..], pid);
      k := j + 1;
      assert ls[..k][1..] == ls[1..][..j];
    }
  }

  lemma SplitAt(lib: Library, s: State, ls: seq<Label>, k: nat)
    requires WellShaped(s) && k <= |ls|
    ensures Exec(lib, s, ls) == Exec(lib, Exec(lib, s, ls[..k]), ls[k..])
  {
    ExecAppend(lib, s, ls[..k], ls[k..]);
    assert ls[..k] + ls[k..] == ls;
  }

  lemma RequestKept(lib: Library, s: State, ls: seq<Label>, pid: nat)
    requires WellShaped(s) && pid in s.procs
    ensures pid in Exec(lib, s, ls).procs && Exec(lib, s, ls).procs[pid].request == s.procs[pid].request
  {
    IdentityKept(lib, s, ls, pid);
  }

  // Behind every credential row of every run stands an earlier point at which its
  // issuance was checked: the registry then held the row's issuer, and listed the
  // template as it was requested, which the row's column holds trimmed.
  lemma CredentialWasListed(lib: Library, issuers: map<string, Issuer>, ls: seq<Label>, id: string)
    returns (minter: nat, k: nat)
    requires id in Exec(lib, Start(issuers), ls).db.credentials
    ensures k < |ls|
    ensures
      var s, s0 := Exec(lib, Start(issuers), ls), Exec(lib, Start(issuers), ls[..k]);
      && MintedBy(s, id, minter) && s.procs[minter].request.Issue?
      && var row, requested := s.db.credentials[id], s.procs[minter].request.templateId;
      && minter in s0.procs && s0.procs[minter].pc.LoadIssuer?
      && row.issuerId in s0.db.issuers
      && requested in s0.db.issuers[row.issuerId].allowedTemplates
      && row.templateId == Trim(requested)
  {
    RunsAreLawful(lib, issuers, ls);
    minter := RowHasMinter(lib, Exec(lib, Start(issuers), ls), id);
    k := PassedDuring(lib, Start(issuers), ls, minter);
    SplitAt(lib, Start(issuers), ls, k);
    RequestKept(lib, Exec(lib, Start(issuers), ls[..k]), ls[k..], minter);
  }

  // Two capital letters.
  predicate Capitals(s: string) {
    |s| == 2 && forall i :: 0 <= i < 2 ==> 'A' <= s[i] <= 'Z'
  }

  predicate CompleteClaims(lib: Library, c: Claims) {
    && Trim(c.fullLegalName) != "" && Trim(c.kycLevel) != ""
    && Trim(c.dateOfBirth) != "" && lib.isIsoDate(c.dateOfBirth)
    && Capitals(c.countryOfResidence) && Capitals(c.documentCountry)
    && c.verifiedAt != 0 && c.expiresAt != 0
  }

  lemma ValidIsComplete(lib: Library, c: Claims)
    ensures ValidClaims(lib, c) <==> CompleteClaims(lib, c)
  {
    if CompleteClaims(lib, c) {
      CodesAreCapitals(c.countryOfResidence);
      CodesAreCapitals(c.documentCountry);
    }
  }

  lemma CodesAreCapitals(s: string)
    ensures IsCountryCode(s) <==> Capitals(s)
  {
    if Capitals(s) {
      assert 'A' <= s[0] <= 'Z' && 'A' <= s[1] <= 'Z';
    }
  }

  predicate Complete(lib: Library, row: Credential) {
    && row.issuerId != "" && row.templateId != "" && row.subjectReference != ""
    && CompleteClaims(lib, row.claims)
    && row.issuedAt == row.claims.verifiedAt && row.expiresAt == row.claims.expiresAt
    && row.statusReference == "status:" + row.credentialId
  }

  // Every credential row of every run is complete: an issuer, a template, a subject, a
  // name, a level, a date of birth, two country codes, its two times, and a reference
  // that names it.
  lemma CredentialsComplete(lib: Library, issuers: map<string, Issuer>, ls: seq<Label>, id: string)
    requires id in Exec(lib, Start(issuers), ls).db.credentials
    ensures Complete(lib, Exec(lib, Start(issuers), ls).db.credentials[id])
  {
    RunsAreLawful(lib, issuers, ls);
    ExecVetted(lib, Start(issuers), ls);
    var s := Exec(lib, Start(issuers), ls);
    var minter := RowHasMinter(lib, s, id);
    MinterValid(lib, s, minter);
    RowNamesItself(lib, s, id, minter);
    CompleteRow(lib, s.procs[minter].request, s.db.credentials[id]);
  }

  lemma RowNamesItself(lib: Library, s: State, id: string, minter: nat)
    requires Lawful(lib, s) && MintedBy(s, id, minter) && id in s.db.credentials
    ensures s.db.credentials[id].statusReference == "status:" + id && s.db.credentials[id].credentialId == id
  {
    var p := s.procs[minter];
    assert CredentialFacts(s.db, p) && MintFacts(lib, p);
    assert Issued(s.db.credentials[id]).statusReference == Issued(p.minted.value).statusReference;
    ReferenceIsTight(p.request.templateId, p.number);
  }

  lemma ReferenceIsTight(templateId: string, n: nat)
    ensures Trim("status:" + FormatCredentialId(templateId, n)) == "status:" + FormatCredentialId(templateId, n)
  {
    var id := FormatCredentialId(templateId, n);
    IdentifiersAreTight(templateId, n);
    TightIsFixed(id);
    TightIsFixed("status:" + id);
  }

  lemma MinterValid(lib: Library, s: State, pid: nat)
    requires AllVetted(lib, s) && pid in s.procs && s.procs[pid].minted.Some?
    ensures Valid(lib, s.procs[pid].request)
  {
    assert Vetted(lib, s.procs[pid]);
  }

  lemma CompleteRow(lib: Library, request: Request, row: Credential)
    requires RowOf(lib, request, row) && Valid(lib, request) && row.statusReference == "status:" + row.credentialId
    ensures Complete(lib, row)
  {
    ValidIsComplete(lib, request.claims);
  }
}
