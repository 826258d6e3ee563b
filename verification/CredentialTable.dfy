// The credential table over whole runs: every row was minted by one issuance, only
// its status changes, and what a request read of it stays true of it.
module CredentialTable {
  import opened Text
  import opened Identifiers
  import opened Artifact
  import opened Requests
  import opened Tables
  import opened Handlers
  import opened System
  import opened Progress
  import opened Numbering

  // A row without its status columns.
  function Issued(c: Credential): Credential {
    c.(status := "", statusUpdatedAt := 0, supersededBy := "")
  }

  // One of the three statuses, and superseded exactly with a successor.
  predicate StatusOk(c: Credential) {
    && (c.status == ACTIVE || c.status == REVOKED || c.status == SUPERSEDED)
    && (c.status == SUPERSEDED <==> c.supersededBy != "")
  }

  // Rows are never deleted, keep all but their status, and never become active
  // again.
  ghost predicate Evolves(t: Tables, t': Tables) {
    forall id :: id in t.credentials ==>
      && id in t'.credentials
      && Issued(t'.credentials[id]) == Issued(t.credentials[id])
      && (t.credentials[id].status != ACTIVE ==> t'.credentials[id].status != ACTIVE)
  }

  predicate ChangesValid(p: Proc) {
    p.request.Status? && !p.pc.Done? ==> ValidStatusChange(p.request.status, p.request.supersededBy)
  }

  predicate MintedInTable(t: Tables, p: Proc) {
    p.minted.Some? ==>
      && p.minted.value.credentialId == p.id
      && p.id in t.credentials
      && Issued(t.credentials[p.id]) == Issued(p.minted.value)
  }

  predicate ReadInTable(t: Tables, p: Proc) {
    p.read.Some? ==>
      var record := p.read.value.record;
      && StatusOk(record)
      && record.credentialId in t.credentials
      && Issued(t.credentials[record.credentialId]) == Issued(record)
  }

  predicate CredentialFacts(t: Tables, p: Proc) {
    ChangesValid(p) && MintedInTable(t, p) && ReadInTable(t, p)
  }

  ghost predicate MintedBy(s: State, id: string, pid: nat) {
    pid in s.procs && s.procs[pid].minted.Some? && s.procs[pid].id == id
  }

  ghost predicate RowsMinted(s: State) {
    forall id :: id in s.db.credentials ==> exists pid :: MintedBy(s, id, pid)
  }

  ghost predicate RowsOk(t: Tables) {
    forall id :: id in t.credentials ==> StatusOk(t.credentials[id]) && t.credentials[id].credentialId == id
  }

  ghost predicate AllCredentialFacts(s: State) {
    forall pid :: pid in s.procs ==> CredentialFacts(s.db, s.procs[pid])
  }

  ghost predicate Credentialed(s: State) {
    && WellShaped(s)
    && AllOnTrack(s)
    && RowsMinted(s)
    && RowsOk(s.db)
    && AllCredentialFacts(s)
  }

  lemma NewRow(lib: Library, request: Request, n: nat)
    requires request.Issue?
    ensures
      var id := FormatCredentialId(request.templateId, n);
      var row := StoredCredential(NewCredential(lib, request, id));
      row.credentialId == id && StatusOk(row) && row.status == ACTIVE
  {
    IdentifiersAreTight(request.templateId, n);
    TightIsFixed(ACTIVE);
    TightIsFixed("");
  }

  lemma AddRow(t: Tables, t': Tables, row: Credential)
    requires RowsOk(t) && StatusOk(row) && row.credentialId !in t.credentials
    requires t'.credentials == t.credentials[row.credentialId := row]
    ensures Evolves(t, t') && RowsOk(t')
  {
  }

  lemma ReplaceRow(t: Tables, t': Tables, id: string, row: Credential)
    requires RowsOk(t) && StatusOk(row) && id in t.credentials
    requires Issued(row) == Issued(t.credentials[id]) && row.status != ACTIVE
    requires t'.credentials == t.credentials[id := row]
    ensures Evolves(t, t') && RowsOk(t')
  {
    assert row.credentialId == Issued(row).credentialId;
    assert t.credentials[id].credentialId == Issued(t.credentials[id]).credentialId;
  }

  // The INSERT of an issuance adds its row, or changes nothing.
  lemma CreateKeepsTable(t: Tables, p: Proc, c: Credential, env: Env)
    requires Shaped(p) && p.pc.CreateCredential? && RowsOk(t) && p.minted.None?
    requires StatusOk(StoredCredential(c))
    ensures
      var r := CreateStep(t, p, c, env);
      && Evolves(t, r.0) && RowsOk(r.0)
      && (r.1.minted.None? ==> r.0 == t)
      && (r.1.minted.Some? ==>
            && r.1.minted.value == StoredCredential(c)
            && r.0.credentials == t.credentials[Trim(c.credentialId) := StoredCredential(c)])
  {
    var r := CreateStep(t, p, c, env);
    if r.1.minted.Some? {
      AddRow(t, r.0, StoredCredential(c));
    }
  }

  lemma StatusWriteOk(status: string, supersededBy: string, row: Credential, at: int)
    requires ValidStatusChange(status, supersededBy)
    ensures
      var row' := row.(status := Trim(status), statusUpdatedAt := at, supersededBy := Trim(supersededBy));
      StatusOk(row') && row'.status != ACTIVE && Issued(row') == Issued(row)
  {
  }

  lemma StatusKeepsTable(t: Tables, p: Proc, env: Env)
    requires Shaped(p) && p.pc.WriteStatusRow? && ChangesValid(p) && RowsOk(t)
    ensures
      var t' := WriteStatusStep(t, p, env).0;
      Evolves(t, t') && RowsOk(t') && t'.credentials.Keys == t.credentials.Keys
  {
    var t' := WriteStatusStep(t, p, env).0;
    var id := Trim(p.read.value.record.credentialId);
    if id in t.credentials && !env.fault.Refused? {
      StatusWriteOk(p.request.status, p.request.supersededBy, t.credentials[id], env.now);
      ReplaceRow(t, t', id, t'.credentials[id]);
    } else {
      assert t' == t;
    }
  }

  // Facts about a request outlive every step of the others.
  lemma FactsOutlive(t: Tables, t': Tables, p: Proc)
    requires CredentialFacts(t, p) && Evolves(t, t')
    ensures CredentialFacts(t', p)
  {
  }

  // A read returns a row of the table.
  lemma ReadsRows(lib: Library, t: Tables, p: Proc, env: Env)
    requires Shaped(p) && RowsOk(t)
    ensures p.pc.FindByDigest? ==>
      var q := FindByDigestStep(lib, t, p, env).1;
      q.read == p.read || (ReadInTable(t, q) && q.read.value.record.credentialId in t.credentials
                           && q.read.value.record == t.credentials[q.read.value.record.credentialId])
    ensures p.pc.FindById? ==>
      var q := FindByIdStep(t, p, env).1;
      q.read == p.read || (ReadInTable(t, q) && q.read.value.record.credentialId in t.credentials
                           && q.read.value.record == t.credentials[q.read.value.record.credentialId])
    ensures p.pc.LoadCredential? ==>
      var q := LoadCredentialStep(t, p, env).1;
      q.read == p.read || (ReadInTable(t, q) && q.read.value.record.credentialId in t.credentials
                           && q.read.value.record == t.credentials[q.read.value.record.credentialId])
  {
  }

  lemma BeginCredentialFacts(lib: Library, t: Tables, request: Request)
    ensures CredentialFacts(t, Begin(lib, request))
  {
  }

  lemma CreateStepFacts(t: Tables, p: Proc, c: Credential, env: Env)
    requires Shaped(p) && p.pc.CreateCredential? && p.minted.None? && RowsOk(t) && CredentialFacts(t, p)
    requires StatusOk(StoredCredential(c)) && StoredCredential(c).credentialId == p.id
    ensures
      var r := CreateStep(t, p, c, env);
      && CredentialFacts(r.0, r.1) && Evolves(t, r.0) && RowsOk(r.0)
      && (r.1.minted.None? ==> r.0 == t)
      && (r.1.minted.Some? ==> r.0.credentials.Keys == t.credentials.Keys + {r.1.id})
  {
    CreateKeepsTable(t, p, c, env);
  }

  lemma CreateFacts(lib: Library, t: Tables, p: Proc, env: Env)
    requires Shaped(p) && OnTrack(p) && Named(lib, p) && RowsOk(t) && CredentialFacts(t, p)
    requires p.pc.CreateCredential?
    ensures
      var r := CreateCredentialStep(lib, t, p, env);
      && CredentialFacts(r.0, r.1) && Evolves(t, r.0) && RowsOk(r.0)
      && (r.1.minted.None? ==> r.0 == t)
      && (r.1.minted.Some? ==> r.0.credentials.Keys == t.credentials.Keys + {r.1.id})
  {
    var c := NewCredential(lib, p.request, p.id);
    NewRow(lib, p.request, p.number);
    CreateStepFacts(t, p, c, env);
  }

  lemma OtherFacts(t: Tables, p: Proc, t': Tables, q: Proc)
    requires CredentialFacts(t, p) && SameRequest(p, q) && t'.credentials == t.credentials
    requires q.minted == p.minted && (q.read == p.read || ReadInTable(t, q))
    requires p.minted.Some? ==> q.id == p.id
    requires p.pc.Done? ==> q.pc.Done?
    ensures CredentialFacts(t', q) && Evolves(t, t')
  {
  }

  lemma StepFacts(lib: Library, t: Tables, p: Proc, env: Env)
    requires Shaped(p) && OnTrack(p) && Named(lib, p) && RowsOk(t) && CredentialFacts(t, p)
    ensures
      var r := Step(lib, t, p, env);
      && CredentialFacts(r.0, r.1) && Evolves(t, r.0) && RowsOk(r.0)
      && (r.0.credentials.Keys == t.credentials.Keys
          || (r.1.minted.Some? && r.0.credentials.Keys == t.credentials.Keys + {r.1.id}))
  {
    var r := Step(lib, t, p, env);
    if p.pc.CreateCredential? {
      CreateFacts(lib, t, p, env);
    } else {
      FieldsFrame(lib, t, p, env);
      if p.pc.WriteStatusRow? {
        StatusKeepsTable(t, p, env);
        FactsOutlive(t, r.0, p);
      } else {
        CredentialsFrame(lib, t, p, env);
        ReadsRows(lib, t, p, env);
        OtherFacts(t, p, r.0, r.1);
      }
    }
  }

  lemma MintedStays(lib: Library, t: Tables, p: Proc, env: Env)
    requires Shaped(p) && OnTrack(p) && p.minted.Some?
    ensures Step(lib, t, p, env).1.minted == p.minted && Step(lib, t, p, env).1.id == p.id
  {
    FieldsFrame(lib, t, p, env);
  }

  lemma FactsStill(s: State, pid: nat, s': State)
    requires AllCredentialFacts(s) && Evolves(s.db, s'.db)
    requires pid in s'.procs && s'.procs == s.procs[pid := s'.procs[pid]]
    requires CredentialFacts(s'.db, s'.procs[pid])
    ensures AllCredentialFacts(s')
  {
    forall j | j in s'.procs ensures CredentialFacts(s'.db, s'.procs[j]) {
      if j != pid {
        FactsOutlive(s.db, s'.db, s.procs[j]);
      }
    }
  }

  // One request changes, and the table at most gains the row it minted.
  lemma StillCredentialed(s: State, pid: nat, s': State)
    requires Credentialed(s) && WellShaped(s') && AllOnTrack(s') && Evolves(s.db, s'.db) && RowsOk(s'.db)
    requires pid in s'.procs && s'.procs == s.procs[pid := s'.procs[pid]]
    requires CredentialFacts(s'.db, s'.procs[pid])
    requires pid in s.procs && s.procs[pid].minted.Some? ==>
      s'.procs[pid].minted == s.procs[pid].minted && s'.procs[pid].id == s.procs[pid].id
    requires s'.db.credentials.Keys == s.db.credentials.Keys
             || (s'.procs[pid].minted.Some? && s'.db.credentials.Keys == s.db.credentials.Keys + {s'.procs[pid].id})
    ensures Credentialed(s')
  {
    FactsStill(s, pid, s');
    forall id | id in s'.db.credentials ensures exists j :: MintedBy(s', id, j) {
      if id in s.db.credentials {
        var j :| MintedBy(s, id, j);
        assert MintedBy(s', id, j);
      } else {
        assert MintedBy(s', id, pid);
      }
    }
  }

  lemma RunCredentialed(lib: Library, s: State, pid: nat, env: Env)
    requires Credentialed(s) && pid in s.procs && Named(lib, s.procs[pid])
    ensures Credentialed(Next(lib, s, Run(pid, env)))
    ensures Evolves(s.db, Next(lib, s, Run(pid, env)).db)
  {
    var p := s.procs[pid];
    NextOnTrack(lib, s, Run(pid, env));
    StepFacts(lib, s.db, p, env);
    if p.minted.Some? {
      MintedStays(lib, s.db, p, env);
    }
    StillCredentialed(s, pid, Next(lib, s, Run(pid, env)));
  }

  lemma ArriveCredentialed(lib: Library, s: State, pid: nat, request: Request)
    requires Credentialed(s)
    ensures Credentialed(Next(lib, s, Arrive(pid, request)))
    ensures Evolves(s.db, Next(lib, s, Arrive(pid, request)).db)
  {
    NextOnTrack(lib, s, Arrive(pid, request));
    if pid !in s.procs {
      BeginCredentialFacts(lib, s.db, request);
      StillCredentialed(s, pid, Next(lib, s, Arrive(pid, request)));
    }
  }

  lemma CrashCredentialed(lib: Library, s: State, pid: nat)
    requires Credentialed(s)
    ensures Credentialed(Next(lib, s, Crash(pid))) && Evolves(s.db, Next(lib, s, Crash(pid)).db)
  {
    if pid in s.procs {
      WithoutCredentialed(s, pid);
    }
  }

  lemma WithoutCredentialed(s: State, pid: nat)
    requires Credentialed(s) && pid in s.procs
    ensures Credentialed(Without(s, pid)) && Without(s, pid).db == s.db
  {
    WithoutOnTrack(s, pid);
    StillCredentialed(s, pid, Without(s, pid));
  }

  // Only other tables change.
  lemma SameCredentials(s: State, s': State)
    requires Credentialed(s) && s'.procs == s.procs && s'.db.credentials == s.db.credentials
    ensures Credentialed(s') && Evolves(s.db, s'.db)
  {
    forall id | id in s'.db.credentials ensures exists j :: MintedBy(s', id, j) {
      var j :| MintedBy(s, id, j);
      assert MintedBy(s', id, j);
    }
  }

  lemma SetIssuersCredentialed(lib: Library, s: State, issuers: map<string, Issuer>)
    requires Credentialed(s)
    ensures Credentialed(Next(lib, s, SetIssuers(issuers)))
    ensures Evolves(s.db, Next(lib, s, SetIssuers(issuers)).db)
  {
    SameCredentials(s, Next(lib, s, SetIssuers(issuers)));
  }

  lemma NextCredentialed(lib: Library, s: State, l: Label)
    requires Numbered(lib, s) && Credentialed(s)
    ensures Credentialed(Next(lib, s, l)) && Evolves(s.db, Next(lib, s, l).db)
  {
    match l
    case Arrive(pid, request) => ArriveCredentialed(lib, s, pid, request);
    case Run(pid, env) =>
      if pid in s.procs {
        RunCredentialed(lib, s, pid, env);
      }
    case Crash(pid) => CrashCredentialed(lib, s, pid);
    case SetIssuers(issuers) => SetIssuersCredentialed(lib, s, issuers);
  }

  lemma {:induction false} ExecCredentialed(lib: Library, s: State, ls: seq<Label>)
    requires Numbered(lib, s) && Credentialed(s)
    ensures Numbered(lib, Exec(lib, s, ls)) && Credentialed(Exec(lib, s, ls))
    ensures Evolves(s.db, Exec(lib, s, ls).db)
    decreases |ls|
  {
    if ls != [] {
      NextNumbered(lib, s, ls[0]);
      NextCredentialed(lib, s, ls[0]);
      ExecCredentialed(lib, Next(lib, s, ls[0]), ls[1..]);
    }
  }

  // In every interleaving each stored status is one of the three, superseded
  // exactly with a successor, and each row is keyed by its own identifier.
  lemma StatusesWellFormed(lib: Library, issuers: map<string, Issuer>, ls: seq<Label>, id: string)
    requires id in Exec(lib, Start(issuers), ls).db.credentials
    ensures StatusOk(Exec(lib, Start(issuers), ls).db.credentials[id])
    ensures Exec(lib, Start(issuers), ls).db.credentials[id].credentialId == id
  {
    ExecCredentialed(lib, Start(issuers), ls);
  }

  // In every interleaving a credential is never deleted, keeps everything but its
  // status, and once not active is never active again.
  lemma NeverActiveAgain(lib: Library, issuers: map<string, Issuer>, ls: seq<Label>, ms: seq<Label>)
    ensures Evolves(Exec(lib, Start(issuers), ls).db, Exec(lib, Start(issuers), ls + ms).db)
  {
    ExecCredentialed(lib, Start(issuers), ls);
    ExecAppend(lib, Start(issuers), ls, ms);
    ExecCredentialed(lib, Exec(lib, Start(issuers), ls), ms);
  }
}
