// The plain INSERTs of credentials, verification requests and results have no
// conflict clause. That their primary keys are always free is an invariant of
// whole runs.
module FreshKeys {
  import opened Text
  import opened Identifiers
  import opened Artifact
  import opened Requests
  import opened Tables
  import opened Handlers
  import opened System
  import opened Progress
  import opened Numbering
  import opened CredentialTable
  import opened VerificationTables

  ghost predicate FiledBy(s: State, id: string, pid: nat) {
    pid in s.procs && s.procs[pid].filed && Trim(s.procs[pid].id) == id
  }

  ghost predicate RequestsFiled(s: State) {
    forall id :: id in s.db.requests ==> exists pid :: FiledBy(s, id, pid)
  }

  lemma StillFiled(s: State, pid: nat, s': State)
    requires RequestsFiled(s)
    requires pid in s'.procs && s'.procs == s.procs[pid := s'.procs[pid]]
    requires pid in s.procs && s.procs[pid].filed ==> s'.procs[pid].filed && s'.procs[pid].id == s.procs[pid].id
    requires s'.db.requests.Keys == s.db.requests.Keys
             || (s'.procs[pid].filed && s'.db.requests.Keys == s.db.requests.Keys + {Trim(s'.procs[pid].id)})
    ensures RequestsFiled(s')
  {
    forall id | id in s'.db.requests.Keys ensures exists j :: FiledBy(s', id, j) {
      if id in s.db.requests.Keys {
        var j :| FiledBy(s, id, j);
        assert FiledBy(s', id, j);
      } else {
        assert FiledBy(s', id, pid);
      }
    }
  }

  lemma StoreRequestKeys(lib: Library, t: Tables, p: Proc, env: Env)
    requires Shaped(p) && p.pc.StoreRequest?
    ensures
      var r := StoreRequestStep(lib, t, p, env);
      && (p.filed ==> r.1.filed) && r.1.id == p.id
      && (r.0.requests.Keys == t.requests.Keys || (r.1.filed && r.0.requests.Keys == t.requests.Keys + {Trim(r.1.id)}))
  {
  }

  lemma StepFiles(lib: Library, t: Tables, p: Proc, env: Env)
    requires Shaped(p) && OnTrack(p)
    ensures
      var r := Step(lib, t, p, env);
      && (p.filed ==> r.1.filed && r.1.id == p.id)
      && (r.0.requests.Keys == t.requests.Keys || (r.1.filed && r.0.requests.Keys == t.requests.Keys + {Trim(r.1.id)}))
  {
    FieldsFrame(lib, t, p, env);
    if p.pc.StoreRequest? {
      StoreRequestKeys(lib, t, p, env);
      assert Step(lib, t, p, env) == StoreRequestStep(lib, t, p, env);
    } else {
      RequestsFrame(lib, t, p, env);
    }
  }

  lemma NextFiled(lib: Library, s: State, l: Label)
    requires WellShaped(s) && AllOnTrack(s) && RequestsFiled(s)
    ensures RequestsFiled(Next(lib, s, l))
  {
    match l
    case Arrive(pid, request) =>
      if pid !in s.procs {
        StillFiled(s, pid, Next(lib, s, l));
      }
    case Run(pid, env) =>
      if pid in s.procs {
        StepFiles(lib, s.db, s.procs[pid], env);
        StillFiled(s, pid, Next(lib, s, l));
      }
    case Crash(pid) =>
      if pid in s.procs {
        StillFiled(s, pid, Without(s, pid));
      }
    case SetIssuers(issuers) =>
      forall id | id in s.db.requests ensures exists j :: FiledBy(Next(lib, s, l), id, j) {
        var j :| FiledBy(s, id, j);
        assert FiledBy(Next(lib, s, l), id, j);
      }
  }

  // Everything a request's inserts rely on.
  ghost predicate Keyed(lib: Library, s: State) {
    Numbered(lib, s) && Credentialed(s) && Recorded(s) && RequestsFiled(s)
  }

  lemma NextKeysFresh(lib: Library, s: State, l: Label)
    requires Keyed(lib, s)
    ensures Keyed(lib, Next(lib, s, l))
  {
    NextNumbered(lib, s, l);
    NextCredentialed(lib, s, l);
    NextRecorded(lib, s, l);
    NextFiled(lib, s, l);
  }

  lemma {:induction false} ExecKeysFresh(lib: Library, s: State, ls: seq<Label>)
    requires Keyed(lib, s)
    ensures Keyed(lib, Exec(lib, s, ls))
    decreases |ls|
  {
    if ls != [] {
      NextKeysFresh(lib, s, ls[0]);
      ExecKeysFresh(lib, Next(lib, s, ls[0]), ls[1..]);
    }
  }

  lemma CredentialKeyFree(lib: Library, s: State, pid: nat)
    requires Numbered(lib, s) && Credentialed(s) && pid in s.procs && s.procs[pid].pc.CreateCredential?
    ensures Trim(s.procs[pid].id) !in s.db.credentials
  {
    var p := s.procs[pid];
    IdentifiersAreTight(p.request.templateId, p.number);
    if p.id in s.db.credentials {
      var j :| MintedBy(s, p.id, j);
      SameIdSameProc(lib, s, pid, j);
    }
  }

  // A request writes each of its rows once.
  lemma WritesOnce(p: Proc)
    requires Shaped(p) && OnTrack(p)
    ensures p.filed || p.stored ==> p.request.Verify? && p.number > 0
    ensures p.pc.StoreRequest? ==> p.request.Verify? && p.number > 0 && !p.filed
    ensures p.pc.StoreResult? ==> p.request.Verify? && p.number > 0 && !p.stored
  {
  }

  lemma VerificationsDiffer(lib: Library, s: State, i: nat, j: nat)
    requires Numbered(lib, s) && i in s.procs && j in s.procs && i != j
    requires s.procs[i].request.Verify? && s.procs[j].request.Verify?
    requires s.procs[i].number > 0 && s.procs[j].number > 0
    ensures Trim(s.procs[i].id) != Trim(s.procs[j].id)
  {
    IdentifiersAreTight("", s.procs[i].number);
    IdentifiersAreTight("", s.procs[j].number);
    if s.procs[i].id == s.procs[j].id {
      SameIdSameProc(lib, s, i, j);
    }
  }

  lemma RequestKeyFree(lib: Library, s: State, pid: nat)
    requires Numbered(lib, s) && RequestsFiled(s) && pid in s.procs && s.procs[pid].pc.StoreRequest?
    ensures Trim(s.procs[pid].id) !in s.db.requests
  {
    var key := Trim(s.procs[pid].id);
    WritesOnce(s.procs[pid]);
    forall j | FiledBy(s, key, j) ensures false {
      WritesOnce(s.procs[j]);
      VerificationsDiffer(lib, s, pid, j);
    }
  }

  // Whoever has not stored a result has none in the table.
  lemma UnstoredHasNoResult(lib: Library, s: State, pid: nat)
    requires Numbered(lib, s) && ResultsStored(s) && pid in s.procs
    requires s.procs[pid].request.Verify? && s.procs[pid].number > 0 && !s.procs[pid].stored
    ensures Trim(s.procs[pid].id) !in s.db.results
  {
    var key := Trim(s.procs[pid].id);
    forall j | StoredBy(s, key, j) ensures false {
      WritesOnce(s.procs[j]);
      VerificationsDiffer(lib, s, pid, j);
    }
  }

  lemma ResultKeyFree(lib: Library, s: State, pid: nat)
    requires Numbered(lib, s) && ResultsStored(s) && pid in s.procs && s.procs[pid].pc.StoreResult?
    ensures Trim(s.procs[pid].id) !in s.db.results
  {
    WritesOnce(s.procs[pid]);
    UnstoredHasNoResult(lib, s, pid);
  }

  // In every run the key of each of the three inserts is free when its turn comes.
  lemma InsertsNeverCollide(lib: Library, issuers: map<string, Issuer>, ls: seq<Label>, pid: nat)
    requires pid in Exec(lib, Start(issuers), ls).procs
    ensures
      var s := Exec(lib, Start(issuers), ls);
      var p := s.procs[pid];
      && (p.pc.CreateCredential? ==> Trim(p.id) !in s.db.credentials)
      && (p.pc.StoreRequest? ==> Trim(p.id) !in s.db.requests)
      && (p.pc.StoreResult? ==> Trim(p.id) !in s.db.results)
  {
    ExecKeysFresh(lib, Start(issuers), ls);
    FreeInState(lib, Exec(lib, Start(issuers), ls), pid);
  }

  lemma FreeInState(lib: Library, s: State, pid: nat)
    requires Keyed(lib, s) && pid in s.procs
    ensures
      var p := s.procs[pid];
      && (p.pc.CreateCredential? ==> Trim(p.id) !in s.db.credentials)
      && (p.pc.StoreRequest? ==> Trim(p.id) !in s.db.requests)
      && (p.pc.StoreResult? ==> Trim(p.id) !in s.db.results)
  {
    match s.procs[pid].pc
    case CreateCredential => CredentialKeyFree(lib, s, pid);
    case StoreRequest => RequestKeyFree(lib, s, pid);
    case StoreResult => ResultKeyFree(lib, s, pid);
    case _ =>
  }
}
