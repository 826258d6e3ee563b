// How many credentials one idempotency key can create.
module Issuance {
  import opened Text
  import opened Identifiers
  import opened Artifact
  import opened Requests
  import opened Tables
  import opened Handlers
  import opened System
  import opened Ownership
  import opened Progress
  import opened Numbering
  import opened CredentialTable
  import VerificationTables

  // The requests of a key whose credential row was written.
  ghost function Minters(s: State, key: Key): set<nat> {
    set pid | pid in s.procs && s.procs[pid].key == Some(key) && s.procs[pid].minted.Some?
  }

  // The credential rows that were created under a key.
  ghost function Created(s: State, key: Key): set<string> {
    set id | id in s.db.credentials && exists pid :: pid in Minters(s, key) && MintedBy(s, id, pid)
  }

  ghost function Completers(s: State, key: Key): set<nat> {
    set pid | pid in Minters(s, key) && s.procs[pid].completion.Some?
  }

  // Wrote its row and still has the reservation open.
  ghost function Live(s: State, key: Key): set<nat> {
    set pid | pid in Minters(s, key) && s.procs[pid].completion.None? && Open(s.procs[pid])
  }

  // Wrote its row and went away without completing the key.
  ghost function Abandoned(s: State, key: Key): set<nat> {
    set pid | pid in Minters(s, key) && s.procs[pid].completion.None? && !Open(s.procs[pid])
  }

  ghost predicate CompletedKey(s: State, key: Key) {
    key in s.db.idempotency && s.db.idempotency[key].state.Completed?
  }

  lemma {:induction false} ImageSize(pids: set<nat>, procs: map<nat, Proc>)
    requires pids <= procs.Keys
    requires forall i, j :: i in pids && j in pids && procs[i].id == procs[j].id ==> i == j
    ensures |(set pid | pid in pids :: procs[pid].id)| == |pids|
  {
    var ids := set pid | pid in pids :: procs[pid].id;
    if pids == {} {
      assert ids == {};
    } else {
      var i :| i in pids;
      var rest := set pid | pid in pids - {i} :: procs[pid].id;
      ImageSize(pids - {i}, procs);
      assert ids == rest + {procs[i].id};
    }
  }

  lemma AtMostOne<T>(s: set<T>)
    requires forall x, y :: x in s && y in s ==> x == y
    ensures |s| <= 1
    ensures forall x :: x in s ==> s == {x}
  {
    if s != {} {
      var x :| x in s;
      assert s == {x};
    }
  }

  lemma CreatedIsMinters(lib: Library, s: State, key: Key)
    requires Numbered(lib, s) && Credentialed(s)
    ensures |Created(s, key)| == |Minters(s, key)|
  {
    forall i, j | i in Minters(s, key) && j in Minters(s, key) && s.procs[i].id == s.procs[j].id
      ensures i == j
    {
      SameIdSameProc(lib, s, i, j);
    }
    ImageSize(Minters(s, key), s.procs);
    CreatedIsImage(s, key);
  }

  // Each row is named by the request that wrote it, and none of them is gone.
  lemma CreatedIsImage(s: State, key: Key)
    requires AllCredentialFacts(s)
    ensures Created(s, key) == set pid | pid in Minters(s, key) :: s.procs[pid].id
  {
    var ids := set pid | pid in Minters(s, key) :: s.procs[pid].id;
    forall id ensures id in ids <==> id in Created(s, key) {
      if id in ids {
        var pid :| pid in Minters(s, key) && s.procs[pid].id == id;
        assert CredentialFacts(s.db, s.procs[pid]);
        assert MintedBy(s, id, pid);
      }
    }
  }

  lemma CompletersCount(s: State, key: Key)
    requires Owned(s) && AllOnTrack(s) && VerificationTables.AllKeyed(s)
    requires key.op == IssueCredential
    ensures |Completers(s, key)| == if CompletedKey(s, key) then 1 else 0
    ensures |Live(s, key)| <= 1
    ensures CompletedKey(s, key) ==> Live(s, key) == {}
  {
    var done, live := Completers(s, key), Live(s, key);
    forall i, j | i in done + live && j in done + live ensures i == j {
      assert Holds(s.procs[i]) && Holds(s.procs[j]);
    }
    AtMostOne(done);
    AtMostOne(live);
    if CompletedKey(s, key) {
      var pid :| CompletedBy(s, key, pid);
      assert OwnAnswer(s.procs[pid], s.procs[pid].completion.value);
      assert pid in done;
      assert pid !in live;
    }
  }

  lemma Partition(s: State, key: Key)
    ensures |Minters(s, key)| == |Completers(s, key)| + |Live(s, key)| + |Abandoned(s, key)|
  {
    var done, live, gone := Completers(s, key), Live(s, key), Abandoned(s, key);
    assert Minters(s, key) == done + live + gone;
    assert |done + live| == |done| + |live|;
    assert |done + live + gone| == |done + live| + |gone|;
  }

  // Conservation, in every run: the credentials created under an issuance key are
  // one for its completed row, one for an owner that has written its row and is
  // still at work, and one for each owner that wrote its row and went away without
  // completing the key. Without such departures a key creates at most one.
  lemma IssuanceConserved(lib: Library, issuers: map<string, Issuer>, ls: seq<Label>, key: Key)
    requires key.op == IssueCredential
    ensures
      var s := Exec(lib, Start(issuers), ls);
      && |Created(s, key)| == (if CompletedKey(s, key) then 1 else 0) + |Live(s, key)| + |Abandoned(s, key)|
      && |Live(s, key)| <= 1
      && (CompletedKey(s, key) ==> Live(s, key) == {})
      && (Abandoned(s, key) == {} ==> |Created(s, key)| <= 1)
  {
    RunsAreOwned(lib, issuers, ls);
    ExecCredentialed(lib, Start(issuers), ls);
    VerificationTables.ExecKeyed(lib, Start(issuers), ls);
    Conserved(lib, Exec(lib, Start(issuers), ls), key);
  }

  lemma Conserved(lib: Library, s: State, key: Key)
    requires Owned(s) && Numbered(lib, s) && Credentialed(s) && VerificationTables.AllKeyed(s) && key.op == IssueCredential
    ensures |Created(s, key)| == (if CompletedKey(s, key) then 1 else 0) + |Live(s, key)| + |Abandoned(s, key)|
    ensures |Live(s, key)| <= 1
    ensures CompletedKey(s, key) ==> Live(s, key) == {}
    ensures Abandoned(s, key) == {} ==> |Created(s, key)| <= 1
  {
    CreatedIsMinters(lib, s, key);
    CompletersCount(s, key);
    Partition(s, key);
  }

  // A completed issuance row names an existing credential, and its response
  // repeats that row, up to the trimming of columns and later status changes.
  lemma CompletedIssuanceFaithful(lib: Library, issuers: map<string, Issuer>, ls: seq<Label>, key: Key)
    requires key.op == IssueCredential && CompletedKey(Exec(lib, Start(issuers), ls), key)
    ensures
      var s := Exec(lib, Start(issuers), ls);
      var row := s.db.idempotency[key];
      && row.statusCode == 201
      && row.location == CredentialLocation(row.resourceId)
      && row.resourceId in s.db.credentials
      && ReportsCredential(row.body, s.db.credentials[row.resourceId])
  {
    RunsAreOwned(lib, issuers, ls);
    ExecCredentialed(lib, Start(issuers), ls);
    VerificationTables.ExecKeyed(lib, Start(issuers), ls);
    FaithfulIssuance(lib, Exec(lib, Start(issuers), ls), key);
  }

  lemma FaithfulIssuance(lib: Library, s: State, key: Key)
    requires Owned(s) && Numbered(lib, s) && Credentialed(s) && VerificationTables.AllKeyed(s)
    requires key.op == IssueCredential && CompletedKey(s, key)
    ensures
      var row := s.db.idempotency[key];
      && row.statusCode == 201
      && row.location == CredentialLocation(row.resourceId)
      && row.resourceId in s.db.credentials
      && ReportsCredential(row.body, s.db.credentials[row.resourceId])
  {
    var pid :| CompletedBy(s, key, pid);
    var p := s.procs[pid];
    assert Holds(p);
    assert OwnAnswer(p, p.completion.value);
    IdentifiersAreTight(p.request.templateId, p.number);
    var i, j := Issued(s.db.credentials[p.id]), Issued(p.minted.value);
    assert i.credentialId == j.credentialId && i.issuerId == j.issuerId && i.templateId == j.templateId;
    assert i.issuedAt == j.issuedAt && i.expiresAt == j.expiresAt;
    assert i.statusReference == j.statusReference && i.artifact == j.artifact;
  }
}
