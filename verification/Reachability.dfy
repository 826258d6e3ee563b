// Reachable states, what holds in all of them, and a request taking several steps.
module Reachability {
  import opened Text
  import opened Artifact
  import opened Tables
  import opened Handlers
  import opened System
  import opened Ownership
  import opened Minting
  import opened FreshKeys
  import Replay

  // Some run from a fresh database ends here.
  ghost predicate Reachable(lib: Library, s: State) {
    exists issuers, ls :: s == Exec(lib, Start(issuers), ls)
  }

  lemma RunIsReachable(lib: Library, issuers: map<string, Issuer>, ls: seq<Label>)
    ensures Reachable(lib, Exec(lib, Start(issuers), ls))
  {
  }

  lemma Invariants(lib: Library, s: State)
    requires Reachable(lib, s)
    ensures Lawful(lib, s) && Keyed(lib, s)
  {
    var issuers, ls :| s == Exec(lib, Start(issuers), ls);
    RunsAreLawful(lib, issuers, ls);
    ExecKeysFresh(lib, Start(issuers), ls);
  }

  lemma OwnedWhenReachable(lib: Library, s: State)
    requires Reachable(lib, s)
    ensures Owned(s) && Replay.RepliesFromRows(s)
  {
    var issuers, ls :| s == Exec(lib, Start(issuers), ls);
    RunsAreOwned(lib, issuers, ls);
    Replay.ExecReplies(lib, Start(issuers), ls);
  }

  lemma NextReachable(lib: Library, s: State, l: Label)
    requires Reachable(lib, s) && WellShaped(s)
    ensures Reachable(lib, Next(lib, s, l))
  {
    var issuers, ls :| s == Exec(lib, Start(issuers), ls);
    ExecSnoc(lib, Start(issuers), ls, l);
  }

  lemma CredentialFree(lib: Library, s: State, pid: nat)
    requires Reachable(lib, s) && pid in s.procs && s.procs[pid].pc.CreateCredential?
    ensures Trim(s.procs[pid].id) !in s.db.credentials
  {
    Invariants(lib, s);
    CredentialKeyFree(lib, s, pid);
  }

  lemma RequestFree(lib: Library, s: State, pid: nat)
    requires Reachable(lib, s) && pid in s.procs && s.procs[pid].pc.StoreRequest?
    ensures Trim(s.procs[pid].id) !in s.db.requests
  {
    Invariants(lib, s);
    RequestKeyFree(lib, s, pid);
  }

  lemma ResultFree(lib: Library, s: State, pid: nat)
    requires Reachable(lib, s) && pid in s.procs && s.procs[pid].pc.StoreResult?
    ensures Trim(s.procs[pid].id) !in s.db.results
    ensures s.procs[pid].verdict.Some? ==> s.procs[pid].verdict.value.verificationId == s.procs[pid].id
  {
    Invariants(lib, s);
    ResultKeyFree(lib, s, pid);
  }

  lemma CompletingRow(lib: Library, s: State, pid: nat)
    requires Reachable(lib, s) && pid in s.procs && s.procs[pid].pc.Completing?
    ensures s.procs[pid].key.Some? && s.procs[pid].key.value in s.db.idempotency
  {
    OwnedWhenReachable(lib, s);
    CompletingHasRow(s, pid);
  }
}
