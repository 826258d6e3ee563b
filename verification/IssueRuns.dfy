// An issuance running alone up to its credential INSERT, and two things such runs
// show: a key that creates two credentials, and a row whose digest its own columns
// do not rebuild.
module IssueRuns {
  import opened Text
  import opened Artifact
  import opened Requests
  import opened Tables
  import opened Evaluation
  import opened Handlers
  import opened System
  import opened Ownership
  import opened CredentialTable
  import opened Minting
  import opened Issuance
  import opened Reachability

  // The registry knows the issuer and lists the template, literally as requested.
  predicate Issuable(lib: Library, t: Tables, request: Request) {
    && request.Issue? && Attributed(request.caller) && Valid(lib, request) && KeyOf(request).Some?
    && IssuerOf(request) in t.issuers
    && request.templateId in t.issuers[IssuerOf(request)].allowedTemplates
  }

  function With(f: Fault): Env {
    Env(f, 0, TrustRefused)
  }

  // Only this request has moved, and this is how far.
  predicate Stage(s0: State, s: State, pid: nat, request: Request, pc: PC) {
    && pid in s.procs && s.procs == s0.procs[pid := s.procs[pid]]
    && s.procs[pid].request == request && s.procs[pid].key == KeyOf(request)
    && s.procs[pid].pc == pc
    && s.procs[pid].completion.None?
    && s.db.issuers == s0.db.issuers
  }

  lemma BeginsToLoad(lib: Library, request: Request)
    requires request.Issue? && Attributed(request.caller) && Valid(lib, request)
    ensures
      var p := Begin(lib, request);
      p.request == request && p.key == KeyOf(request) && p.pc == LoadIssuer && p.completion.None?
  {
  }

  lemma Arrives(lib: Library, s: State, pid: nat, request: Request)
    requires WellShaped(s) && pid !in s.procs && Issuable(lib, s.db, request)
    ensures
      var s' := Next(lib, s, Arrive(pid, request));
      Stage(s, s', pid, request, LoadIssuer) && s'.db == s.db
  {
    BeginsToLoad(lib, request);
  }

  lemma Moves(s0: State, s: State, s': State, pid: nat, request: Request, pc: PC)
    requires pid in s.procs && Stage(s0, s, pid, request, s.procs[pid].pc)
    requires pid in s'.procs && s'.procs == s.procs[pid := s'.procs[pid]] && s'.db.issuers == s.db.issuers
    requires SameRequest(s.procs[pid], s'.procs[pid]) && s'.procs[pid].pc == pc && s'.procs[pid].completion.None?
    ensures Stage(s0, s', pid, request, pc)
  {
  }

  lemma LoadsIssuer(lib: Library, t: Tables, p: Proc)
    requires Shaped(p) && p.pc.LoadIssuer? && Issuable(lib, t, p.request) && p.key == KeyOf(p.request)
    ensures LoadIssuerStep(t, p, With(Fine)) == (t, p.(pc := ReserveInsert))
  {
  }

  lemma Loads(lib: Library, s0: State, s: State, pid: nat, request: Request)
    requires WellShaped(s) && Stage(s0, s, pid, request, LoadIssuer) && Issuable(lib, s.db, request)
    ensures
      var s' := Next(lib, s, Run(pid, With(Fine)));
      Stage(s0, s', pid, request, ReserveInsert) && s'.db == s.db
  {
    LoadsIssuer(lib, s.db, s.procs[pid]);
    assert Step(lib, s.db, s.procs[pid], With(Fine)) == LoadIssuerStep(s.db, s.procs[pid], With(Fine));
    Moves(s0, s, Next(lib, s, Run(pid, With(Fine))), pid, request, ReserveInsert);
  }

  lemma TakesKey(t: Tables, p: Proc)
    requires Shaped(p) && p.pc.ReserveInsert? && p.request.Issue? && p.key.value !in t.idempotency
    ensures
      var r := ReserveInsertStep(t, p, With(Fine));
      r.1 == p.(pc := Allocate) && r.0.issuers == t.issuers
  {
  }

  lemma Reserves(lib: Library, s0: State, s: State, pid: nat, request: Request)
    requires WellShaped(s) && Stage(s0, s, pid, request, ReserveInsert) && request.Issue?
    requires KeyOf(request).Some? && KeyOf(request).value !in s.db.idempotency
    ensures Stage(s0, Next(lib, s, Run(pid, With(Fine))), pid, request, Allocate)
  {
    TakesKey(s.db, s.procs[pid]);
    assert Step(lib, s.db, s.procs[pid], With(Fine)) == ReserveInsertStep(s.db, s.procs[pid], With(Fine));
    Moves(s0, s, Next(lib, s, Run(pid, With(Fine))), pid, request, Allocate);
  }

  lemma DrawsNumber(lib: Library, t: Tables, p: Proc)
    requires Shaped(p) && p.pc.Allocate? && p.request.Issue?
    ensures
      var r := AllocateStep(lib, t, p, With(Fine));
      r.1.pc == CreateCredential && SameRequest(p, r.1) && r.1.completion == p.completion && r.0.issuers == t.issuers
  {
  }

  lemma Numbers(lib: Library, s0: State, s: State, pid: nat, request: Request)
    requires WellShaped(s) && Stage(s0, s, pid, request, Allocate) && request.Issue?
    ensures Stage(s0, Next(lib, s, Run(pid, With(Fine))), pid, request, CreateCredential)
  {
    DrawsNumber(lib, s.db, s.procs[pid]);
    assert Step(lib, s.db, s.procs[pid], With(Fine)) == AllocateStep(lib, s.db, s.procs[pid], With(Fine));
    Moves(s0, s, Next(lib, s, Run(pid, With(Fine))), pid, request, CreateCredential);
  }

  lemma WritesRow(t: Tables, p: Proc, c: Credential, f: Fault)
    requires Shaped(p) && p.pc.CreateCredential? && p.key.Some? && Trim(c.credentialId) !in t.credentials && !f.Refused?
    ensures
      var r := CreateStep(t, p, c, With(f));
      && r.1.minted.Some? && SameRequest(p, r.1) && r.1.completion == p.completion && r.0.issuers == t.issuers
      && r.1.pc == if f.Lost? then Releasing(Failed(PersistenceError)) else Completing(IssuedCompletion(c))
  {
  }

  lemma CreatesRow(lib: Library, t: Tables, p: Proc, f: Fault)
    requires Shaped(p) && p.pc.CreateCredential? && p.key.Some? && Trim(p.id) !in t.credentials && !f.Refused?
    ensures
      var r := Step(lib, t, p, With(f));
      && r.1.minted.Some? && SameRequest(p, r.1) && r.1.completion == p.completion && r.0.issuers == t.issuers
      && (f.Lost? ==> r.1.pc == Releasing(Failed(PersistenceError)))
      && (!f.Lost? ==> r.1.pc.Completing?)
  {
    var c := NewCredential(lib, p.request, p.id);
    WritesRow(t, p, c, f);
    assert Step(lib, t, p, With(f)) == CreateStep(t, p, c, With(f));
  }

  lemma Creates(lib: Library, s0: State, s: State, pid: nat, request: Request, f: Fault)
    requires WellShaped(s) && Stage(s0, s, pid, request, CreateCredential) && KeyOf(request).Some?
    requires Trim(s.procs[pid].id) !in s.db.credentials && !f.Refused?
    ensures
      var s' := Next(lib, s, Run(pid, With(f)));
      && pid in s'.procs && Stage(s0, s', pid, request, s'.procs[pid].pc) && s'.procs[pid].minted.Some?
      && (f.Lost? ==> s'.procs[pid].pc == Releasing(Failed(PersistenceError)))
      && (!f.Lost? ==> s'.procs[pid].pc.Completing?)
  {
    CreatesRow(lib, s.db, s.procs[pid], f);
    var s' := Next(lib, s, Run(pid, With(f)));
    Moves(s0, s, s', pid, request, s'.procs[pid].pc);
  }

  // An arrival, three steps without faults, and the credential INSERT going this way.
  function IssueRun(pid: nat, request: Request, f: Fault): seq<Label> {
    [Arrive(pid, request), Run(pid, With(Fine)), Run(pid, With(Fine)), Run(pid, With(Fine))] + [Run(pid, With(f))]
  }

  lemma RunLabels(lib: Library, s: State, pid: nat, request: Request, f: Fault) returns (s4: State)
    requires WellShaped(s)
    ensures WellShaped(s4)
    ensures s4 == Next(lib, Next(lib, Next(lib, Next(lib, s, Arrive(pid, request)), Run(pid, With(Fine))),
                                 Run(pid, With(Fine))), Run(pid, With(Fine)))
    ensures Exec(lib, s, IssueRun(pid, request, f)) == Next(lib, s4, Run(pid, With(f)))
  {
    var front := [Arrive(pid, request), Run(pid, With(Fine)), Run(pid, With(Fine)), Run(pid, With(Fine))];
    Unroll4(lib, s, front);
    ExecSnoc(lib, s, front, Run(pid, With(f)));
    s4 := Exec(lib, s, front);
  }

  lemma UpToInsert(lib: Library, s: State, pid: nat, request: Request) returns (s4: State)
    requires Reachable(lib, s) && WellShaped(s) && pid !in s.procs && Issuable(lib, s.db, request)
    requires KeyOf(request).value !in s.db.idempotency
    ensures s4 == Next(lib, Next(lib, Next(lib, Next(lib, s, Arrive(pid, request)), Run(pid, With(Fine))),
                                 Run(pid, With(Fine))), Run(pid, With(Fine)))
    ensures WellShaped(s4) && Reachable(lib, s4) && Stage(s, s4, pid, request, CreateCredential)
  {
    var run := Run(pid, With(Fine));
    Arrives(lib, s, pid, request);
    var s1 := Next(lib, s, Arrive(pid, request));
    NextReachable(lib, s, Arrive(pid, request));
    Loads(lib, s, s1, pid, request);
    var s2 := Next(lib, s1, run);
    NextReachable(lib, s1, run);
    Reserves(lib, s, s2, pid, request);
    var s3 := Next(lib, s2, run);
    NextReachable(lib, s2, run);
    Numbers(lib, s, s3, pid, request);
    s4 := Next(lib, s3, run);
    NextReachable(lib, s3, run);
  }

  lemma IssueRunMints(lib: Library, s: State, pid: nat, request: Request, f: Fault) returns (s': State)
    requires Reachable(lib, s) && WellShaped(s) && pid !in s.procs && Issuable(lib, s.db, request) && !f.Refused?
    requires KeyOf(request).value !in s.db.idempotency
    ensures s' == Exec(lib, s, IssueRun(pid, request, f)) && WellShaped(s') && Reachable(lib, s')
    ensures pid in s'.procs && Stage(s, s', pid, request, s'.procs[pid].pc) && s'.procs[pid].minted.Some?
    ensures f.Lost? ==> s'.procs[pid].pc == Releasing(Failed(PersistenceError))
    ensures !f.Lost? ==> s'.procs[pid].pc.Completing?
  {
    var s4 := UpToInsert(lib, s, pid, request);
    var t4 := RunLabels(lib, s, pid, request, f);
    CredentialFree(lib, s4, pid);
    Creates(lib, s, s4, pid, request, f);
    NextReachable(lib, s4, Run(pid, With(f)));
    s' := Next(lib, s4, Run(pid, With(f)));
  }

  lemma ReleasesKey(t: Tables, p: Proc)
    requires Shaped(p) && p.pc.Releasing? && p.key.value in t.idempotency && t.idempotency[p.key.value].state.Reserved?
    ensures
      var r := ReleasingStep(t, p, With(Fine));
      p.key.value !in r.0.idempotency && r.0.issuers == t.issuers && r.1 == p.(pc := r.1.pc)
  {
  }

  lemma Releases(lib: Library, s: State, pid: nat)
    requires Reachable(lib, s) && WellShaped(s) && pid in s.procs && s.procs[pid].pc.Releasing? && s.procs[pid].completion.None?
    ensures
      var s' := Next(lib, s, Run(pid, With(Fine)));
      && s.procs[pid].key.Some? && s.procs[pid].key.value !in s'.db.idempotency
      && s'.db.issuers == s.db.issuers
      && pid in s'.procs && s'.procs == s.procs[pid := s'.procs[pid]]
      && s'.procs[pid].key == s.procs[pid].key && s'.procs[pid].minted == s.procs[pid].minted
  {
    ReleasingRow(lib, s, pid);
    ReleasesKey(s.db, s.procs[pid]);
    assert Step(lib, s.db, s.procs[pid], With(Fine)) == ReleasingStep(s.db, s.procs[pid], With(Fine));
  }

  lemma ReleasingRow(lib: Library, s: State, pid: nat)
    requires Reachable(lib, s) && pid in s.procs && s.procs[pid].pc.Releasing? && s.procs[pid].completion.None?
    ensures s.procs[pid].key.Some? && s.procs[pid].key.value in s.db.idempotency
    ensures s.db.idempotency[s.procs[pid].key.value].state.Reserved?
  {
    OwnedWhenReachable(lib, s);
    ReleasingOwnRow(s, pid);
  }

  lemma ReleasingOwnRow(s: State, pid: nat)
    requires Owned(s) && pid in s.procs && s.procs[pid].pc.Releasing? && s.procs[pid].completion.None?
    ensures s.procs[pid].key.Some? && s.procs[pid].key.value in s.db.idempotency
    ensures s.db.idempotency[s.procs[pid].key.value].state.Reserved?
  {
    assert Holds(s.procs[pid]);
  }

  lemma TwoElements<T>(s: set<T>, x: T, y: T)
    requires x in s && y in s && x != y
    ensures |s| >= 2
  {
    assert s == {x, y} + (s - {x, y});
  }

  lemma TwoMinters(lib: Library, s: State, key: Key, i: nat, j: nat)
    requires Reachable(lib, s) && i != j && i in Minters(s, key) && j in Minters(s, key)
    ensures |Created(s, key)| >= 2
  {
    CreatedCount(lib, s, key);
    TwoElements(Minters(s, key), i, j);
  }

  lemma CreatedCount(lib: Library, s: State, key: Key)
    requires Reachable(lib, s)
    ensures |Created(s, key)| == |Minters(s, key)|
  {
    Invariants(lib, s);
    CreatedIsMinters(lib, s, key);
  }

  // An issuance whose INSERT is not acknowledged, its release, and a retry.
  function RetryRun(i: nat, j: nat, request: Request): seq<Label> {
    IssueRun(i, request, Lost) + [Run(i, With(Fine))] + IssueRun(j, request, Fine)
  }

  lemma RetryLabels(lib: Library, s: State, i: nat, j: nat, request: Request)
    requires WellShaped(s)
    ensures Exec(lib, s, RetryRun(i, j, request))
            == Exec(lib, Next(lib, Exec(lib, s, IssueRun(i, request, Lost)), Run(i, With(Fine))), IssueRun(j, request, Fine))
  {
    ExecSnoc(lib, s, IssueRun(i, request, Lost), Run(i, With(Fine)));
    ExecAppend(lib, s, IssueRun(i, request, Lost) + [Run(i, With(Fine))], IssueRun(j, request, Fine));
  }

  // So one key can create two credentials: from any reachable state with the key
  // free, an unacknowledged credential INSERT gives the key back, and a retry under
  // it inserts a second credential.
  lemma RetryCreatesTwo(lib: Library, s: State, i: nat, j: nat, request: Request) returns (s': State)
    requires Reachable(lib, s) && WellShaped(s) && i !in s.procs && j !in s.procs && i != j
    requires Issuable(lib, s.db, request) && KeyOf(request).value !in s.db.idempotency
    ensures s' == Exec(lib, s, RetryRun(i, j, request))
    ensures |Created(s', KeyOf(request).value)| >= 2
  {
    var s1 := IssueRunMints(lib, s, i, request, Lost);
    s' := RetriedFrom(lib, s, s1, i, j, request);
    RetryLabels(lib, s, i, j, request);
  }

  lemma RetriedFrom(lib: Library, s: State, s1: State, i: nat, j: nat, request: Request) returns (s': State)
    requires Reachable(lib, s1) && WellShaped(s1) && i != j && j !in s.procs && Issuable(lib, s.db, request)
    requires i in s1.procs && Stage(s, s1, i, request, s1.procs[i].pc) && s1.procs[i].minted.Some? && s1.procs[i].pc.Releasing?
    ensures s' == Exec(lib, Next(lib, s1, Run(i, With(Fine))), IssueRun(j, request, Fine))
    ensures |Created(s', KeyOf(request).value)| >= 2
  {
    var s2 := Retriable(lib, s, s1, i, request);
    s' := Retried(lib, s, s2, i, j, request);
  }

  lemma Retried(lib: Library, s: State, s2: State, i: nat, j: nat, request: Request) returns (s': State)
    requires Reachable(lib, s2) && WellShaped(s2) && i in s2.procs && j !in s2.procs
    requires Issuable(lib, s.db, request) && s2.db.issuers == s.db.issuers && KeyOf(request).value !in s2.db.idempotency
    requires s2.procs[i].key == KeyOf(request) && s2.procs[i].minted.Some?
    ensures s' == Exec(lib, s2, IssueRun(j, request, Fine))
    ensures |Created(s', KeyOf(request).value)| >= 2
  {
    s' := IssueRunMints(lib, s2, j, request, Fine);
    BothMinted(s2, s', i, j, request);
    TwoMinters(lib, s', KeyOf(request).value, i, j);
  }

  lemma BothMinted(s2: State, s': State, i: nat, j: nat, request: Request)
    requires i in s2.procs && j !in s2.procs && KeyOf(request).Some?
    requires s2.procs[i].key == KeyOf(request) && s2.procs[i].minted.Some?
    requires j in s'.procs && Stage(s2, s', j, request, s'.procs[j].pc) && s'.procs[j].minted.Some?
    ensures i in Minters(s', KeyOf(request).value) && j in Minters(s', KeyOf(request).value)
  {
  }

  // After the release the key is free again, and the row is there.
  lemma Retriable(lib: Library, s: State, s1: State, i: nat, request: Request) returns (s2: State)
    requires Reachable(lib, s1) && WellShaped(s1) && KeyOf(request).Some?
    requires i in s1.procs && Stage(s, s1, i, request, s1.procs[i].pc) && s1.procs[i].minted.Some? && s1.procs[i].pc.Releasing?
    ensures s2 == Next(lib, s1, Run(i, With(Fine))) && WellShaped(s2) && Reachable(lib, s2)
    ensures KeyOf(request).value !in s2.db.idempotency && s2.db.issuers == s.db.issuers
    ensures s2.procs.Keys == s.procs.Keys + {i}
    ensures s2.procs[i].key == KeyOf(request) && s2.procs[i].minted.Some?
  {
    Releases(lib, s1, i);
    NextReachable(lib, s1, Run(i, With(Fine)));
    s2 := Next(lib, s1, Run(i, With(Fine)));
  }

  // An issuance run alone leaves the row its request calls for.
  lemma IssueRunWrites(lib: Library, s: State, pid: nat, request: Request) returns (s': State, id: string)
    requires Reachable(lib, s) && WellShaped(s) && pid !in s.procs && Issuable(lib, s.db, request)
    requires KeyOf(request).value !in s.db.idempotency
    ensures s' == Exec(lib, s, IssueRun(pid, request, Fine))
    ensures id in s'.db.credentials && RowOf(lib, request, s'.db.credentials[id])
  {
    s' := IssueRunMints(lib, s, pid, request, Fine);
    id := s'.procs[pid].id;
    MintedRow(lib, s', pid);
  }

  lemma MintedRow(lib: Library, s: State, pid: nat)
    requires Reachable(lib, s) && pid in s.procs && s.procs[pid].minted.Some?
    ensures s.procs[pid].id in s.db.credentials
    ensures RowOf(lib, s.procs[pid].request, s.db.credentials[s.procs[pid].id])
  {
    Invariants(lib, s);
    MintedInState(lib, s, pid);
  }

  lemma MintedInState(lib: Library, s: State, pid: nat)
    requires Lawful(lib, s) && pid in s.procs && s.procs[pid].minted.Some?
    ensures s.procs[pid].id in s.db.credentials
    ensures RowOf(lib, s.procs[pid].request, s.db.credentials[s.procs[pid].id])
  {
    assert CredentialFacts(s.db, s.procs[pid]);
    MintGivesRow(lib, s.procs[pid], s.db.credentials[s.procs[pid].id]);
  }

  // The services' library with the simplest parts that meet the assumptions.
  const PLAIN := Library(x => "<" + x + ">", t => "", t => "", x => true, x => true, b => None)

  lemma PlainMeetsAssumptions()
    ensures CollisionFree(PLAIN) && PrintsTimes(PLAIN)
  {
    forall x, y | PLAIN.sha256(x) == PLAIN.sha256(y) ensures x == y {
      assert x == PLAIN.sha256(x)[1..|x| + 1] && y == PLAIN.sha256(y)[1..|y| + 1];
    }
    forall x ensures Trim(PLAIN.sha256(x)) == PLAIN.sha256(x) {
      TightIsFixed(PLAIN.sha256(x));
    }
  }

  const PADDED := " hdip-passport-basic"

  const PADDED_REQUEST := Issue(
    Caller("agent", "issuer", "service"), "key-1", PADDED, "subject",
    Claims("Ada Example", "1990-01-01", "DE", "DE", "basic", 1, 2))

  // A registry that lists the padded template.
  const REGISTRY: map<string, Issuer> := map["issuer" := Issuer("Issuer", ACTIVE, [PADDED], [], 1, 1)]

  lemma PaddedCaller()
    ensures Attributed(PADDED_REQUEST.caller) && KeyOf(PADDED_REQUEST).Some?
  {
    TightIsFixed("agent");
    TightIsFixed("issuer");
    TightIsFixed("service");
    TightIsFixed("key-1");
  }

  lemma PaddedClaims()
    ensures ValidClaims(PLAIN, PADDED_REQUEST.claims)
  {
    TightIsFixed("Ada Example");
    TightIsFixed("1990-01-01");
    TightIsFixed("basic");
  }

  lemma PaddedTemplate()
    ensures Trim(PADDED) != PADDED && Trim(PADDED) != ""
  {
    assert PADDED[1..] == "hdip-passport-basic";
    TightIsFixed(PADDED[1..]);
    assert Trim(PADDED) == Trim(PADDED[1..]);
  }

  lemma PaddedIsValid()
    ensures Valid(PLAIN, PADDED_REQUEST)
  {
    PaddedClaims();
    PaddedTemplate();
    TightIsFixed("subject");
  }

  lemma PaddedIsListed()
    ensures IssuerOf(PADDED_REQUEST) in REGISTRY
    ensures PADDED_REQUEST.templateId in REGISTRY[IssuerOf(PADDED_REQUEST)].allowedTemplates
  {
    TightIsFixed("issuer");
  }

  lemma PaddedIsIssuable()
    ensures Issuable(PLAIN, Start(REGISTRY).db, PADDED_REQUEST)
  {
    PaddedCaller();
    PaddedIsValid();
    PaddedIsListed();
  }

  // The input on which the digest is not rebuilt: the registry lists a template with
  // a space in front of it, and an issuer asks for it. The run ends with a row whose
  // stored digest is not that of the artifact made from the row's own columns.
  lemma PaddedTemplateRun() returns (s: State, id: string)
    ensures s == Exec(PLAIN, Start(REGISTRY), IssueRun(0, PADDED_REQUEST, Fine))
    ensures id in s.db.credentials
    ensures
      var row := s.db.credentials[id];
      && row.digest == Digest(PLAIN, row.artifact)
      && row.digest != Digest(PLAIN, Materialize(PLAIN, row.credentialId, row.issuerId, row.templateId, row.expiresAt))
  {
    PlainMeetsAssumptions();
    PaddedIsIssuable();
    PaddedTemplate();
    StartIsReachable();
    s, id := IssueRunWrites(PLAIN, Start(REGISTRY), 0, PADDED_REQUEST);
    DigestRebuilds(PLAIN, PADDED_REQUEST, s.db.credentials[id]);
  }

  lemma StartIsReachable()
    ensures Reachable(PLAIN, Start(REGISTRY)) && WellShaped(Start(REGISTRY))
  {
    RunIsReachable(PLAIN, REGISTRY, []);
  }
}
