// Any number of in-flight requests over one database. A run is a list of labels;
// its order is the interleaving.
module System {
  import opened Text
  import opened Artifact
  import opened Requests
  import opened Tables
  import opened Handlers

  datatype State = State(db: Tables, procs: map<nat, Proc>)

  // Arrive: a decoded, authorised request starts. Run: one request takes one
  // step. Crash: a request disappears without its deferred release. SetIssuers:
  // the trust registry rewrites its table.
  datatype Label =
    | Arrive(pid: nat, request: Request)
    | Run(pid: nat, env: Env)
    | Crash(pid: nat)
    | SetIssuers(issuers: map<string, Issuer>)

  ghost predicate WellShaped(s: State) {
    forall pid :: pid in s.procs ==> Shaped(s.procs[pid])
  }

  // A request is gone: its deferred release will not run.
  function Without(s: State, pid: nat): State
    requires pid in s.procs
  {
    s.(procs := s.procs[pid := s.procs[pid].(pc := Done(Crashed))])
  }

  lemma BeginShaped(lib: Library, request: Request)
    ensures Shaped(Begin(lib, request))
    ensures Begin(lib, request).completion == None && !Open(Begin(lib, request))
  {
  }

  ghost function Next(lib: Library, s: State, l: Label): (s': State)
    requires WellShaped(s)
    ensures WellShaped(s')
  {
    match l
    case Arrive(pid, request) =>
      if pid in s.procs then s
      else
        BeginShaped(lib, request);
        s.(procs := s.procs[pid := Begin(lib, request)])
    case Run(pid, env) =>
      if pid !in s.procs then s
      else
        var (db, q) := Step(lib, s.db, s.procs[pid], env);
        State(db, s.procs[pid := q])
    case Crash(pid) =>
      if pid !in s.procs || s.procs[pid].pc.Done? then s
      else Without(s, pid)
    case SetIssuers(issuers) =>
      s.(db := s.db.(issuers := issuers))
  }

  ghost function Exec(lib: Library, s: State, ls: seq<Label>): (s': State)
    requires WellShaped(s)
    ensures WellShaped(s')
    decreases |ls|
  {
    if ls == [] then s else Exec(lib, Next(lib, s, ls[0]), ls[1..])
  }

  // A fresh database: only the trust registry's table has rows.
  function Start(issuers: map<string, Issuer>): State {
    State(Tables(issuers, map[], map[], map[], map[], map[]), map[])
  }

  lemma {:induction false} ExecAppend(lib: Library, s: State, ls: seq<Label>, ms: seq<Label>)
    requires WellShaped(s)
    ensures Exec(lib, s, ls + ms) == Exec(lib, Exec(lib, s, ls), ms)
    decreases |ls|
  {
    if ls == [] {
      assert ls + ms == ms;
    } else {
      assert (ls + ms)[1..] == ls[1..] + ms;
      ExecAppend(lib, Next(lib, s, ls[0]), ls[1..], ms);
    }
  }

  // One label more.
  lemma ExecSnoc(lib: Library, s: State, ls: seq<Label>, l: Label)
    requires WellShaped(s)
    ensures Exec(lib, s, ls + [l]) == Next(lib, Exec(lib, s, ls), l)
  {
    ExecAppend(lib, s, ls, [l]);
    assert [l][1..] == [];
  }

  // A short run, label by label.
  lemma Unroll4(lib: Library, s: State, l: seq<Label>)
    requires WellShaped(s) && |l| == 4
    ensures Exec(lib, s, l) == Next(lib, Next(lib, Next(lib, Next(lib, s, l[0]), l[1]), l[2]), l[3])
  {
    var s1 := Next(lib, s, l[0]);
    var s2 := Next(lib, s1, l[1]);
    var s3 := Next(lib, s2, l[2]);
    assert Exec(lib, s3, l[3..]) == Next(lib, s3, l[3]);
    assert l[2..][1..] == l[3..] && l[1..][1..] == l[2..];
    assert Exec(lib, s2, l[2..]) == Exec(lib, s3, l[3..]);
    assert Exec(lib, s1, l[1..]) == Exec(lib, s2, l[2..]);
  }

  // A request keeps its identity, its key and its fingerprint.
  lemma {:induction false} IdentityKept(lib: Library, s: State, ls: seq<Label>, pid: nat)
    requires WellShaped(s) && pid in s.procs
    ensures pid in Exec(lib, s, ls).procs
    ensures SameRequest(s.procs[pid], Exec(lib, s, ls).procs[pid])
    decreases |ls|
  {
    if ls != [] {
      IdentityKept(lib, Next(lib, s, ls[0]), ls[1..], pid);
    }
  }
}
