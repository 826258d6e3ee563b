// Identifiers over a whole run: every one is printed from a sequence number that
// no other request of the same kind ever draws.
module Numbering {
  import opened Text
  import opened Identifiers
  import opened Artifact
  import opened Requests
  import opened Tables
  import opened Handlers
  import opened System
  import opened Progress

  function SequenceFor(request: Request): Sequence {
    if request.Verify? then VerificationSequence else CredentialSequence
  }

  function IdFor(request: Request, n: nat): string {
    if request.Issue? then FormatCredentialId(request.templateId, n) else FormatVerificationId(n)
  }

  predicate Named(lib: Library, p: Proc) {
    p.number > 0 ==>
      && !p.request.Status?
      && p.id == IdFor(p.request, p.number)
      && (p.request.Verify? ==> p.at == EvaluatedAt(p.id) && p.envelope == Parse(lib, p.request.value))
  }

  ghost predicate AllNamed(lib: Library, s: State) {
    forall pid :: pid in s.procs ==> Named(lib, s.procs[pid])
  }

  ghost predicate NumbersDrawn(s: State) {
    forall pid :: pid in s.procs && s.procs[pid].number > 0 ==>
      s.procs[pid].number <= Current(s.db, SequenceFor(s.procs[pid].request))
  }

  ghost predicate NumbersDistinct(s: State) {
    forall i, j ::
      (i in s.procs && j in s.procs && i != j && s.procs[i].number > 0 && s.procs[j].number > 0
       && s.procs[i].request.Op() == s.procs[j].request.Op())
      ==> s.procs[i].number != s.procs[j].number
  }

  ghost predicate Numbered(lib: Library, s: State) {
    && WellShaped(s)
    && AllOnTrack(s)
    && AllNamed(lib, s)
    && NumbersDrawn(s)
    && NumbersDistinct(s)
  }

  lemma AllocateNames(lib: Library, t: Tables, p: Proc, env: Env)
    requires Shaped(p) && OnTrack(p) && p.pc.Allocate?
    ensures Named(lib, AllocateStep(lib, t, p, env).1)
  {
  }

  lemma AdvanceDraws(t: Tables, name: Sequence, other: Sequence, f: Fault)
    requires other != name
    ensures
      var r := AdvanceSequence(t, name, f);
      && Current(r.0, other) == Current(t, other)
      && Current(r.0, name) >= Current(t, name)
      && (r.1.Some? ==> r.1.value == Current(t, name) + 1 == Current(r.0, name))
  {
  }

  lemma AllocateDraws(lib: Library, t: Tables, p: Proc, env: Env)
    requires Shaped(p) && OnTrack(p) && p.pc.Allocate?
    ensures
      var r := AllocateStep(lib, t, p, env);
      var name := SequenceFor(p.request);
      r == (AdvanceSequence(t, name, env.fault).0, r.1)
      && (r.1.number > 0 ==> AdvanceSequence(t, name, env.fault).1 == Some(r.1.number))
  {
    if p.request.Issue? {
    } else {
    }
  }

  function Other(name: Sequence): Sequence {
    if name.CredentialSequence? then VerificationSequence else CredentialSequence
  }

  lemma AllocateNumbers(lib: Library, s: State, pid: nat, env: Env)
    requires Numbered(lib, s) && pid in s.procs && s.procs[pid].pc.Allocate?
    ensures Numbered(lib, Next(lib, s, Run(pid, env)))
  {
    var s' := Next(lib, s, Run(pid, env));
    var p := s.procs[pid];
    var name := SequenceFor(p.request);
    NextOnTrack(lib, s, Run(pid, env));
    AllocateNames(lib, s.db, p, env);
    AllocateDraws(lib, s.db, p, env);
    AdvanceDraws(s.db, name, Other(name), env.fault);
    StillDistinct(s, pid, s');
  }

  // A newly drawn number is above every number drawn before from its sequence.
  lemma StillDistinct(s: State, pid: nat, s': State)
    requires NumbersDrawn(s) && NumbersDistinct(s)
    requires pid in s.procs && pid in s'.procs && s'.procs == s.procs[pid := s'.procs[pid]]
    requires s'.procs[pid].request == s.procs[pid].request
    requires
      var name := SequenceFor(s.procs[pid].request);
      && Current(s'.db, Other(name)) == Current(s.db, Other(name))
      && Current(s'.db, name) >= Current(s.db, name)
      && (s'.procs[pid].number > 0 ==> s'.procs[pid].number == Current(s.db, name) + 1 == Current(s'.db, name))
    ensures NumbersDrawn(s') && NumbersDistinct(s')
  {
  }

  lemma SameNumbers(lib: Library, s: State, pid: nat, s': State)
    requires AllNamed(lib, s) && NumbersDrawn(s) && NumbersDistinct(s)
    requires pid in s.procs && pid in s'.procs && s'.procs == s.procs[pid := s'.procs[pid]]
    requires s'.db.sequences == s.db.sequences
    requires
      var p, q := s.procs[pid], s'.procs[pid];
      q.request == p.request && q.number == p.number && q.id == p.id && q.at == p.at && q.envelope == p.envelope
    ensures AllNamed(lib, s') && NumbersDrawn(s') && NumbersDistinct(s')
  {
  }

  lemma StepNumbers(lib: Library, s: State, pid: nat, env: Env)
    requires Numbered(lib, s) && pid in s.procs && !s.procs[pid].pc.Allocate?
    ensures Numbered(lib, Next(lib, s, Run(pid, env)))
  {
    NextOnTrack(lib, s, Run(pid, env));
    SequencesFrame(lib, s.db, s.procs[pid], env);
    FieldsFrame(lib, s.db, s.procs[pid], env);
    SameNumbers(lib, s, pid, Next(lib, s, Run(pid, env)));
  }

  lemma BeginUnnumbered(lib: Library, request: Request)
    ensures Begin(lib, request).number == 0
  {
  }

  lemma ArriveNumbered(lib: Library, s: State, pid: nat, request: Request)
    requires Numbered(lib, s)
    ensures Numbered(lib, Next(lib, s, Arrive(pid, request)))
  {
    if pid !in s.procs {
      NextOnTrack(lib, s, Arrive(pid, request));
      BeginUnnumbered(lib, request);
      OneMore(lib, s, pid, Next(lib, s, Arrive(pid, request)));
    }
  }

  lemma OneMore(lib: Library, s: State, pid: nat, s': State)
    requires AllNamed(lib, s) && NumbersDrawn(s) && NumbersDistinct(s)
    requires pid !in s.procs && pid in s'.procs && s'.procs == s.procs[pid := s'.procs[pid]]
    requires s'.db == s.db && s'.procs[pid].number == 0
    ensures AllNamed(lib, s') && NumbersDrawn(s') && NumbersDistinct(s')
  {
  }

  lemma WithoutNumbered(lib: Library, s: State, pid: nat)
    requires Numbered(lib, s) && pid in s.procs
    ensures Numbered(lib, Without(s, pid))
  {
    WithoutOnTrack(s, pid);
    SameNumbers(lib, s, pid, Without(s, pid));
  }

  lemma NextNumbered(lib: Library, s: State, l: Label)
    requires Numbered(lib, s)
    ensures Numbered(lib, Next(lib, s, l))
  {
    match l
    case Arrive(pid, request) => ArriveNumbered(lib, s, pid, request);
    case Run(pid, env) =>
      if pid in s.procs {
        if s.procs[pid].pc.Allocate? {
          AllocateNumbers(lib, s, pid, env);
        } else {
          StepNumbers(lib, s, pid, env);
        }
      }
    case Crash(pid) =>
      if pid in s.procs {
        WithoutNumbered(lib, s, pid);
      }
    case SetIssuers(_) =>
  }

  lemma {:induction false} ExecNumbered(lib: Library, s: State, ls: seq<Label>)
    requires Numbered(lib, s)
    ensures Numbered(lib, Exec(lib, s, ls))
    decreases |ls|
  {
    if ls != [] {
      NextNumbered(lib, s, ls[0]);
      ExecNumbered(lib, Next(lib, s, ls[0]), ls[1..]);
    }
  }

  lemma SameIdSameProc(lib: Library, s: State, i: nat, j: nat)
    requires Numbered(lib, s)
    requires i in s.procs && j in s.procs && s.procs[i].number > 0 && s.procs[j].number > 0
    requires s.procs[i].request.Op() == s.procs[j].request.Op() && s.procs[i].id == s.procs[j].id
    ensures i == j
  {
    var p, q := s.procs[i], s.procs[j];
    if p.request.Issue? {
      CredentialIdsDistinct(p.request.templateId, p.number, q.request.templateId, q.number);
    } else {
      VerificationIdsDistinct(p.number, q.number);
    }
  }

  // Over any run, no two requests of one kind are ever given the same identifier,
  // across all templates.
  lemma IdentifiersUnique(lib: Library, issuers: map<string, Issuer>, ls: seq<Label>, i: nat, j: nat)
    requires
      var procs := Exec(lib, Start(issuers), ls).procs;
      && i in procs && j in procs && i != j
      && procs[i].number > 0 && procs[j].number > 0
      && procs[i].request.Op() == procs[j].request.Op()
    ensures
      var procs := Exec(lib, Start(issuers), ls).procs;
      procs[i].id != procs[j].id
  {
    ExecNumbered(lib, Start(issuers), ls);
    var s := Exec(lib, Start(issuers), ls);
    if s.procs[i].id == s.procs[j].id {
      SameIdSameProc(lib, s, i, j);
    }
  }
}
