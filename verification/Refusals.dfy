// Why a request is refused: for each of the nine reasons exactly when, first from the
// tables and the fault of one statement, then over whole runs.
module Refusals {
  import opened Text
  import opened Artifact
  import opened Requests
  import opened Tables
  import opened Handlers
  import opened System
  import opened Reachability
  import Authority
  import Verdicts

  // The client is or will be told that the request failed for this reason.
  predicate Told(p: Proc, why: Failure) {
    p.pc == Done(Failed(why)) || p.pc == Releasing(Failed(why))
  }

  // Nothing to complete, no attribution to a caller.
  predicate Unattributed(c: Caller) {
    Trim(c.principalId) == "" || Trim(c.organizationId) == "" || Trim(c.actorType) == ""
  }

  // What is wrong with a request before anything is looked up.
  predicate Malformed(lib: Library, request: Request) {
    match request
    case Issue(_, _, templateId, subject, claims) =>
      Trim(templateId) == "" || Trim(subject) == "" || !Authority.CompleteClaims(lib, claims)
    case Status(_, _, _, status, successor) =>
      || (Trim(status) != "revoked" && Trim(status) != "superseded")
      || (Trim(status) == "superseded" <==> Trim(successor) == "")
    case Verify(_, _, policyId, _, kind, mediaType, value) =>
      || Trim(policyId) == "" || Trim(value) == ""
      || Trim(kind) != "phase1_opaque_artifact"
      || Trim(mediaType) != "application/vnd.hdip.phase1-opaque-artifact"
  }

  predicate TurnedAway(lib: Library, request: Request, why: Failure) {
    match why
    case Unauthenticated => Unattributed(request.caller)
    case InvalidRequest => !Unattributed(request.caller) && Malformed(lib, request)
    case _ => false
  }

  lemma MalformedExactly(lib: Library, request: Request)
    ensures Malformed(lib, request) <==> !Valid(lib, request)
  {
    if request.Issue? {
      Authority.ValidIsComplete(lib, request.claims);
    }
  }

  lemma BeginFails(lib: Library, request: Request, why: Failure)
    ensures Told(Begin(lib, request), why)
            <==> (why.Unauthenticated? && !Attributed(request.caller))
                 || (why.InvalidRequest? && Attributed(request.caller) && !Valid(lib, request))
    ensures Begin(lib, request).pc != Done(Crashed)
  {
  }

  lemma BeginTold(lib: Library, request: Request, why: Failure)
    ensures Told(Begin(lib, request), why) <==> TurnedAway(lib, request, why)
    ensures Begin(lib, request).pc != Done(Crashed)
  {
    BeginFails(lib, request, why);
    MalformedExactly(lib, request);
  }

  predicate Registered(t: Tables, request: Request) {
    Trim(request.caller.organizationId) in t.issuers
  }

  // The credential a status request names is there and its own organization's.
  predicate Owns(t: Tables, request: Request)
    requires request.Status?
  {
    && Trim(request.pathId) in t.credentials
    && t.credentials[Trim(request.pathId)].issuerId == request.caller.organizationId
  }

  // The statements whose failure is a persistence error. A failed issuer read counts
  // as a missing issuer, and a failed lookup of a verification as a miss.
  predicate Persists(pc: PC) {
    match pc
    case ReserveInsert => true
    case ReserveSelect => true
    case Allocate => true
    case CreateCredential => true
    case LoadCredential => true
    case WriteStatusRow => true
    case StoreRequest => true
    case StoreResult => true
    case Completing(_) => true
    case _ => false
  }

  // The next statement of this request, going this way, refuses it for this reason.
  predicate Refuses(lib: Library, t: Tables, p: Proc, f: Fault, why: Failure) {
    && Shaped(p)
    && match why
       case Unauthenticated => false
       case InvalidRequest =>
         p.pc.Allocate? && p.request.Verify? && !Errs(f) && Parse(lib, p.request.value) == None
       case UntrustedIssuer => p.pc.LoadIssuer? && (Errs(f) || !Registered(t, p.request))
       case UnsupportedTemplate => p.pc.LoadIssuer? && !Errs(f) && Registered(t, p.request) && !Authority.Lists(t, p.request)
       case PersistenceError =>
         || (Persists(p.pc) && Errs(f))
         || (p.pc.ReserveSelect? && p.key.value !in t.idempotency)
       case IdempotencyConflict =>
         && p.pc.ReserveSelect? && !Errs(f) && p.key.value in t.idempotency
         && Trim(t.idempotency[p.key.value].fingerprint) != Trim(p.fingerprint)
       case IdempotencyInProgress =>
         && p.pc.ReserveSelect? && !Errs(f) && p.key.value in t.idempotency
         && Trim(t.idempotency[p.key.value].fingerprint) == Trim(p.fingerprint)
         && t.idempotency[p.key.value].state.Reserved?
       case UnknownCredential => p.pc.LoadCredential? && !Errs(f) && !Owns(t, p.request)
       case InvalidTransition =>
         && p.pc.LoadCredential? && !Errs(f) && Owns(t, p.request)
         && t.credentials[Trim(p.request.pathId)].status != ACTIVE
  }

  // What every reachable state provides: plain INSERTs find their keys free, and
  // UPDATEs their rows.
  predicate Provided(t: Tables, p: Proc) {
    && Shaped(p)
    && (p.pc.CreateCredential? ==> Trim(p.id) !in t.credentials)
    && (p.pc.WriteStatusRow? ==> Trim(p.read.value.record.credentialId) in t.credentials)
    && (p.pc.StoreRequest? ==> Trim(p.id) !in t.requests)
    && (p.pc.StoreResult? ==> Trim(p.verdict.value.verificationId) !in t.results)
    && (p.pc.Completing? ==> p.key.value in t.idempotency)
  }

  lemma IssuerRefuses(lib: Library, t: Tables, p: Proc, env: Env, why: Failure)
    requires Provided(t, p) && p.pc.LoadIssuer?
    ensures Told(LoadIssuerStep(t, p, env).1, why) <==> Refuses(lib, t, p, env.fault, why)
  {
  }

  // Which issuances go on: the issuer is read and lists the template verbatim.
  lemma IssuanceAdmittedExactly(t: Tables, p: Proc, env: Env)
    requires Shaped(p) && p.pc.LoadIssuer?
    ensures
      var q := LoadIssuerStep(t, p, env).1;
      && (q.pc.Done? <==> Errs(env.fault) || !Authority.Lists(t, p.request))
      && (!q.pc.Done? ==> q.pc == if p.key.Some? then ReserveInsert else Allocate)
  {
  }

  lemma InsertRefuses(lib: Library, t: Tables, p: Proc, env: Env, why: Failure)
    requires Provided(t, p) && p.pc.ReserveInsert?
    ensures Told(ReserveInsertStep(t, p, env).1, why) <==> Refuses(lib, t, p, env.fault, why)
  {
  }

  lemma SelectRefuses(lib: Library, t: Tables, p: Proc, env: Env, why: Failure)
    requires Provided(t, p) && p.pc.ReserveSelect?
    ensures Told(ReserveSelectStep(t, p, env).1, why) <==> Refuses(lib, t, p, env.fault, why)
  {
  }

  lemma DrawRefuses(lib: Library, t: Tables, p: Proc, env: Env, why: Failure)
    requires Provided(t, p) && p.pc.Allocate? && p.request.Issue?
    ensures Told(AllocateStep(lib, t, p, env).1, why) <==> Refuses(lib, t, p, env.fault, why)
  {
  }

  lemma ParseRefuses(lib: Library, t: Tables, p: Proc, env: Env, why: Failure)
    requires Provided(t, p) && p.pc.Allocate? && p.request.Verify?
    ensures Told(AllocateStep(lib, t, p, env).1, why)
            <==> (why.PersistenceError? && Errs(env.fault))
                 || (why.InvalidRequest? && !Errs(env.fault) && Parse(lib, p.request.value) == None)
  {
  }

  lemma AllocateRefuses(lib: Library, t: Tables, p: Proc, env: Env, why: Failure)
    requires Provided(t, p) && p.pc.Allocate?
    ensures Told(AllocateStep(lib, t, p, env).1, why) <==> Refuses(lib, t, p, env.fault, why)
  {
    if p.request.Issue? {
      DrawRefuses(lib, t, p, env, why);
    } else {
      ParseRefuses(lib, t, p, env, why);
    }
  }

  lemma CreateRefuses(lib: Library, t: Tables, p: Proc, c: Credential, env: Env, why: Failure)
    requires Provided(t, p) && p.pc.CreateCredential? && c.credentialId == p.id
    ensures Told(CreateStep(t, p, c, env).1, why) <==> Refuses(lib, t, p, env.fault, why)
  {
  }

  // Leaving for a reason tells that reason and no other.
  lemma LeavingTells(p: Proc, reason: Failure, why: Failure)
    ensures Told(Abort(p, reason), why) <==> why == reason
  {
  }

  // The four ways of the load.
  lemma LoadGoes(t: Tables, p: Proc, env: Env)
    requires Shaped(p) && p.pc.LoadCredential?
    ensures
      var q := LoadCredentialStep(t, p, env).1;
      if Errs(env.fault) then q == Abort(p, PersistenceError)
      else if !Owns(t, p.request) then q == Abort(p, UnknownCredential)
      else if t.credentials[Trim(p.request.pathId)].status != ACTIVE then q == Abort(p, InvalidTransition)
      else q.pc.WriteStatusRow?
  {
  }

  lemma LoadRefuses(lib: Library, t: Tables, p: Proc, env: Env, why: Failure)
    requires Provided(t, p) && p.pc.LoadCredential?
    ensures Told(LoadCredentialStep(t, p, env).1, why) <==> Refuses(lib, t, p, env.fault, why)
  {
    LoadGoes(t, p, env);
    if Errs(env.fault) {
      LeavingTells(p, PersistenceError, why);
    } else if !Owns(t, p.request) {
      LeavingTells(p, UnknownCredential, why);
    } else if t.credentials[Trim(p.request.pathId)].status != ACTIVE {
      LeavingTells(p, InvalidTransition, why);
    }
  }

  // Which status changes go on: the credential is read, is there, was issued by the
  // caller's organization and is active.
  lemma ChangeAdmittedExactly(t: Tables, p: Proc, env: Env)
    requires Shaped(p) && p.pc.LoadCredential?
    ensures
      var q := LoadCredentialStep(t, p, env).1;
      var id := Trim(p.request.pathId);
      && (q.pc.WriteStatusRow?
          <==> && !Errs(env.fault) && id in t.credentials
               && t.credentials[id].issuerId == p.request.caller.organizationId
               && t.credentials[id].status == "active")
      && (q.pc.WriteStatusRow? ==> q.read == Some(ReadBack(t.credentials[id], false)))
  {
  }

  lemma WriteRefuses(lib: Library, t: Tables, p: Proc, env: Env, why: Failure)
    requires Provided(t, p) && p.pc.WriteStatusRow?
    ensures Told(WriteStatusStep(t, p, env).1, why) <==> Refuses(lib, t, p, env.fault, why)
  {
  }

  lemma StoreRefuses(lib: Library, t: Tables, p: Proc, env: Env, why: Failure)
    requires Provided(t, p)
    ensures p.pc.StoreRequest? ==> (Told(StoreRequestStep(lib, t, p, env).1, why) <==> Refuses(lib, t, p, env.fault, why))
    ensures p.pc.StoreResult? ==> (Told(StoreResultStep(t, p, env).1, why) <==> Refuses(lib, t, p, env.fault, why))
  {
  }

  lemma LookupRefusesNothing(lib: Library, t: Tables, p: Proc, env: Env, why: Failure)
    requires Provided(t, p)
    ensures p.pc.FindByDigest? ==> !Told(FindByDigestStep(lib, t, p, env).1, why)
    ensures p.pc.FindById? ==> !Told(FindByIdStep(t, p, env).1, why)
    ensures p.pc.Judge? ==> !Told(JudgeStep(lib, t, p, env).1, why)
  {
  }

  lemma CompletingRefuses(lib: Library, t: Tables, p: Proc, env: Env, why: Failure)
    requires Provided(t, p) && p.pc.Completing?
    ensures Told(CompletingStep(t, p, env).1, why) <==> Refuses(lib, t, p, env.fault, why)
  {
  }

  lemma StepRefusesEarly(lib: Library, t: Tables, p: Proc, env: Env, why: Failure)
    requires Provided(t, p) && (p.pc.LoadIssuer? || p.pc.ReserveInsert? || p.pc.ReserveSelect? || p.pc.Allocate?)
    ensures Told(Step(lib, t, p, env).1, why) <==> Told(p, why) || Refuses(lib, t, p, env.fault, why)
  {
    match p.pc
    case LoadIssuer =>
      IssuerRefuses(lib, t, p, env, why);
      assert Step(lib, t, p, env) == LoadIssuerStep(t, p, env);
    case ReserveInsert =>
      InsertRefuses(lib, t, p, env, why);
      assert Step(lib, t, p, env) == ReserveInsertStep(t, p, env);
    case ReserveSelect =>
      SelectRefuses(lib, t, p, env, why);
      assert Step(lib, t, p, env) == ReserveSelectStep(t, p, env);
    case Allocate =>
      AllocateRefuses(lib, t, p, env, why);
      assert Step(lib, t, p, env) == AllocateStep(lib, t, p, env);
  }

  lemma StepRefusesCreate(lib: Library, t: Tables, p: Proc, env: Env, why: Failure)
    requires Provided(t, p) && p.pc.CreateCredential?
    ensures Told(Step(lib, t, p, env).1, why) <==> Told(p, why) || Refuses(lib, t, p, env.fault, why)
  {
    var c := NewCredential(lib, p.request, p.id);
    CreateRefuses(lib, t, p, c, env, why);
    assert Step(lib, t, p, env) == CreateStep(t, p, c, env);
  }

  lemma StepRefusesStatus(lib: Library, t: Tables, p: Proc, env: Env, why: Failure)
    requires Provided(t, p) && (p.pc.LoadCredential? || p.pc.WriteStatusRow? || p.pc.Completing?)
    ensures Told(Step(lib, t, p, env).1, why) <==> Told(p, why) || Refuses(lib, t, p, env.fault, why)
  {
    match p.pc
    case LoadCredential =>
      LoadRefuses(lib, t, p, env, why);
      assert Step(lib, t, p, env) == LoadCredentialStep(t, p, env);
    case WriteStatusRow =>
      WriteRefuses(lib, t, p, env, why);
      assert Step(lib, t, p, env) == WriteStatusStep(t, p, env);
    case Completing(_) =>
      CompletingRefuses(lib, t, p, env, why);
      assert Step(lib, t, p, env) == CompletingStep(t, p, env);
  }

  lemma StepRefusesFiling(lib: Library, t: Tables, p: Proc, env: Env, why: Failure)
    requires Provided(t, p) && p.pc.StoreRequest?
    ensures Told(Step(lib, t, p, env).1, why) <==> Told(p, why) || Refuses(lib, t, p, env.fault, why)
  {
    StoreRefuses(lib, t, p, env, why);
    assert Step(lib, t, p, env) == StoreRequestStep(lib, t, p, env);
  }

  lemma StepRefusesStoring(lib: Library, t: Tables, p: Proc, env: Env, why: Failure)
    requires Provided(t, p) && p.pc.StoreResult?
    ensures Told(Step(lib, t, p, env).1, why) <==> Told(p, why) || Refuses(lib, t, p, env.fault, why)
  {
    StoreRefuses(lib, t, p, env, why);
    assert Step(lib, t, p, env) == StoreResultStep(t, p, env);
  }

  lemma StepRefusesNoLookup(lib: Library, t: Tables, p: Proc, env: Env, why: Failure)
    requires Provided(t, p) && (p.pc.FindByDigest? || p.pc.FindById? || p.pc.Judge?)
    ensures Told(Step(lib, t, p, env).1, why) <==> Told(p, why) || Refuses(lib, t, p, env.fault, why)
  {
    LookupRefusesNothing(lib, t, p, env, why);
    match p.pc
    case FindByDigest => assert Step(lib, t, p, env) == FindByDigestStep(lib, t, p, env);
    case FindById => assert Step(lib, t, p, env) == FindByIdStep(t, p, env);
    case Judge => assert Step(lib, t, p, env) == JudgeStep(lib, t, p, env);
  }

  lemma StepKeepsTold(lib: Library, t: Tables, p: Proc, env: Env, why: Failure)
    requires Provided(t, p) && (p.pc.Releasing? || p.pc.Done?)
    ensures Told(Step(lib, t, p, env).1, why) <==> Told(p, why) || Refuses(lib, t, p, env.fault, why)
  {
    if p.pc.Releasing? {
      assert Step(lib, t, p, env) == ReleasingStep(t, p, env);
    }
  }

  // One statement: the request is told why exactly when it was already, or when this
  // statement refuses it for this reason.
  lemma StepRefuses(lib: Library, t: Tables, p: Proc, env: Env, why: Failure)
    requires Provided(t, p)
    ensures Told(Step(lib, t, p, env).1, why) <==> Told(p, why) || Refuses(lib, t, p, env.fault, why)
  {
    match p.pc
    case CreateCredential => StepRefusesCreate(lib, t, p, env, why);
    case LoadCredential => StepRefusesStatus(lib, t, p, env, why);
    case WriteStatusRow => StepRefusesStatus(lib, t, p, env, why);
    case Completing(_) => StepRefusesStatus(lib, t, p, env, why);
    case StoreRequest => StepRefusesFiling(lib, t, p, env, why);
    case StoreResult => StepRefusesStoring(lib, t, p, env, why);
    case FindByDigest => StepRefusesNoLookup(lib, t, p, env, why);
    case FindById => StepRefusesNoLookup(lib, t, p, env, why);
    case Judge => StepRefusesNoLookup(lib, t, p, env, why);
    case Releasing(_) => StepKeepsTold(lib, t, p, env, why);
    case Done(_) => StepKeepsTold(lib, t, p, env, why);
    case _ => StepRefusesEarly(lib, t, p, env, why);
  }

  lemma ProvidedWhenReachable(lib: Library, s: State, pid: nat)
    requires Reachable(lib, s) && WellShaped(s) && pid in s.procs
    ensures Provided(s.db, s.procs[pid])
  {
    match s.procs[pid].pc
    case CreateCredential => CredentialFree(lib, s, pid);
    case WriteStatusRow => Authority.WriterFacts(lib, s, pid);
    case StoreRequest => RequestFree(lib, s, pid);
    case StoreResult => ResultFree(lib, s, pid);
    case Completing(_) => CompletingRow(lib, s, pid);
    case _ =>
  }

  // This label is a statement of this request that refuses it for this reason.
  ghost predicate RefusedBy(lib: Library, s: State, l: Label, pid: nat, why: Failure) {
    l.Run? && l.pid == pid && pid in s.procs && Refuses(lib, s.db, s.procs[pid], l.env.fault, why)
  }

  ghost predicate RefusedDuring(lib: Library, s: State, ls: seq<Label>, pid: nat, why: Failure)
    requires WellShaped(s)
    decreases |ls|
  {
    ls != [] && (RefusedBy(lib, s, ls[0], pid, why) || RefusedDuring(lib, Next(lib, s, ls[0]), ls[1..], pid, why))
  }

  // Crashes aside, it has been told exactly what this says.
  predicate ToldIff(p: Proc, why: Failure, told: bool) {
    p.pc == Done(Crashed) || (Told(p, why) <==> told)
  }

  lemma RunLabelTold(lib: Library, s: State, pid: nat, env: Env, why: Failure, told: bool)
    requires Reachable(lib, s) && WellShaped(s) && pid in s.procs && ToldIff(s.procs[pid], why, told)
    ensures ToldIff(Next(lib, s, Run(pid, env)).procs[pid], why, told || RefusedBy(lib, s, Run(pid, env), pid, why))
  {
    if s.procs[pid].pc != Done(Crashed) {
      ProvidedWhenReachable(lib, s, pid);
      StepRefuses(lib, s.db, s.procs[pid], env, why);
    }
  }

  lemma LabelTold(lib: Library, s: State, l: Label, pid: nat, why: Failure, told: bool)
    requires Reachable(lib, s) && WellShaped(s) && pid in s.procs && ToldIff(s.procs[pid], why, told)
    ensures pid in Next(lib, s, l).procs
    ensures ToldIff(Next(lib, s, l).procs[pid], why, told || RefusedBy(lib, s, l, pid, why))
  {
    if l.Run? && l.pid == pid {
      RunLabelTold(lib, s, pid, l.env, why, told);
    } else if l.Crash? && l.pid == pid {
    } else {
      Verdicts.OtherLabel(lib, s, l, pid);
    }
  }

  lemma {:induction false} RunTold(lib: Library, s: State, ls: seq<Label>, pid: nat, why: Failure, told: bool)
    requires Reachable(lib, s) && WellShaped(s) && pid in s.procs && ToldIff(s.procs[pid], why, told)
    ensures pid in Exec(lib, s, ls).procs
    ensures ToldIff(Exec(lib, s, ls).procs[pid], why, told || RefusedDuring(lib, s, ls, pid, why))
    decreases |ls|
  {
    if ls != [] {
      LabelTold(lib, s, ls[0], pid, why, told);
      NextReachable(lib, s, ls[0]);
      RunTold(lib, Next(lib, s, ls[0]), ls[1..], pid, why, told || RefusedBy(lib, s, ls[0], pid, why));
    }
  }

  // Refusals, exactly, in every run: a request that has not crashed is told a reason
  // exactly when it was turned away for it on arrival, or one of its own statements
  // refused it for that reason, by what was in the tables and how the statement went
  // at that point.
  lemma ToldExactly(lib: Library, s: State, pid: nat, request: Request, ls: seq<Label>, why: Failure)
    requires Reachable(lib, s) && WellShaped(s) && pid !in s.procs
    ensures pid in Exec(lib, Next(lib, s, Arrive(pid, request)), ls).procs
    ensures
      var s1 := Next(lib, s, Arrive(pid, request));
      var p := Exec(lib, s1, ls).procs[pid];
      && p.request == request
      && (p.pc == Done(Crashed)
          || (Told(p, why) <==> TurnedAway(lib, request, why) || RefusedDuring(lib, s1, ls, pid, why)))
  {
    var s1 := Next(lib, s, Arrive(pid, request));
    BeginTold(lib, request, why);
    NextReachable(lib, s, Arrive(pid, request));
    RunTold(lib, s1, ls, pid, why, TurnedAway(lib, request, why));
    IdentityKept(lib, s1, ls, pid);
  }
}
