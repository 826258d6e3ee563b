// What a request has done by the time it reaches each of its statements.
module Progress {
  import opened Text
  import opened Artifact
  import opened Requests
  import opened Tables
  import opened Handlers
  import opened System

  predicate Untouched(p: Proc) {
    && p.number == 0 && p.read.None? && p.verdict.None? && p.minted.None?
    && !p.filed && !p.stored && p.completion.None?
  }

  // An issuance response repeats the row, up to the trimming of columns.
  predicate ReportsCredential(body: Body, row: Credential) {
    && body.IssuedBody?
    && Trim(body.credentialId) == row.credentialId
    && Trim(body.issuerId) == row.issuerId
    && Trim(body.templateId) == row.templateId
    && body.status == ACTIVE
    && body.issuedAt == row.issuedAt && body.expiresAt == row.expiresAt
    && Trim(body.statusReference) == row.statusReference
    && body.artifact == row.artifact
  }

  // The response is the request's own work: for a verification, the stored result
  // or, when no record was found, an unknown credential.
  predicate OwnAnswer(p: Proc, c: Completion) {
    match p.request.Op()
    case IssueCredential =>
      && p.minted.Some? && c.resourceId == p.id
      && c.statusCode == 201 && c.location == CredentialLocation(p.id)
      && ReportsCredential(c.body, p.minted.value)
    case WriteStatus => p.read.Some?
    case CreateVerification =>
      && p.filed && p.envelope.Some? && p.number > 0
      && (|| (p.stored && p.verdict.Some? && c == ResultCompletion(p.verdict.value, p.envelope.value.credentialId))
          || (!p.stored && p.verdict.None? && p.read.None? && c == NotFoundCompletion(p.id)))
  }

  predicate AtStage(p: Proc) {
    match p.pc
    case LoadIssuer => Untouched(p)
    case ReserveInsert => Untouched(p)
    case ReserveSelect => Untouched(p)
    case Allocate => Untouched(p)
    case LoadCredential => Untouched(p)
    case CreateCredential => p.number > 0 && p.minted.None?
    case WriteStatusRow => true
    case StoreRequest => p.number > 0 && !p.filed && p.read.None? && p.verdict.None?
    case FindByDigest => p.number > 0 && p.filed && p.read.None? && p.verdict.None?
    case FindById => p.number > 0 && p.filed && p.read.None? && p.verdict.None?
    case Judge => p.number > 0 && p.filed && p.verdict.None?
    case StoreResult => p.number > 0 && p.filed && !p.stored
    case Completing(c) => OwnAnswer(p, c)
    case Releasing(reply) => !reply.Answered?
    case Done(reply) => reply.Answered? ==> OwnAnswer(p, reply.c)
  }

  predicate Ordered(p: Proc) {
    && (p.completion.Some? ==> (p.pc.Releasing? || p.pc.Done?) && OwnAnswer(p, p.completion.value))
    && (p.stored ==> p.verdict.Some? && p.filed)
    && (p.verdict.Some? ==> p.read.Some? && p.filed && p.verdict.value.verificationId == p.id && p.envelope.Some?)
    && (p.filed ==> p.request.Verify? && p.number > 0 && p.envelope.Some?)
    && (p.minted.Some? ==> p.request.Issue? && p.number > 0)
    && (p.number > 0 ==> !p.request.Status?)
    && (p.request.Issue? ==> p.read.None?)
  }

  predicate OnTrack(p: Proc) {
    AtStage(p) && Ordered(p)
  }

  predicate AtTheStart(pc: PC) {
    pc.LoadIssuer? || pc.ReserveInsert? || pc.Allocate? || pc.LoadCredential? || (pc.Done? && pc.reply.Failed?)
  }

  lemma BeginUntouched(lib: Library, request: Request)
    ensures Untouched(Begin(lib, request)) && AtTheStart(Begin(lib, request).pc)
  {
  }

  lemma UntouchedOnTrack(p: Proc)
    requires Untouched(p) && AtTheStart(p.pc)
    ensures OnTrack(p)
  {
  }

  lemma BeginOnTrack(lib: Library, request: Request)
    ensures OnTrack(Begin(lib, request))
  {
    BeginUntouched(lib, request);
    UntouchedOnTrack(Begin(lib, request));
  }

  lemma AllocateOnTrack(lib: Library, t: Tables, p: Proc, env: Env)
    requires Shaped(p) && OnTrack(p) && p.pc.Allocate?
    ensures OnTrack(AllocateStep(lib, t, p, env).1)
  {
  }

  lemma CreateOnTrack(t: Tables, p: Proc, c: Credential, env: Env)
    requires Shaped(p) && OnTrack(p) && p.pc.CreateCredential?
    requires c.credentialId == p.id && c.status == ACTIVE
    ensures OnTrack(CreateStep(t, p, c, env).1)
  {
  }

  lemma StoreRequestOnTrack(lib: Library, t: Tables, p: Proc, env: Env)
    requires Shaped(p) && OnTrack(p) && p.pc.StoreRequest?
    ensures OnTrack(StoreRequestStep(lib, t, p, env).1)
  {
  }

  lemma FindOnTrack(lib: Library, t: Tables, p: Proc, env: Env)
    requires Shaped(p) && OnTrack(p)
    ensures p.pc.FindByDigest? ==> OnTrack(FindByDigestStep(lib, t, p, env).1)
    ensures p.pc.FindById? ==> OnTrack(FindByIdStep(t, p, env).1)
  {
  }

  lemma JudgeOnTrack(lib: Library, t: Tables, p: Proc, env: Env)
    requires Shaped(p) && OnTrack(p) && p.pc.Judge?
    ensures OnTrack(JudgeStep(lib, t, p, env).1)
  {
  }

  lemma StoreResultOnTrack(t: Tables, p: Proc, env: Env)
    requires Shaped(p) && OnTrack(p) && p.pc.StoreResult?
    ensures OnTrack(StoreResultStep(t, p, env).1)
  {
  }

  lemma StatusOnTrack(t: Tables, p: Proc, env: Env)
    requires Shaped(p) && OnTrack(p)
    ensures p.pc.LoadCredential? ==> OnTrack(LoadCredentialStep(t, p, env).1)
    ensures p.pc.WriteStatusRow? ==> OnTrack(WriteStatusStep(t, p, env).1)
  {
  }

  lemma ReserveOnTrack(t: Tables, p: Proc, env: Env)
    requires Shaped(p) && OnTrack(p)
    ensures p.pc.LoadIssuer? ==> OnTrack(LoadIssuerStep(t, p, env).1)
    ensures p.pc.ReserveInsert? ==> OnTrack(ReserveInsertStep(t, p, env).1)
    ensures p.pc.ReserveSelect? ==> OnTrack(ReserveSelectStep(t, p, env).1)
  {
  }

  lemma SettleOnTrack(t: Tables, p: Proc, env: Env)
    requires Shaped(p) && OnTrack(p)
    ensures p.pc.Completing? ==> OnTrack(CompletingStep(t, p, env).1)
    ensures p.pc.Releasing? ==> OnTrack(ReleasingStep(t, p, env).1)
  {
  }

  lemma StepOnTrack(lib: Library, t: Tables, p: Proc, env: Env)
    requires Shaped(p) && OnTrack(p)
    ensures OnTrack(Step(lib, t, p, env).1)
  {
    match p.pc
    case Allocate => AllocateOnTrack(lib, t, p, env);
    case CreateCredential => CreateOnTrack(t, p, NewCredential(lib, p.request, p.id), env);
    case StoreRequest => StoreRequestOnTrack(lib, t, p, env);
    case FindByDigest => FindOnTrack(lib, t, p, env);
    case FindById => FindOnTrack(lib, t, p, env);
    case Judge => JudgeOnTrack(lib, t, p, env);
    case StoreResult => StoreResultOnTrack(t, p, env);
    case LoadCredential => StatusOnTrack(t, p, env);
    case WriteStatusRow => StatusOnTrack(t, p, env);
    case LoadIssuer => ReserveOnTrack(t, p, env);
    case ReserveInsert => ReserveOnTrack(t, p, env);
    case ReserveSelect => ReserveOnTrack(t, p, env);
    case Completing(_) => SettleOnTrack(t, p, env);
    case Releasing(_) => SettleOnTrack(t, p, env);
    case Done(_) =>
  }

  ghost predicate AllOnTrack(s: State) {
    forall pid :: pid in s.procs ==> OnTrack(s.procs[pid])
  }

  lemma NextOnTrack(lib: Library, s: State, l: Label)
    requires WellShaped(s) && AllOnTrack(s)
    ensures AllOnTrack(Next(lib, s, l))
  {
    var s' := Next(lib, s, l);
    forall pid | pid in s'.procs ensures OnTrack(s'.procs[pid]) {
      if pid !in s.procs {
        BeginOnTrack(lib, l.request);
      } else if l.Run? && l.pid == pid {
        StepOnTrack(lib, s.db, s.procs[pid], l.env);
      }
    }
  }

  lemma WithoutOnTrack(s: State, pid: nat)
    requires AllOnTrack(s) && pid in s.procs
    ensures AllOnTrack(Without(s, pid))
  {
  }

  // Each table has its own statements; every other step leaves it alone.
  lemma SequencesFrame(lib: Library, t: Tables, p: Proc, env: Env)
    requires Shaped(p) && !p.pc.Allocate?
    ensures Step(lib, t, p, env).0.sequences == t.sequences
  {
  }

  lemma CredentialsFrame(lib: Library, t: Tables, p: Proc, env: Env)
    requires Shaped(p) && !p.pc.CreateCredential? && !p.pc.WriteStatusRow?
    ensures Step(lib, t, p, env).0.credentials == t.credentials
  {
  }

  lemma RequestsFrame(lib: Library, t: Tables, p: Proc, env: Env)
    requires Shaped(p) && !p.pc.StoreRequest?
    ensures Step(lib, t, p, env).0.requests == t.requests
  {
  }

  lemma ResultsFrame(lib: Library, t: Tables, p: Proc, env: Env)
    requires Shaped(p) && !p.pc.StoreResult?
    ensures Step(lib, t, p, env).0.results == t.results
  {
  }

  // Each field is set by its own steps.
  lemma FieldsFrame(lib: Library, t: Tables, p: Proc, env: Env)
    requires Shaped(p)
    ensures
      var q := Step(lib, t, p, env).1;
      && (!p.pc.Allocate? ==> q.number == p.number && q.id == p.id && q.at == p.at && q.envelope == p.envelope)
      && (!p.pc.CreateCredential? ==> q.minted == p.minted)
      && (!p.pc.StoreRequest? ==> q.filed == p.filed)
      && (!p.pc.StoreResult? ==> q.stored == p.stored)
      && (!p.pc.Judge? ==> q.verdict == p.verdict)
      && (!p.pc.FindByDigest? && !p.pc.FindById? && !p.pc.LoadCredential? ==> q.read == p.read)
  {
    match p.pc
    case Allocate =>
    case CreateCredential =>
    case WriteStatusRow =>
    case StoreRequest =>
    case StoreResult =>
    case _ =>
  }
}
