// Every allow a client is ever told, first answers and replays alike.
module ToldAllows {
  import opened Text
  import opened Artifact
  import opened Requests
  import opened Tables
  import opened Handlers
  import opened System
  import opened Ownership
  import opened Progress
  import opened CredentialTable
  import opened Decisions
  import opened Reachability
  import Replay
  import VerificationTables

  predicate IsAllow(body: Body) {
    body.VerificationBody? && body.decision.Allow?
  }

  // The client of this verification was told "allow".
  predicate ToldAllow(p: Proc) {
    p.request.Verify? && p.pc.Done? &&
    match p.pc.reply
    case Answered(c) => IsAllow(c.body)
    case Replayed(row) => IsAllow(row.body)
    case _ => false
  }

  // The request whose work the reply repeats: itself, or the one that completed the
  // key with the very row that was replayed.
  ghost predicate AnsweredBy(s: State, i: nat, j: nat)
    requires i in s.procs
  {
    && j in s.procs
    && var p, q := s.procs[i], s.procs[j];
    && p.pc.Done?
    && match p.pc.reply
       case Answered(_) => j == i
       case Replayed(row) =>
         && p.key.Some? && q.key == p.key && q.completion.Some?
         && row == CompletedRow(Trim(q.fingerprint), q.completion.value)
         && Trim(row.fingerprint) == Trim(p.fingerprint)
       case _ => false
  }

  lemma ReplayedBy(s: State, i: nat) returns (j: nat)
    requires Owned(s) && Replay.RepliesFromRows(s) && VerificationTables.AllKeyed(s)
    requires i in s.procs && s.procs[i].key.Some? && s.procs[i].pc.Done? && s.procs[i].pc.reply.Replayed?
    ensures AnsweredBy(s, i, j) && j in s.procs && s.procs[j].request.Op() == s.procs[i].request.Op()
  {
    var key := s.procs[i].key.value;
    j :| CompletedBy(s, key, j);
    assert Holds(s.procs[j]);
  }

  // Only a request with a key is replayed to.
  predicate ReplaysKeyed(p: Proc) {
    p.pc.Done? && p.pc.reply.Replayed? ==> p.key.Some?
  }

  lemma ToldInState(lib: Library, s: State, i: nat) returns (j: nat)
    requires Owned(s) && Replay.RepliesFromRows(s) && VerificationTables.AllKeyed(s) && AllOnTrack(s)
    requires i in s.procs && ToldAllow(s.procs[i]) && ReplaysKeyed(s.procs[i])
    ensures AnsweredBy(s, i, j) && j in s.procs && Allowed(s.procs[j])
  {
    var p := s.procs[i];
    if p.pc.reply.Answered? {
      j := i;
      AnswerIsVerdict(p, p.pc.reply.c);
    } else {
      j := ReplayedBy(s, i);
      assert s.procs[j].request.Verify?;
      AnswerIsVerdict(s.procs[j], s.procs[j].completion.value);
    }
  }

  ghost predicate AllReplaysKeyed(s: State) {
    forall pid :: pid in s.procs ==> ReplaysKeyed(s.procs[pid])
  }

  lemma WorkersReplayNothing(lib: Library, t: Tables, p: Proc, env: Env)
    requires Shaped(p) && p.key.None?
    ensures p.pc.LoadIssuer? ==> ReplaysKeyed(LoadIssuerStep(t, p, env).1)
    ensures p.pc.LoadCredential? ==> ReplaysKeyed(LoadCredentialStep(t, p, env).1)
    ensures p.pc.WriteStatusRow? ==> ReplaysKeyed(WriteStatusStep(t, p, env).1)
    ensures p.pc.StoreRequest? ==> ReplaysKeyed(StoreRequestStep(lib, t, p, env).1)
    ensures p.pc.FindByDigest? ==> ReplaysKeyed(FindByDigestStep(lib, t, p, env).1)
    ensures p.pc.FindById? ==> ReplaysKeyed(FindByIdStep(t, p, env).1)
    ensures p.pc.Judge? ==> ReplaysKeyed(JudgeStep(lib, t, p, env).1)
    ensures p.pc.StoreResult? ==> ReplaysKeyed(StoreResultStep(t, p, env).1)
  {
  }

  lemma CreateReplaysNothing(t: Tables, p: Proc, c: Credential, env: Env)
    requires Shaped(p) && p.pc.CreateCredential? && p.key.None?
    ensures ReplaysKeyed(CreateStep(t, p, c, env).1)
  {
  }

  lemma AllocateReplaysNothing(lib: Library, t: Tables, p: Proc, env: Env)
    requires Shaped(p) && p.pc.Allocate? && p.key.None?
    ensures ReplaysKeyed(AllocateStep(lib, t, p, env).1)
  {
  }

  lemma StepReplaysKeyed(lib: Library, t: Tables, p: Proc, env: Env)
    requires Shaped(p) && ReplaysKeyed(p)
    ensures ReplaysKeyed(Step(lib, t, p, env).1)
  {
    if p.key.None? {
      match p.pc
      case Allocate => AllocateReplaysNothing(lib, t, p, env);
      case CreateCredential => CreateReplaysNothing(t, p, NewCredential(lib, p.request, p.id), env);
      case _ => WorkersReplayNothing(lib, t, p, env);
    }
  }

  lemma BeginReplaysKeyed(lib: Library, request: Request)
    ensures ReplaysKeyed(Begin(lib, request))
  {
  }

  lemma NextReplaysKeyed(lib: Library, s: State, l: Label)
    requires WellShaped(s) && AllReplaysKeyed(s)
    ensures AllReplaysKeyed(Next(lib, s, l))
  {
    var s' := Next(lib, s, l);
    forall pid | pid in s'.procs ensures ReplaysKeyed(s'.procs[pid]) {
      if pid !in s.procs {
        BeginReplaysKeyed(lib, l.request);
      } else if l.Run? && l.pid == pid {
        StepReplaysKeyed(lib, s.db, s.procs[pid], l.env);
      }
    }
  }

  lemma {:induction false} ExecReplaysKeyed(lib: Library, s: State, ls: seq<Label>)
    requires WellShaped(s) && AllReplaysKeyed(s)
    ensures AllReplaysKeyed(Exec(lib, s, ls))
    decreases |ls|
  {
    if ls != [] {
      NextReplaysKeyed(lib, s, ls[0]);
      ExecReplaysKeyed(lib, Next(lib, s, ls[0]), ls[1..]);
    }
  }

  // In every run, behind each allow that any client is told, replayed or not, stands
  // one request that computed it: on an artifact exactly as issued, whose record it
  // read active and unexpired, under an active issuer.
  lemma ToldAllowSound(lib: Library, issuers: map<string, Issuer>, ls: seq<Label>, i: nat) returns (j: nat, minter: nat)
    requires CollisionFree(lib)
    requires i in Exec(lib, Start(issuers), ls).procs && ToldAllow(Exec(lib, Start(issuers), ls).procs[i])
    ensures AnsweredBy(Exec(lib, Start(issuers), ls), i, j)
    ensures SoundAllow(lib, Exec(lib, Start(issuers), ls), j, minter)
  {
    j := ToldBy(lib, issuers, ls, i);
    minter := AllowSound(lib, issuers, ls, j);
  }

  lemma ToldBy(lib: Library, issuers: map<string, Issuer>, ls: seq<Label>, i: nat) returns (j: nat)
    requires i in Exec(lib, Start(issuers), ls).procs && ToldAllow(Exec(lib, Start(issuers), ls).procs[i])
    ensures AnsweredBy(Exec(lib, Start(issuers), ls), i, j)
    ensures j in Exec(lib, Start(issuers), ls).procs && Allowed(Exec(lib, Start(issuers), ls).procs[j])
  {
    RunsAreOwned(lib, issuers, ls);
    Replay.ExecReplies(lib, Start(issuers), ls);
    VerificationTables.ExecKeyed(lib, Start(issuers), ls);
    ExecVerdicts(lib, Start(issuers), ls);
    ExecReplaysKeyed(lib, Start(issuers), ls);
    j := ToldInState(lib, Exec(lib, Start(issuers), ls), i);
  }

  // A read is of the row as it is in the table then.
  lemma ReadByLabel(lib: Library, s: State, l: Label, j: nat)
    requires Credentialed(s) && j in Next(lib, s, l).procs && Next(lib, s, l).procs[j].read.Some?
    ensures
      var read := Next(lib, s, l).procs[j].read;
      || (j in s.procs && s.procs[j].read == read)
      || (read.value.record.credentialId in s.db.credentials
          && s.db.credentials[read.value.record.credentialId] == read.value.record)
  {
    if j !in s.procs {
      BeginUnread(lib, l.request);
    } else if l.Run? && l.pid == j {
      if s.procs[j].read.Some? {
        ReadFrozen(lib, s.db, s.procs[j], l.env);
      } else {
        ReadOfTerminal(lib, s, j, l.env);
      }
    }
  }

  lemma BeginUnread(lib: Library, request: Request)
    ensures Begin(lib, request).read == None
  {
  }

  // Who reads a credential after it left active reads it not active.
  lemma {:induction false} LateReads(lib: Library, s: State, ms: seq<Label>, j: nat, id: string)
    requires Reachable(lib, s) && WellShaped(s) && Inactive(s, id)
    requires j in Exec(lib, s, ms).procs && Exec(lib, s, ms).procs[j].read.Some?
    requires Exec(lib, s, ms).procs[j].read.value.record.credentialId == id
    ensures
      var read := Exec(lib, s, ms).procs[j].read;
      (j in s.procs && s.procs[j].read == read) || read.value.record.status != ACTIVE
    decreases |ms|
  {
    if ms != [] {
      NextReachable(lib, s, ms[0]);
      StaysInactive(lib, s, ms[0], id);
      LateReads(lib, Next(lib, s, ms[0]), ms[1..], j, id);
      FirstLabelRead(lib, s, ms[0], j, id, Exec(lib, s, ms).procs[j].read);
    }
  }

  ghost predicate Inactive(s: State, id: string) {
    id in s.db.credentials && s.db.credentials[id].status != ACTIVE
  }

  lemma StaysInactive(lib: Library, s: State, l: Label, id: string)
    requires Reachable(lib, s) && WellShaped(s) && Inactive(s, id)
    ensures Inactive(Next(lib, s, l), id)
  {
    Invariants(lib, s);
    NextCredentialed(lib, s, l);
  }

  lemma FirstLabelRead(lib: Library, s: State, l: Label, j: nat, id: string, read: Option<ReadBack>)
    requires Reachable(lib, s) && WellShaped(s) && Inactive(s, id)
    requires read.Some? && read.value.record.credentialId == id
    requires (j in Next(lib, s, l).procs && Next(lib, s, l).procs[j].read == read) || read.value.record.status != ACTIVE
    ensures (j in s.procs && s.procs[j].read == read) || read.value.record.status != ACTIVE
  {
    if j in Next(lib, s, l).procs && Next(lib, s, l).procs[j].read == read {
      Invariants(lib, s);
      ReadByLabel(lib, s, l, j);
    }
  }

  // Revocation finality for clients: after a credential has left active, every allow
  // that anybody is told about it, however much later, repeats the work of a request
  // that had read the record before.
  lemma OnlyOldAllows(lib: Library, issuers: map<string, Issuer>, ls: seq<Label>, ms: seq<Label>, i: nat)
    returns (j: nat, minter: nat)
    requires CollisionFree(lib)
    requires i in Exec(lib, Start(issuers), ls + ms).procs && ToldAllow(Exec(lib, Start(issuers), ls + ms).procs[i])
    ensures AnsweredBy(Exec(lib, Start(issuers), ls + ms), i, j)
    ensures SoundAllow(lib, Exec(lib, Start(issuers), ls + ms), j, minter)
    ensures
      var s1, s2 := Exec(lib, Start(issuers), ls), Exec(lib, Start(issuers), ls + ms);
      var id := s2.procs[j].read.value.record.credentialId;
      id in s1.db.credentials && s1.db.credentials[id].status != ACTIVE ==>
        j in s1.procs && s1.procs[j].read == s2.procs[j].read
  {
    j, minter := ToldAllowSound(lib, issuers, ls + ms, i);
    ExecAppend(lib, Start(issuers), ls, ms);
    var s1 := Exec(lib, Start(issuers), ls);
    ReadBefore(lib, s1, ms, j, minter);
  }

  lemma ReadBefore(lib: Library, s1: State, ms: seq<Label>, j: nat, minter: nat)
    requires Reachable(lib, s1) && WellShaped(s1) && SoundAllow(lib, Exec(lib, s1, ms), j, minter)
    ensures
      var s2 := Exec(lib, s1, ms);
      var id := s2.procs[j].read.value.record.credentialId;
      id in s1.db.credentials && s1.db.credentials[id].status != ACTIVE ==>
        j in s1.procs && s1.procs[j].read == s2.procs[j].read
  {
    var id := Exec(lib, s1, ms).procs[j].read.value.record.credentialId;
    if id in s1.db.credentials && s1.db.credentials[id].status != ACTIVE {
      LateReads(lib, s1, ms, j, id);
    }
  }
}
