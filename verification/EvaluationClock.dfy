// The evaluation clock over whole runs: the time of a verification is read out of
// its sequence number.
module EvaluationClock {
  import opened Text
  import opened Identifiers
  import opened Artifact
  import opened Requests
  import opened Tables
  import opened Evaluation
  import opened Handlers
  import opened System
  import opened Progress
  import opened Numbering
  import opened CredentialTable
  import Decisions
  import VerificationTables

  // A verdict reports the record it read as of its own evaluation time.
  predicate SnapshotFacts(p: Proc) {
    p.verdict.Some? ==>
      && p.read.Some?
      && p.verdict.value.credentialStatus == StatusSnapshot(p.read.value.record, p.at)
      && p.verdict.value.evaluatedAt == p.at
  }

  ghost predicate AllSnapshots(s: State) {
    forall pid :: pid in s.procs ==> SnapshotFacts(s.procs[pid])
  }

  lemma StepSnapshot(lib: Library, t: Tables, p: Proc, env: Env)
    requires Shaped(p) && OnTrack(p) && SnapshotFacts(p)
    ensures SnapshotFacts(Step(lib, t, p, env).1)
  {
    if p.pc.Judge? {
      assert Step(lib, t, p, env) == JudgeStep(lib, t, p, env);
    } else {
      FieldsFrame(lib, t, p, env);
      Decisions.ReadFrozen(lib, t, p, env);
    }
  }

  lemma BeginSnapshot(lib: Library, request: Request)
    ensures SnapshotFacts(Begin(lib, request))
  {
  }

  lemma NextSnapshots(lib: Library, s: State, l: Label)
    requires WellShaped(s) && AllOnTrack(s) && AllSnapshots(s)
    ensures AllSnapshots(Next(lib, s, l))
  {
    var s' := Next(lib, s, l);
    forall pid | pid in s'.procs ensures SnapshotFacts(s'.procs[pid]) {
      if pid !in s.procs {
        BeginSnapshot(lib, l.request);
      } else if l.Run? && l.pid == pid {
        StepSnapshot(lib, s.db, s.procs[pid], l.env);
      }
    }
  }

  lemma {:induction false} ExecSnapshots(lib: Library, s: State, ls: seq<Label>)
    requires WellShaped(s) && AllOnTrack(s) && AllSnapshots(s)
    ensures AllSnapshots(Exec(lib, s, ls))
    decreases |ls|
  {
    if ls != [] {
      NextOnTrack(lib, s, ls[0]);
      NextSnapshots(lib, s, ls[0]);
      ExecSnapshots(lib, Next(lib, s, ls[0]), ls[1..]);
    }
  }

  lemma ExpiredLater(a: Credential, b: Credential, m: nat, n: nat)
    requires 1 <= m <= n <= LAST_EXACT_SEQUENCE && a.expiresAt == b.expiresAt
    requires StatusSnapshot(a, EvaluatedAt(FormatVerificationId(m))).ExpiredNow?
    ensures !StatusSnapshot(b, EvaluatedAt(FormatVerificationId(n))).ActiveNow?
    ensures b.status != REVOKED && b.status != SUPERSEDED ==>
      StatusSnapshot(b, EvaluatedAt(FormatVerificationId(n))).ExpiredNow?
  {
    if m < n {
      ClockIncreasing(m, n);
    }
  }

  lemma ExpiredInState(lib: Library, s: State, i: nat, j: nat)
    requires Numbered(lib, s) && Credentialed(s) && AllSnapshots(s)
    requires i in s.procs && j in s.procs && s.procs[i].verdict.Some? && s.procs[j].verdict.Some?
    requires s.procs[i].read.Some? && s.procs[j].read.Some?
    requires s.procs[i].read.value.record.credentialId == s.procs[j].read.value.record.credentialId
    requires s.procs[i].number <= s.procs[j].number <= LAST_EXACT_SEQUENCE
    requires s.procs[i].verdict.value.credentialStatus.ExpiredNow?
    ensures !s.procs[j].verdict.value.credentialStatus.ActiveNow?
    ensures
      var status := s.procs[j].read.value.record.status;
      status != REVOKED && status != SUPERSEDED ==> s.procs[j].verdict.value.credentialStatus.ExpiredNow?
  {
    var a, b := s.procs[i].read.value.record, s.procs[j].read.value.record;
    var row := s.db.credentials[a.credentialId];
    assert Issued(a).expiresAt == Issued(row).expiresAt == Issued(b).expiresAt;
    ExpiredLater(a, b, s.procs[i].number, s.procs[j].number);
  }

  // In every run, whatever the order in which two verifications of one credential
  // ran: if the earlier-numbered one found it expired, then so does the
  // later-numbered one, or it finds it revoked or superseded. This holds for the
  // first 153722868 verifications.
  lemma ExpiredStaysExpired(lib: Library, issuers: map<string, Issuer>, ls: seq<Label>, i: nat, j: nat)
    requires
      var procs := Exec(lib, Start(issuers), ls).procs;
      && i in procs && j in procs && procs[i].verdict.Some? && procs[j].verdict.Some?
      && procs[i].read.Some? && procs[j].read.Some?
      && procs[i].read.value.record.credentialId == procs[j].read.value.record.credentialId
      && procs[i].number <= procs[j].number <= LAST_EXACT_SEQUENCE
      && procs[i].verdict.value.credentialStatus.ExpiredNow?
    ensures
      var p := Exec(lib, Start(issuers), ls).procs[j];
      && !p.verdict.value.credentialStatus.ActiveNow?
      && (p.read.value.record.status != REVOKED && p.read.value.record.status != SUPERSEDED ==>
            p.verdict.value.credentialStatus.ExpiredNow?)
  {
    ExecCredentialed(lib, Start(issuers), ls);
    ExecSnapshots(lib, Start(issuers), ls);
    ExpiredInState(lib, Exec(lib, Start(issuers), ls), i, j);
  }

  lemma TimesInState(lib: Library, s: State, id: string)
    requires Numbered(lib, s) && VerificationTables.Recorded(s) && AllSnapshots(s) && id in s.db.results
    ensures id in s.db.requests
    ensures s.db.requests[id].requestedAt == s.db.results[id].evaluatedAt == EvaluatedAt(id)
  {
    var pid :| VerificationTables.StoredBy(s, id, pid);
    IdentifiersAreTight("", s.procs[pid].number);
  }

  // In every run a stored result carries the time its request was filed under,
  // and that is the time its identifier stands for.
  lemma ResultTimes(lib: Library, issuers: map<string, Issuer>, ls: seq<Label>, id: string)
    requires id in Exec(lib, Start(issuers), ls).db.results
    ensures
      var db := Exec(lib, Start(issuers), ls).db;
      id in db.requests && db.requests[id].requestedAt == db.results[id].evaluatedAt == EvaluatedAt(id)
  {
    ExecNumbered(lib, Start(issuers), ls);
    ExecSnapshots(lib, Start(issuers), ls);
    VerificationTables.ExecRecorded(lib, Start(issuers), ls);
    TimesInState(lib, Exec(lib, Start(issuers), ls), id);
  }

  // Past the range expiry can be forgotten: an active credential is found expired by
  // the last exact verification and active again by the next one, exactly when its
  // expiry lies between the two times, the earlier of which is the later one's.
  lemma ExpiryForgotten(record: Credential)
    requires record.status == ACTIVE
    ensures
      var last, next := EvaluatedAt(FormatVerificationId(LAST_EXACT_SEQUENCE)),
                        EvaluatedAt(FormatVerificationId(LAST_EXACT_SEQUENCE + 1));
      && next < BASE_TIME < last
      && (StatusSnapshot(record, last).ExpiredNow? && StatusSnapshot(record, next).ActiveNow?
          <==> record.expiresAt != 0 && next <= record.expiresAt < last)
  {
    ClockExact(LAST_EXACT_SEQUENCE);
    ClockWrapsBackwards();
  }
}
