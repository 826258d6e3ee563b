// Applying a trust bootstrap document: one upsert and one audit record for each
// entry, in document order, up to the first failure.
module TrustBootstrap {
  import opened Text
  import opened Decimal
  import opened Tables
  import opened Store

  datatype Entry = Entry(
    issuerId: string, displayName: string, trustState: string,
    allowedTemplates: seq<string>, keyReferences: seq<string>)

  // The two tables a bootstrap writes.
  datatype Registry = Registry(issuers: map<string, Issuer>, audits: map<string, Audit>)

  // How the three SQL calls for one entry go.
  datatype Calls = Calls(load: Fault, upsert: Fault, audit: Fault)

  datatype Why = InvalidEntry | LoadFailed | UpsertFailed | AuditFailed

  datatype Outcome = Applied(count: nat) | Stopped(index: nat, why: Why)

  // What an application writes besides the issuers: its time, and the key and the
  // row of the audit record for the entry at an index.
  datatype Stamp = Stamp(now: int, key: (Entry, nat) -> string, row: Entry -> Audit)

  predicate ValidEntry(e: Entry) {
    Trim(e.issuerId) != "" && Trim(e.displayName) != "" && Trim(e.trustState) != ""
  }

  function Label(source: string): string {
    if Trim(source) == "" then "inline" else Trim(source)
  }

  // 1970-01-01T00:00:00Z, in nanoseconds since 0001-01-01T00:00:00Z.
  const UNIX_EPOCH: int := 719_162 * 86_400 * 1_000_000_000

  function UnixNano(t: int): int {
    WrapInt64(t - UNIX_EPOCH)
  }

  function PrintInt(n: int): (s: string)
    ensures s != "" && IsDigit(s[|s| - 1]) && ':' !in s
  {
    assert !IsDigit(':');
    if n < 0 then "-" + Print(-n) else Print(n)
  }

  function AuditId(source: string, issuerId: string, index: nat, now: int): string {
    "trust-bootstrap:" + (Label(source) + ":" + issuerId) + ":" + Print(index) + ":" + PrintInt(UnixNano(now))
  }

  // The key of the audit record for one entry, as the table holds it.
  function AuditKey(source: string, e: Entry, index: nat, now: int): string {
    Trim(AuditId(source, Trim(e.issuerId), index, now))
  }

  function NewAudit(source: string, e: Entry, now: int): Audit {
    Audit("bootstrap:" + Label(source), Trim(e.issuerId), now)
  }

  function StampOf(source: string, now: int): Stamp {
    Stamp(now, (e: Entry, index: nat) => AuditKey(source, e, index, now), (e: Entry) => NewAudit(source, e, now))
  }

  function NewIssuer(e: Entry, createdAt: int, now: int): Issuer {
    Issuer(Trim(e.displayName), Trim(e.trustState), e.allowedTemplates, e.keyReferences, createdAt, now)
  }

  // First seen: an issuer that is already there keeps its creation time.
  function CreatedAt(issuers: map<string, Issuer>, id: string, now: int): int {
    if id in issuers then issuers[id].createdAt else now
  }

  // One entry: the tables after it, and why it failed if it did.
  function ApplyEntry(db: Registry, e: Entry, index: nat, stamp: Stamp, calls: Calls): (Registry, Option<Why>) {
    var id := Trim(e.issuerId);
    if !ValidEntry(e) then (db, Some(InvalidEntry))
    else if Errs(calls.load) then (db, Some(LoadFailed))
    else if calls.upsert.Refused? then (db, Some(UpsertFailed))
    else
      var upserted := db.(issuers := db.issuers[id := NewIssuer(e, CreatedAt(db.issuers, id, stamp.now), stamp.now)]);
      if calls.upsert.Lost? then (upserted, Some(UpsertFailed))
      else if calls.audit.Refused? || stamp.key(e, index) in db.audits then (upserted, Some(AuditFailed))
      else
        (upserted.(audits := db.audits[stamp.key(e, index) := stamp.row(e)]),
         if calls.audit.Lost? then Some(AuditFailed) else None)
  }

  // The outcome when the entry at this index is the last one tried.
  function OutcomeOf(index: nat, why: Option<Why>): Outcome {
    match why case None => Applied(index + 1) case Some(w) => Stopped(index, w)
  }

  // A document is applied entry by entry; after a failure nothing more happens.
  function Apply(db: Registry, document: seq<Entry>, stamp: Stamp, calls: nat -> Calls): (Registry, Outcome) {
    if document == [] then (db, Applied(0))
    else
      var k := |document| - 1;
      var before := Apply(db, document[..k], stamp, calls);
      if before.1.Stopped? then before
      else
        var (after, why) := ApplyEntry(before.0, document[k], k, stamp, calls(k));
        (after, OutcomeOf(k, why))
  }

  lemma {:induction false} StopIsFinal(db: Registry, document: seq<Entry>, stamp: Stamp, calls: nat -> Calls, k: nat)
    requires k <= |document| && Apply(db, document[..k], stamp, calls).1.Stopped?
    ensures Apply(db, document, stamp, calls) == Apply(db, document[..k], stamp, calls)
  {
    if k == |document| {
      assert document[..k] == document;
    } else {
      var n := |document| - 1;
      assert document[..n][..k] == document[..k];
      StopIsFinal(db, document[..n], stamp, calls, k);
    }
  }

  // The body of the loop: one entry and its audit record.
  method ApplyBootstrapIssuer(
    store: SqlStore, e: Entry, auditId: string, audit: Audit, now: int, calls: Calls, ghost index: nat, ghost stamp: Stamp)
    returns (failure: Option<Why>)
    requires stamp.now == now && stamp.key(e, index) == Trim(auditId) && stamp.row(e) == audit
    modifies store`issuers, store`audits
    ensures
      (Registry(store.issuers, store.audits), failure)
      == ApplyEntry(Registry(old(store.issuers), old(store.audits)), e, index, stamp, calls)
  {
    if Trim(e.issuerId) == "" || Trim(e.displayName) == "" || Trim(e.trustState) == "" {
      return Some(InvalidEntry);
    }
    var id := Trim(e.issuerId);
    TrimIdempotent(e.issuerId);
    var existing := store.GetIssuerRecord(id, calls.load);
    var createdAt := now;
    match existing {
      case Found(record) => createdAt := record.createdAt;
      case Absent =>
      case Unreadable => return Some(LoadFailed);
    }
    var ok := store.UpsertIssuerRecord(id, NewIssuer(e, createdAt, now), calls.upsert);
    if !ok {
      return Some(UpsertFailed);
    }
    ok := store.AppendAuditRecord(auditId, audit, calls.audit);
    failure := if ok then None else Some(AuditFailed);
  }

  method ApplyTrustBootstrapDocument(
    store: SqlStore, source: string, document: seq<Entry>, requested: int, clock: int, calls: nat -> Calls)
    returns (outcome: Outcome)
    modifies store`issuers, store`audits
    ensures
      var now := if requested == 0 then clock else requested;
      (Registry(store.issuers, store.audits), outcome)
      == Apply(Registry(old(store.issuers), old(store.audits)), document, StampOf(source, now), calls)
  {
    var now := if requested == 0 then clock else requested;
    ghost var start := Registry(store.issuers, store.audits);
    ghost var stamp := StampOf(source, now);
    var applied := 0;
    for index := 0 to |document|
      invariant applied == index
      invariant (Registry(store.issuers, store.audits), Applied(applied)) == Apply(start, document[..index], stamp, calls)
    {
      ghost var sofar := document[..index + 1];
      assert sofar[..index] == document[..index] && sofar[index] == document[index];
      var e := document[index];
      var auditId := AuditId(source, Trim(e.issuerId), index, now);
      assert stamp.key(e, index) == Trim(auditId);
      var failure := ApplyBootstrapIssuer(store, e, auditId, NewAudit(source, e, now), now, calls(index), index, stamp);
      if failure.Some? {
        StopIsFinal(start, document, stamp, calls, index + 1);
        return Stopped(index, failure.value);
      }
      applied := applied + 1;
    }
    assert document[..|document|] == document;
    return Applied(applied);
  }

  lemma SplitAtLast(a: string, x: string, b: string, y: string)
    requires ':' !in x && ':' !in y
    ensures a + ":" + x == b + ":" + y <==> a == b && x == y
  {
    LastSegmentAfter(a, ':', x);
    LastSegmentAfter(b, ':', y);
    assert a + [':'] + x == a + ":" + x && b + [':'] + y == b + ":" + y;
    if a + ":" + x == b + ":" + y {
      assert a == (a + ":" + x)[..|a|] && b == (b + ":" + y)[..|b|];
    }
  }

  lemma PrintIntInjective(m: int, n: int)
    requires PrintInt(m) == PrintInt(n)
    ensures m == n
  {
    assert !IsDigit('-');
    assert PrintInt(m)[0] == '-' <==> m < 0;
    assert PrintInt(n)[0] == '-' <==> n < 0;
    ValueOfPrint(if m < 0 then -m else m);
    ValueOfPrint(if n < 0 then -n else n);
    if m < 0 && n < 0 {
      assert PrintInt(m)[1..] == Print(-m) && PrintInt(n)[1..] == Print(-n);
    }
  }

  lemma AuditIdIsTight(source: string, issuerId: string, index: nat, now: int)
    ensures Trim(AuditId(source, issuerId, index, now)) == AuditId(source, issuerId, index, now)
  {
    var id, tail := AuditId(source, issuerId, index, now), PrintInt(UnixNano(now));
    assert id[0] == 't' && id[|id| - 1] == tail[|tail| - 1];
    TightIsFixed(id);
  }

  lemma NumbersExactly(a: string, k: nat, m: int, b: string, l: nat, n: int)
    ensures a + ":" + Print(k) + ":" + PrintInt(m) == b + ":" + Print(l) + ":" + PrintInt(n)
            <==> a == b && k == l && m == n
  {
    assert !IsDigit(':');
    SplitAtLast(a + ":" + Print(k), PrintInt(m), b + ":" + Print(l), PrintInt(n));
    SplitAtLast(a, Print(k), b, Print(l));
    if Print(k) == Print(l) {
      PrintInjective(k, l);
    }
    if PrintInt(m) == PrintInt(n) {
      PrintIntInjective(m, n);
    }
  }

  // When two audit records have the same key. Within one application the index
  // keeps them apart; between two, the instant does.
  lemma AuditKeysExactly(s1: string, e1: Entry, k1: nat, t1: int, s2: string, e2: Entry, k2: nat, t2: int)
    ensures AuditKey(s1, e1, k1, t1) == AuditKey(s2, e2, k2, t2)
            <==> && Label(s1) + ":" + Trim(e1.issuerId) == Label(s2) + ":" + Trim(e2.issuerId)
                 && k1 == k2 && UnixNano(t1) == UnixNano(t2)
  {
    AuditIdIsTight(s1, Trim(e1.issuerId), k1, t1);
    AuditIdIsTight(s2, Trim(e2.issuerId), k2, t2);
    var a, b := Label(s1) + ":" + Trim(e1.issuerId), Label(s2) + ":" + Trim(e2.issuerId);
    NumbersExactly("trust-bootstrap:" + a, k1, UnixNano(t1), "trust-bootstrap:" + b, k2, UnixNano(t2));
    assert ("trust-bootstrap:" + a)[|"trust-bootstrap:"|..] == a && ("trust-bootstrap:" + b)[|"trust-bootstrap:"|..] == b;
  }

  // Entries at these two indexes have different audit keys.
  ghost predicate Apart(stamp: Stamp, k: nat, l: nat) {
    forall e, f :: stamp.key(e, k) != stamp.key(f, l)
  }

  ghost predicate KeysApart(stamp: Stamp) {
    forall k: nat, l: nat :: k != l ==> Apart(stamp, k, l)
  }

  lemma StampKeysApart(source: string, now: int)
    ensures KeysApart(StampOf(source, now))
  {
    var stamp := StampOf(source, now);
    forall k: nat, l: nat | k != l ensures Apart(stamp, k, l) {
      forall e, f ensures stamp.key(e, k) != stamp.key(f, l) {
        AuditKeysExactly(source, e, k, now, source, f, l, now);
      }
    }
  }

  // The last entry of a document for an issuer.
  function LastNaming(document: seq<Entry>, id: string): (last: Option<Entry>)
    ensures last.Some? ==> Trim(last.value.issuerId) == id
  {
    if document == [] then None
    else
      var e := document[|document| - 1];
      if Trim(e.issuerId) == id then Some(e) else LastNaming(document[..|document| - 1], id)
  }

  // The issuer is as this entry says, at this time.
  predicate Says(issuer: Issuer, e: Entry, now: int) {
    && issuer.displayName == Trim(e.displayName)
    && issuer.trustState == Trim(e.trustState)
    && issuer.allowedTemplates == e.allowedTemplates
    && issuer.keyReferences == e.keyReferences
    && issuer.updatedAt == now
  }

  // What applying these entries at this time does to an issuer.
  predicate IssuerEffect(before: map<string, Issuer>, document: seq<Entry>, now: int, after: map<string, Issuer>, id: string) {
    match LastNaming(document, id)
    case None => (id in after <==> id in before) && (id in before ==> after[id] == before[id])
    case Some(e) => id in after && Says(after[id], e, now) && after[id].createdAt == CreatedAt(before, id, now)
  }

  ghost predicate IssuersEffect(before: map<string, Issuer>, document: seq<Entry>, now: int, after: map<string, Issuer>) {
    forall id :: IssuerEffect(before, document, now, after, id)
  }

  // The audit records of a document.
  function AuditsOf(document: seq<Entry>, stamp: Stamp): map<string, Audit> {
    if document == [] then map[]
    else
      var n := |document| - 1;
      AuditsOf(document[..n], stamp)[stamp.key(document[n], n) := stamp.row(document[n])]
  }

  // They are all under fresh keys, and nothing else has happened to the table.
  predicate AuditsEffect(before: map<string, Audit>, document: seq<Entry>, stamp: Stamp, after: map<string, Audit>) {
    after == before + AuditsOf(document, stamp) && before.Keys !! AuditsOf(document, stamp).Keys
  }

  lemma {:induction false} LaterKeyIsNew(document: seq<Entry>, stamp: Stamp, e: Entry, index: nat)
    requires KeysApart(stamp) && |document| <= index
    ensures stamp.key(e, index) !in AuditsOf(document, stamp)
  {
    if document != [] {
      var n := |document| - 1;
      LaterKeyIsNew(document[..n], stamp, e, index);
      assert Apart(stamp, index, n);
    }
  }

  // One record for each entry, and no other.
  lemma {:induction false} AuditsOfExactly(document: seq<Entry>, stamp: Stamp)
    requires KeysApart(stamp)
    ensures |AuditsOf(document, stamp)| == |document|
    ensures forall j: nat :: j < |document| ==>
      && stamp.key(document[j], j) in AuditsOf(document, stamp)
      && AuditsOf(document, stamp)[stamp.key(document[j], j)] == stamp.row(document[j])
  {
    if document != [] {
      var n := |document| - 1;
      var front := document[..n];
      AuditsOfExactly(front, stamp);
      LaterKeyIsNew(front, stamp, document[n], n);
      forall j: nat | j < n
        ensures stamp.key(document[j], j) in AuditsOf(document, stamp)
        ensures AuditsOf(document, stamp)[stamp.key(document[j], j)] == stamp.row(document[j])
      {
        assert front[j] == document[j];
        assert Apart(stamp, j, n);
      }
    }
  }

  // Why one entry fails; none when it goes through.
  function FailureOf(audits: map<string, Audit>, e: Entry, index: nat, stamp: Stamp, calls: Calls): Option<Why> {
    if !ValidEntry(e) then Some(InvalidEntry)
    else if Errs(calls.load) then Some(LoadFailed)
    else if Errs(calls.upsert) then Some(UpsertFailed)
    else if Errs(calls.audit) || stamp.key(e, index) in audits then Some(AuditFailed)
    else None
  }

  // Whether an entry's own writes took effect although it failed in this way.
  predicate LeftUpsert(why: Option<Why>, calls: Calls) {
    why == None || why == Some(AuditFailed) || (why == Some(UpsertFailed) && calls.upsert.Lost?)
  }

  predicate LeftAudit(why: Option<Why>, taken: bool, calls: Calls) {
    why == None || (why == Some(AuditFailed) && calls.audit.Lost? && !taken)
  }

  // The outcome is the first failing entry, or success when there is none.
  ghost predicate FirstStop(audits: map<string, Audit>, document: seq<Entry>, stamp: Stamp, calls: nat -> Calls, o: Outcome) {
    match o
    case Applied(n) =>
      && n == |document|
      && forall j: nat :: j < n ==> FailureOf(audits, document[j], j, stamp, calls(j)) == None
    case Stopped(k, why) =>
      && k < |document|
      && FailureOf(audits, document[k], k, stamp, calls(k)) == Some(why)
      && forall j: nat :: j < k ==> FailureOf(audits, document[j], j, stamp, calls(j)) == None
  }

  // How many entries reached the issuer table, and how many the audit table.
  function Upserted(o: Outcome, calls: nat -> Calls): nat {
    match o
    case Applied(n) => n
    case Stopped(k, why) => if LeftUpsert(Some(why), calls(k)) then k + 1 else k
  }

  function Audited(audits: map<string, Audit>, document: seq<Entry>, stamp: Stamp, o: Outcome, calls: nat -> Calls): nat {
    match o
    case Applied(n) => n
    case Stopped(k, why) =>
      if k < |document| && LeftAudit(Some(why), stamp.key(document[k], k) in audits, calls(k)) then k + 1 else k
  }

  // The first m entries are in the issuer table and the first n in the audit table.
  ghost predicate Wrote(db: Registry, document: seq<Entry>, stamp: Stamp, m: nat, n: nat, after: Registry) {
    && m <= |document| && IssuersEffect(db.issuers, document[..m], stamp.now, after.issuers)
    && n <= |document| && AuditsEffect(db.audits, document[..n], stamp, after.audits)
  }

  lemma UpsertEffect(before: map<string, Issuer>, document: seq<Entry>, now: int, after: map<string, Issuer>, e: Entry)
    requires IssuersEffect(before, document, now, after)
    ensures IssuersEffect(before, document + [e], now,
                          after[Trim(e.issuerId) := NewIssuer(e, CreatedAt(after, Trim(e.issuerId), now), now)])
  {
    var key := Trim(e.issuerId);
    var after' := after[key := NewIssuer(e, CreatedAt(after, key, now), now)];
    assert (document + [e])[..|document + [e]| - 1] == document;
    assert IssuerEffect(before, document, now, after, key);
    forall id ensures IssuerEffect(before, document + [e], now, after', id) {
      assert IssuerEffect(before, document, now, after, id);
    }
  }

  // An entry's own key is taken exactly when it was before the application.
  lemma AuditFresh(audits: map<string, Audit>, document: seq<Entry>, stamp: Stamp, after: map<string, Audit>, e: Entry)
    requires KeysApart(stamp) && AuditsEffect(audits, document, stamp, after)
    ensures stamp.key(e, |document|) in after <==> stamp.key(e, |document|) in audits
  {
    LaterKeyIsNew(document, stamp, e, |document|);
  }

  lemma AuditEffect(audits: map<string, Audit>, document: seq<Entry>, stamp: Stamp, after: map<string, Audit>, e: Entry)
    requires AuditsEffect(audits, document, stamp, after) && stamp.key(e, |document|) !in after
    ensures AuditsEffect(audits, document + [e], stamp, after[stamp.key(e, |document|) := stamp.row(e)])
  {
    assert (document + [e])[..|document|] == document;
  }

  // What one entry writes, and why it fails.
  ghost predicate EntryWrites(mid: Registry, e: Entry, index: nat, stamp: Stamp, calls: Calls, after: Registry, why: Option<Why>) {
    var id, key := Trim(e.issuerId), stamp.key(e, index);
    && why == FailureOf(mid.audits, e, index, stamp, calls)
    && after.issuers == (if LeftUpsert(why, calls) then mid.issuers[id := NewIssuer(e, CreatedAt(mid.issuers, id, stamp.now), stamp.now)]
                         else mid.issuers)
    && after.audits == (if LeftAudit(why, key in mid.audits, calls) then mid.audits[key := stamp.row(e)] else mid.audits)
  }

  lemma EntryExactly(mid: Registry, e: Entry, index: nat, stamp: Stamp, calls: Calls)
    ensures
      var (after, why) := ApplyEntry(mid, e, index, stamp, calls);
      EntryWrites(mid, e, index, stamp, calls, after, why)
  {
  }

  lemma EntryIssuers(
    before: map<string, Issuer>, document: seq<Entry>, mid: Registry, e: Entry, index: nat, stamp: Stamp, calls: Calls,
    after: Registry, why: Option<Why>)
    requires IssuersEffect(before, document, stamp.now, mid.issuers)
    requires EntryWrites(mid, e, index, stamp, calls, after, why)
    ensures LeftUpsert(why, calls) ==> IssuersEffect(before, document + [e], stamp.now, after.issuers)
    ensures !LeftUpsert(why, calls) ==> IssuersEffect(before, document, stamp.now, after.issuers)
  {
    if LeftUpsert(why, calls) {
      UpsertEffect(before, document, stamp.now, mid.issuers, e);
    }
  }

  lemma EntryAudits(
    before: map<string, Audit>, document: seq<Entry>, mid: Registry, e: Entry, stamp: Stamp, calls: Calls,
    after: Registry, why: Option<Why>)
    requires AuditsEffect(before, document, stamp, mid.audits)
    requires stamp.key(e, |document|) in mid.audits <==> stamp.key(e, |document|) in before
    requires EntryWrites(mid, e, |document|, stamp, calls, after, why)
    ensures why == FailureOf(before, e, |document|, stamp, calls)
    ensures LeftAudit(why, stamp.key(e, |document|) in before, calls) ==> AuditsEffect(before, document + [e], stamp, after.audits)
    ensures !LeftAudit(why, stamp.key(e, |document|) in before, calls) ==> AuditsEffect(before, document, stamp, after.audits)
  {
    if LeftAudit(why, stamp.key(e, |document|) in before, calls) {
      AuditEffect(before, document, stamp, mid.audits, e);
    }
  }

  lemma NothingApplied(db: Registry, stamp: Stamp)
    ensures IssuersEffect(db.issuers, [], stamp.now, db.issuers) && AuditsEffect(db.audits, [], stamp, db.audits)
  {
  }

  lemma StopOfPrefix(audits: map<string, Audit>, document: seq<Entry>, stamp: Stamp, calls: nat -> Calls, n: nat, o: Outcome)
    requires n <= |document| && o.Stopped? && FirstStop(audits, document[..n], stamp, calls, o)
    ensures FirstStop(audits, document, stamp, calls, o)
    ensures Audited(audits, document[..n], stamp, o, calls) == Audited(audits, document, stamp, o, calls)
  {
    assert forall j: nat :: j < n ==> document[..n][j] == document[j];
  }

  lemma WroteOfPrefix(db: Registry, document: seq<Entry>, stamp: Stamp, k: nat, m: nat, n: nat, after: Registry)
    requires k <= |document| && Wrote(db, document[..k], stamp, m, n, after)
    ensures Wrote(db, document, stamp, m, n, after)
  {
    assert document[..k][..m] == document[..m];
    assert document[..k][..n] == document[..n];
  }

  lemma NextStop(audits: map<string, Audit>, document: seq<Entry>, stamp: Stamp, calls: nat -> Calls, e: Entry)
    requires FirstStop(audits, document, stamp, calls, Applied(|document|))
    ensures FirstStop(audits, document + [e], stamp, calls,
                      OutcomeOf(|document|, FailureOf(audits, e, |document|, stamp, calls(|document|))))
  {
    var longer := document + [e];
    assert longer[|document|] == e && forall j: nat :: j < |document| ==> longer[j] == document[j];
  }

  lemma WroteExactly(db: Registry, document: seq<Entry>, stamp: Stamp, m: nat, n: nat, after: Registry)
    requires m <= |document| && n <= |document|
    requires IssuersEffect(db.issuers, document[..m], stamp.now, after.issuers)
    requires AuditsEffect(db.audits, document[..n], stamp, after.audits)
    ensures Wrote(db, document, stamp, m, n, after)
  {
  }

  // One more entry after a successful application of the others.
  lemma OneMoreEntry(
    db: Registry, front: seq<Entry>, stamp: Stamp, calls: nat -> Calls, mid: Registry, e: Entry, after: Registry, why: Option<Why>)
    requires IssuersEffect(db.issuers, front, stamp.now, mid.issuers)
    requires AuditsEffect(db.audits, front, stamp, mid.audits)
    requires stamp.key(e, |front|) in mid.audits <==> stamp.key(e, |front|) in db.audits
    requires EntryWrites(mid, e, |front|, stamp, calls(|front|), after, why)
    ensures why == FailureOf(db.audits, e, |front|, stamp, calls(|front|))
    ensures
      var o := OutcomeOf(|front|, why);
      Wrote(db, front + [e], stamp, Upserted(o, calls), Audited(db.audits, front + [e], stamp, o, calls), after)
  {
    var n := |front|;
    var document := front + [e];
    assert document[..n] == front && document[..n + 1] == document && document[n] == e;
    EntryIssuers(db.issuers, front, mid, e, n, stamp, calls(n), after, why);
    EntryAudits(db.audits, front, mid, e, stamp, calls(n), after, why);
    var o := OutcomeOf(n, why);
    WroteExactly(db, document, stamp, Upserted(o, calls), Audited(db.audits, document, stamp, o, calls), after);
  }

  lemma LastEntry(db: Registry, document: seq<Entry>, stamp: Stamp, calls: nat -> Calls, mid: Registry)
    requires KeysApart(stamp) && document != []
    requires FirstStop(db.audits, document[..|document| - 1], stamp, calls, Applied(|document| - 1))
    requires Wrote(db, document[..|document| - 1], stamp, |document| - 1, |document| - 1, mid)
    ensures
      var n := |document| - 1;
      var (after, why) := ApplyEntry(mid, document[n], n, stamp, calls(n));
      var o := OutcomeOf(n, why);
      && FirstStop(db.audits, document, stamp, calls, o)
      && Wrote(db, document, stamp, Upserted(o, calls), Audited(db.audits, document, stamp, o, calls), after)
  {
    var n := |document| - 1;
    var front, e := document[..n], document[n];
    assert front + [e] == document && front[..n] == front;
    EntryExactly(mid, e, n, stamp, calls(n));
    AuditFresh(db.audits, front, stamp, mid.audits, e);
    var (after, why) := ApplyEntry(mid, e, n, stamp, calls(n));
    OneMoreEntry(db, front, stamp, calls, mid, e, after, why);
    NextStop(db.audits, front, stamp, calls, e);
  }

  lemma {:induction false} ApplyExplained(db: Registry, document: seq<Entry>, stamp: Stamp, calls: nat -> Calls)
    requires KeysApart(stamp)
    ensures
      var (after, o) := Apply(db, document, stamp, calls);
      && FirstStop(db.audits, document, stamp, calls, o)
      && Wrote(db, document, stamp, Upserted(o, calls), Audited(db.audits, document, stamp, o, calls), after)
  {
    if document == [] {
      NothingApplied(db, stamp);
    } else {
      var n := |document| - 1;
      var (mid, o) := Apply(db, document[..n], stamp, calls);
      ApplyExplained(db, document[..n], stamp, calls);
      if o.Stopped? {
        StopOfPrefix(db.audits, document, stamp, calls, n, o);
        WroteOfPrefix(db, document, stamp, n, Upserted(o, calls), Audited(db.audits, document, stamp, o, calls), mid);
      } else {
        LastEntry(db, document, stamp, calls, mid);
      }
    }
  }

  // Every application, whatever fails in it: it stops at the first failing entry
  // and nowhere else, and the two tables hold exactly what the entries that
  // reached them call for.
  lemma ApplicationExactly(db: Registry, source: string, document: seq<Entry>, now: int, calls: nat -> Calls, o: Outcome)
    ensures Apply(db, document, StampOf(source, now), calls).1 == o
            <==> FirstStop(db.audits, document, StampOf(source, now), calls, o)
    ensures
      var (after, p) := Apply(db, document, StampOf(source, now), calls);
      Wrote(db, document, StampOf(source, now), Upserted(p, calls),
            Audited(db.audits, document, StampOf(source, now), p, calls), after)
  {
    StampKeysApart(source, now);
    ApplyExplained(db, document, StampOf(source, now), calls);
  }

  // Success, exactly: every entry is valid, no call fails, and none of the audit
  // keys is taken. Then the count is the document's length.
  lemma SucceedsExactly(db: Registry, source: string, document: seq<Entry>, now: int, calls: nat -> Calls)
    ensures Apply(db, document, StampOf(source, now), calls).1 == Applied(|document|)
            <==> forall j: nat :: j < |document| ==>
                   && Trim(document[j].issuerId) != "" && Trim(document[j].displayName) != ""
                   && Trim(document[j].trustState) != ""
                   && !Errs(calls(j).load) && !Errs(calls(j).upsert) && !Errs(calls(j).audit)
                   && AuditKey(source, document[j], j, now) !in db.audits
  {
    var stamp := StampOf(source, now);
    ApplicationExactly(db, source, document, now, calls, Applied(|document|));
    forall j: nat | j < |document|
      ensures FailureOf(db.audits, document[j], j, stamp, calls(j)) == None
              <==> && ValidEntry(document[j])
                   && !Errs(calls(j).load) && !Errs(calls(j).upsert) && !Errs(calls(j).audit)
                   && AuditKey(source, document[j], j, now) !in db.audits
    {
      assert stamp.key(document[j], j) == AuditKey(source, document[j], j, now);
    }
  }

  // The audit record of each entry that reached the audit table: its key, who it is
  // by, which issuer it is about and when.
  lemma AuditRowsExactly(db: Registry, source: string, document: seq<Entry>, now: int, calls: nat -> Calls, j: nat)
    requires
      var stamp := StampOf(source, now);
      j < |document| && j < Audited(db.audits, document, stamp, Apply(db, document, stamp, calls).1, calls)
    ensures
      var audits := Apply(db, document, StampOf(source, now), calls).0.audits;
      var from := if Trim(source) == "" then "inline" else Trim(source);
      var issuerId := Trim(document[j].issuerId);
      var key := "trust-bootstrap:" + from + ":" + issuerId + ":" + Print(j) + ":" + PrintInt(UnixNano(now));
      && key in audits
      && audits[key].authenticationReference == "bootstrap:" + from
      && audits[key].resourceId == issuerId
      && audits[key].occurredAt == now
  {
    var stamp := StampOf(source, now);
    var (after, o) := Apply(db, document, stamp, calls);
    ApplicationExactly(db, source, document, now, calls, o);
    StampKeysApart(source, now);
    var n := Audited(db.audits, document, stamp, o, calls);
    AuditInTable(db.audits, document[..n], stamp, after.audits, j);
    AuditKeyText(source, document[j], j, now);
  }

  lemma AuditInTable(before: map<string, Audit>, document: seq<Entry>, stamp: Stamp, after: map<string, Audit>, j: nat)
    requires KeysApart(stamp) && AuditsEffect(before, document, stamp, after) && j < |document|
    ensures stamp.key(document[j], j) in after && after[stamp.key(document[j], j)] == stamp.row(document[j])
  {
    AuditsOfExactly(document, stamp);
  }

  lemma AuditKeyText(source: string, e: Entry, index: nat, now: int)
    ensures
      var from := if Trim(source) == "" then "inline" else Trim(source);
      AuditKey(source, e, index, now)
      == "trust-bootstrap:" + from + ":" + Trim(e.issuerId) + ":" + Print(index) + ":" + PrintInt(UnixNano(now))
  {
    AuditIdIsTight(source, Trim(e.issuerId), index, now);
  }

  // An invalid entry leaves exactly the entries before it applied and audited.
  lemma InvalidEntryStops(db: Registry, source: string, document: seq<Entry>, now: int, calls: nat -> Calls, k: nat)
    requires k < |document|
    requires Trim(document[k].issuerId) == "" || Trim(document[k].displayName) == "" || Trim(document[k].trustState) == ""
    requires Apply(db, document[..k], StampOf(source, now), calls).1 == Applied(k)
    ensures
      var (after, o) := Apply(db, document, StampOf(source, now), calls);
      && o == Stopped(k, InvalidEntry)
      && Wrote(db, document, StampOf(source, now), k, k, after)
  {
    var stamp := StampOf(source, now);
    ApplicationExactly(db, source, document[..k], now, calls, Applied(k));
    InvalidIsFirst(db.audits, document, stamp, calls, k);
    ApplicationExactly(db, source, document, now, calls, Stopped(k, InvalidEntry));
  }

  lemma InvalidIsFirst(audits: map<string, Audit>, document: seq<Entry>, stamp: Stamp, calls: nat -> Calls, k: nat)
    requires k < |document| && !ValidEntry(document[k])
    requires FirstStop(audits, document[..k], stamp, calls, Applied(k))
    ensures FirstStop(audits, document, stamp, calls, Stopped(k, InvalidEntry))
  {
    assert forall j: nat :: j < k ==> document[..k][j] == document[j];
  }

  lemma FirstKeyTaken(before: map<string, Audit>, document: seq<Entry>, stamp: Stamp, after: map<string, Audit>)
    requires KeysApart(stamp) && document != [] && AuditsEffect(before, document, stamp, after)
    ensures stamp.key(document[0], 0) in after
  {
    AuditsOfExactly(document, stamp);
  }

  lemma WroteAll(db: Registry, document: seq<Entry>, stamp: Stamp, after: Registry)
    requires Wrote(db, document, stamp, |document|, |document|, after)
    ensures IssuersEffect(db.issuers, document, stamp.now, after.issuers)
    ensures AuditsEffect(db.audits, document, stamp, after.audits)
  {
    assert document[..|document|] == document;
  }

  // A document cannot be applied twice at one instant under one source: the second
  // application upserts its first entry and stops at that entry's audit record.
  lemma SecondApplicationStops(db: Registry, source: string, document: seq<Entry>, now: int, calls: nat -> Calls, again: nat -> Calls)
    requires document != [] && Apply(db, document, StampOf(source, now), calls).1 == Applied(|document|)
    requires !Errs(again(0).load) && !Errs(again(0).upsert)
    ensures
      var after := Apply(db, document, StampOf(source, now), calls).0;
      var (last, o) := Apply(after, document, StampOf(source, now), again);
      && o == Stopped(0, AuditFailed)
      && Wrote(after, document, StampOf(source, now), 1, 0, last)
  {
    var stamp := StampOf(source, now);
    var after := Apply(db, document, stamp, calls).0;
    ApplicationExactly(db, source, document, now, calls, Applied(|document|));
    WroteAll(db, document, stamp, after);
    StampKeysApart(source, now);
    FirstKeyTaken(db.audits, document, stamp, after.audits);
    SecondStop(after, document, stamp, again);
  }

  lemma SecondStop(after: Registry, document: seq<Entry>, stamp: Stamp, again: nat -> Calls)
    requires document != [] && KeysApart(stamp) && stamp.key(document[0], 0) in after.audits
    requires ValidEntry(document[0]) && !Errs(again(0).load) && !Errs(again(0).upsert)
    ensures
      var (last, o) := Apply(after, document, stamp, again);
      o == Stopped(0, AuditFailed) && Wrote(after, document, stamp, 1, 0, last)
  {
    ApplyExplained(after, document, stamp, again);
    assert FailureOf(after.audits, document[0], 0, stamp, again(0)) == Some(AuditFailed);
  }

  // One application of a document.
  datatype Application = Application(source: string, document: seq<Entry>, now: int, calls: nat -> Calls)

  function ApplyOne(db: Registry, a: Application): (Registry, Outcome) {
    Apply(db, a.document, StampOf(a.source, a.now), a.calls)
  }

  // Any number of applications, one after the other.
  function ApplyAll(db: Registry, applications: seq<Application>): Registry {
    if applications == [] then db
    else ApplyOne(ApplyAll(db, applications[..|applications| - 1]), applications[|applications| - 1]).0
  }

  // The entries of an application that reached the issuer table.
  ghost function Effective(db: Registry, a: Application): seq<Entry> {
    ApplicationExactly(db, a.source, a.document, a.now, a.calls, Applied(0));
    a.document[..Upserted(ApplyOne(db, a).1, a.calls)]
  }

  // What the i-th application wrote about an issuer, if anything.
  ghost function Naming(db: Registry, applications: seq<Application>, i: nat, id: string): Option<Entry>
    requires i < |applications|
  {
    LastNaming(Effective(ApplyAll(db, applications[..i]), applications[i]), id)
  }

  lemma NamingOfPrefix(db: Registry, applications: seq<Application>, n: nat, i: nat, id: string)
    requires i < n <= |applications|
    ensures Naming(db, applications[..n], i, id) == Naming(db, applications, i, id)
  {
    assert applications[..n][..i] == applications[..i];
  }

  lemma OneIssuer(db: Registry, applications: seq<Application>, id: string)
    requires applications != []
    ensures
      var n := |applications| - 1;
      var before, after := ApplyAll(db, applications[..n]).issuers, ApplyAll(db, applications).issuers;
      match Naming(db, applications, n, id)
      case None => (id in after <==> id in before) && (id in before ==> after[id] == before[id])
      case Some(e) =>
        && id in after && Says(after[id], e, applications[n].now)
        && after[id].createdAt == CreatedAt(before, id, applications[n].now)
  {
    var n := |applications| - 1;
    var a, mid := applications[n], ApplyAll(db, applications[..n]);
    ApplicationExactly(mid, a.source, a.document, a.now, a.calls, Applied(0));
    assert IssuerEffect(mid.issuers, Effective(mid, a), a.now, ApplyAll(db, applications).issuers, id);
  }

  lemma {:induction false} UnnamedKept(db: Registry, applications: seq<Application>, id: string)
    requires forall j: nat :: j < |applications| ==> Naming(db, applications, j, id) == None
    ensures id in ApplyAll(db, applications).issuers <==> id in db.issuers
    ensures id in db.issuers ==> ApplyAll(db, applications).issuers[id] == db.issuers[id]
    decreases |applications|
  {
    if applications != [] {
      var n := |applications| - 1;
      OneIssuer(db, applications, id);
      forall j: nat | j < n ensures Naming(db, applications[..n], j, id) == None {
        NamingOfPrefix(db, applications, n, j, id);
      }
      UnnamedKept(db, applications[..n], id);
    }
  }

  // The creation time of an issuer is the time of the first application that
  // wrote it, or what it was before them all.
  lemma {:induction false} CreatedWhenFirstNamed(db: Registry, applications: seq<Application>, id: string, first: nat)
    requires first < |applications| && Naming(db, applications, first, id).Some?
    requires forall j: nat :: j < first ==> Naming(db, applications, j, id) == None
    ensures id in ApplyAll(db, applications).issuers
    ensures ApplyAll(db, applications).issuers[id].createdAt
            == if id in db.issuers then db.issuers[id].createdAt else applications[first].now
    decreases |applications|
  {
    var n := |applications| - 1;
    OneIssuer(db, applications, id);
    forall j: nat | j < n ensures Naming(db, applications[..n], j, id) == Naming(db, applications, j, id) {
      NamingOfPrefix(db, applications, n, j, id);
    }
    if first == n {
      UnnamedKept(db, applications[..n], id);
    } else {
      CreatedWhenFirstNamed(db, applications[..n], id, first);
    }
  }

  // Everything else about it is what the last application that wrote it says: the
  // last of its entries for the issuer, and its time.
  lemma {:induction false} UpdatedWhenLastNamed(db: Registry, applications: seq<Application>, id: string, last: nat)
    requires last < |applications| && Naming(db, applications, last, id).Some?
    requires forall j: nat :: last < j < |applications| ==> Naming(db, applications, j, id) == None
    ensures id in ApplyAll(db, applications).issuers
    ensures
      var issuer := ApplyAll(db, applications).issuers[id];
      var e := Naming(db, applications, last, id).value;
      && Trim(e.issuerId) == id
      && issuer.displayName == Trim(e.displayName) && issuer.trustState == Trim(e.trustState)
      && issuer.allowedTemplates == e.allowedTemplates && issuer.keyReferences == e.keyReferences
      && issuer.updatedAt == applications[last].now
    decreases |applications|
  {
    var n := |applications| - 1;
    OneIssuer(db, applications, id);
    if last < n {
      forall j: nat | j < n ensures Naming(db, applications[..n], j, id) == Naming(db, applications, j, id) {
        NamingOfPrefix(db, applications, n, j, id);
      }
      UpdatedWhenLastNamed(db, applications[..n], id, last);
    }
  }
}
