// Issued artifacts and the digest index: which record a submitted artifact finds.
module Minting {
  import opened Text
  import opened Identifiers
  import opened Artifact
  import opened Requests
  import opened Tables
  import opened Handlers
  import opened System
  import opened Progress
  import opened Numbering
  import opened CredentialTable
  import Store

  // The row an issuance wrote is the one its request calls for.
  predicate MintedOk(lib: Library, p: Proc) {
    p.minted.Some? ==>
      p.request.Issue? && p.minted.value == StoredCredential(NewCredential(lib, p.request, p.id))
  }

  // What the checks before the first statement leave to an issuance.
  predicate Checked(p: Proc) {
    p.request.Issue? && (!p.pc.Done? || p.minted.Some?) ==>
      && p.request.claims.expiresAt != 0
      && Trim(p.request.templateId) != ""
      && IssuerOf(p.request) != ""
  }

  predicate MintFacts(lib: Library, p: Proc) {
    MintedOk(lib, p) && Checked(p)
  }

  ghost predicate AllMinted(lib: Library, s: State) {
    forall pid :: pid in s.procs ==> MintFacts(lib, s.procs[pid])
  }

  lemma BeginMintFacts(lib: Library, request: Request)
    ensures MintFacts(lib, Begin(lib, request))
  {
  }

  lemma StepMintFacts(lib: Library, t: Tables, p: Proc, env: Env)
    requires Shaped(p) && OnTrack(p) && MintFacts(lib, p)
    ensures MintFacts(lib, Step(lib, t, p, env).1)
  {
    if p.pc.CreateCredential? {
      var c := NewCredential(lib, p.request, p.id);
      assert Step(lib, t, p, env) == CreateStep(t, p, c, env);
    } else {
      FieldsFrame(lib, t, p, env);
    }
  }

  lemma NextMinted(lib: Library, s: State, l: Label)
    requires WellShaped(s) && AllOnTrack(s) && AllMinted(lib, s)
    ensures AllMinted(lib, Next(lib, s, l))
  {
    var s' := Next(lib, s, l);
    forall pid | pid in s'.procs ensures MintFacts(lib, s'.procs[pid]) {
      if pid !in s.procs {
        BeginMintFacts(lib, l.request);
      } else if l.Run? && l.pid == pid {
        StepMintFacts(lib, s.db, s.procs[pid], l.env);
      }
    }
  }

  // Everything this module relies on, kept by every step.
  ghost predicate Lawful(lib: Library, s: State) {
    Numbered(lib, s) && Credentialed(s) && AllMinted(lib, s)
  }

  lemma NextLawful(lib: Library, s: State, l: Label)
    requires Lawful(lib, s)
    ensures Lawful(lib, Next(lib, s, l)) && Evolves(s.db, Next(lib, s, l).db)
  {
    NextNumbered(lib, s, l);
    NextCredentialed(lib, s, l);
    NextMinted(lib, s, l);
  }

  lemma {:induction false} ExecLawful(lib: Library, s: State, ls: seq<Label>)
    requires Lawful(lib, s)
    ensures Lawful(lib, Exec(lib, s, ls)) && Evolves(s.db, Exec(lib, s, ls).db)
    decreases |ls|
  {
    if ls != [] {
      NextLawful(lib, s, ls[0]);
      ExecLawful(lib, Next(lib, s, ls[0]), ls[1..]);
    }
  }

  lemma RunsAreLawful(lib: Library, issuers: map<string, Issuer>, ls: seq<Label>)
    ensures Lawful(lib, Exec(lib, Start(issuers), ls))
  {
    ExecLawful(lib, Start(issuers), ls);
  }

  // What a row says about the request that minted it.
  ghost predicate RowOf(lib: Library, request: Request, row: Credential) {
    && request.Issue?
    && row.issuerId == IssuerOf(request) != ""
    && row.templateId == Trim(request.templateId) != ""
    && row.subjectReference == Trim(request.subjectReference)
    && row.claims == request.claims
    && row.issuedAt == request.claims.verifiedAt
    && row.expiresAt == request.claims.expiresAt != 0
    && row.artifact == Materialize(lib, row.credentialId, row.issuerId, request.templateId, row.expiresAt)
    && row.digest == Trim(Digest(lib, row.artifact))
  }

  lemma MintGivesRow(lib: Library, p: Proc, row: Credential)
    requires p.minted.Some? && MintFacts(lib, p)
    requires p.minted.value.credentialId == p.id && Issued(row) == Issued(p.minted.value)
    ensures RowOf(lib, p.request, row) && row.credentialId == p.id
  {
    var c := NewCredential(lib, p.request, p.id);
    var i, j := Issued(row), Issued(p.minted.value);
    assert i.issuerId == j.issuerId && i.templateId == j.templateId && i.expiresAt == j.expiresAt;
    assert i.subjectReference == j.subjectReference && i.claims == j.claims && i.issuedAt == j.issuedAt;
    assert i.artifact == j.artifact && i.digest == j.digest && i.credentialId == j.credentialId;
    TrimIdempotent(p.request.caller.organizationId);
  }

  lemma RowHasMinter(lib: Library, s: State, id: string) returns (pid: nat)
    requires Lawful(lib, s) && id in s.db.credentials
    ensures MintedBy(s, id, pid)
    ensures RowOf(lib, s.procs[pid].request, s.db.credentials[id])
    ensures s.db.credentials[id].credentialId == id && Trim(id) == id
  {
    pid :| MintedBy(s, id, pid);
    MintGivesRow(lib, s.procs[pid], s.db.credentials[id]);
    IdentifiersAreTight(s.procs[pid].request.templateId, s.procs[pid].number);
  }

  // The stored digest is the digest of the stored artifact. It is also the digest
  // of the artifact rebuilt from the row's own columns exactly when the template
  // was requested without white space around it: the artifact keeps the raw
  // template, the column the trimmed one.
  lemma DigestRebuilds(lib: Library, request: Request, row: Credential)
    requires CollisionFree(lib) && RowOf(lib, request, row)
    ensures row.digest == Digest(lib, row.artifact)
    ensures row.digest == Digest(lib, Materialize(lib, row.credentialId, row.issuerId, row.templateId, row.expiresAt))
            <==> Trim(request.templateId) == request.templateId
  {
    var e := IssuedEnvelope(lib, row.credentialId, row.issuerId, request.templateId, row.expiresAt);
    var f := IssuedEnvelope(lib, row.credentialId, row.issuerId, row.templateId, row.expiresAt);
    if ArtifactValue(e) == ArtifactValue(f) {
      ArtifactValueInjective(e, f);
    }
  }

  lemma SameDigestSameRow(lib: Library, r1: Request, row1: Credential, r2: Request, row2: Credential)
    requires CollisionFree(lib) && RowOf(lib, r1, row1) && RowOf(lib, r2, row2)
    requires row1.digest == row2.digest
    ensures row1.credentialId == row2.credentialId
  {
    var e := IssuedEnvelope(lib, row1.credentialId, row1.issuerId, r1.templateId, row1.expiresAt);
    var f := IssuedEnvelope(lib, row2.credentialId, row2.issuerId, r2.templateId, row2.expiresAt);
    assert row1.artifact == row2.artifact;
    ArtifactValueInjective(e, f);
  }

  // In every reachable state the digest index finds, for an issued artifact and
  // for nothing else, the one row with that artifact, although the index is not
  // declared unique.
  lemma DigestLookup(lib: Library, s: State, value: string)
    requires CollisionFree(lib) && Lawful(lib, s)
    ensures
      match SelectByDigest(s.db, Digest(lib, value), Fine)
      case Found(row) =>
        && row.credentialId in s.db.credentials
        && s.db.credentials[row.credentialId] == row
        && row.artifact == value
        && forall id :: id in s.db.credentials && s.db.credentials[id].artifact == value ==> id == row.credentialId
      case Absent => forall id :: id in s.db.credentials ==> s.db.credentials[id].artifact != value
      case Unreadable => false
  {
    var found := SelectByDigest(s.db, Digest(lib, value), Fine);
    forall id | id in s.db.credentials
      ensures s.db.credentials[id].digest == Digest(lib, s.db.credentials[id].artifact)
      ensures found.Found? && s.db.credentials[id].artifact == value ==> id == found.value.credentialId
    {
      var pid := RowHasMinter(lib, s, id);
      DigestRebuilds(lib, s.procs[pid].request, s.db.credentials[id]);
      if found.Found? && s.db.credentials[id].artifact == value {
        var other :| other in s.db.credentials && s.db.credentials[other].digest == Trim(Digest(lib, value))
                     && found.value == s.db.credentials[other];
        var qid := RowHasMinter(lib, s, other);
        SameDigestSameRow(lib, s.procs[pid].request, s.db.credentials[id], s.procs[qid].request, s.db.credentials[other]);
      }
    }
  }

  lemma IndexAgrees(lib: Library, s: State, id: string)
    requires CollisionFree(lib) && Lawful(lib, s) && id in s.db.credentials
    ensures SelectByDigest(s.db, s.db.credentials[id].digest, Fine) == Found(s.db.credentials[id])
    ensures SelectCredential(s.db, id, Fine) == Found(s.db.credentials[id])
  {
    ColumnsAreTight(lib, s, id);
    LawfulDigests(lib, s);
    FoundIfUnique(s.db, id);
  }

  lemma ColumnsAreTight(lib: Library, s: State, id: string)
    requires Lawful(lib, s) && id in s.db.credentials
    ensures Trim(id) == id && Trim(s.db.credentials[id].digest) == s.db.credentials[id].digest
  {
    var pid := RowHasMinter(lib, s, id);
    TrimIdempotent(Digest(lib, s.db.credentials[id].artifact));
  }

  lemma FoundIfUnique(t: Tables, id: string)
    requires Store.UniqueDigests(t) && id in t.credentials && Trim(t.credentials[id].digest) == t.credentials[id].digest
    ensures SelectByDigest(t, t.credentials[id].digest, Fine) == Found(t.credentials[id])
  {
  }

  // Lookup by digest and lookup by identifier agree on every row of every run.
  lemma IndexAgreesWithKey(lib: Library, issuers: map<string, Issuer>, ls: seq<Label>, id: string)
    requires CollisionFree(lib) && id in Exec(lib, Start(issuers), ls).db.credentials
    ensures
      var db := Exec(lib, Start(issuers), ls).db;
      SelectByDigest(db, db.credentials[id].digest, Fine) == SelectCredential(db, id, Fine) == Found(db.credentials[id])
  {
    RunsAreLawful(lib, issuers, ls);
    IndexAgrees(lib, Exec(lib, Start(issuers), ls), id);
  }

  lemma DigestsAreUnique(lib: Library, issuers: map<string, Issuer>, ls: seq<Label>)
    requires CollisionFree(lib)
    ensures Store.UniqueDigests(Exec(lib, Start(issuers), ls).db)
  {
    RunsAreLawful(lib, issuers, ls);
    LawfulDigests(lib, Exec(lib, Start(issuers), ls));
  }

  lemma LawfulDigests(lib: Library, s: State)
    requires CollisionFree(lib) && Lawful(lib, s)
    ensures Store.UniqueDigests(s.db)
  {
    forall i, j | i in s.db.credentials && j in s.db.credentials && s.db.credentials[i].digest == s.db.credentials[j].digest
      ensures i == j
    {
      var a := RowHasMinter(lib, s, i);
      var b := RowHasMinter(lib, s, j);
      SameDigestSameRow(lib, s.procs[a].request, s.db.credentials[i], s.procs[b].request, s.db.credentials[j]);
    }
  }
}
