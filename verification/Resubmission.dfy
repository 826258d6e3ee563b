// The same artifact with white space around it: to the idempotency table the same
// submission, to the decision another one.
module Resubmission {
  import opened Text
  import opened Artifact
  import opened Requests
  import opened Tables
  import opened Handlers
  import opened System
  import opened Minting
  import Decisions

  lemma RowArtifactIsTight(lib: Library, request: Request, row: Credential)
    requires RowOf(lib, request, row)
    ensures Trim(row.artifact) == row.artifact
  {
    ArtifactValueIsTight(IssuedEnvelope(lib, row.credentialId, row.issuerId, request.templateId, row.expiresAt));
  }

  lemma ArtifactsAreTight(lib: Library, s: State, id: string)
    requires Lawful(lib, s) && id in s.db.credentials
    ensures Trim(s.db.credentials[id].artifact) == s.db.credentials[id].artifact
  {
    var pid := RowHasMinter(lib, s, id);
    RowArtifactIsTight(lib, s.procs[pid].request, s.db.credentials[id]);
  }

  // A submitted value that is an issued artifact up to surrounding white space is
  // found in the digest index exactly when there is none.
  lemma FoundExactlyUnpadded(lib: Library, s: State, id: string, value: string)
    requires CollisionFree(lib) && Lawful(lib, s)
    requires id in s.db.credentials && Trim(value) == s.db.credentials[id].artifact
    ensures
      if value == Trim(value) then SelectByDigest(s.db, Digest(lib, value), Fine) == Found(s.db.credentials[id])
      else SelectByDigest(s.db, Digest(lib, value), Fine) == Absent
  {
    if value == Trim(value) {
      var pid := RowHasMinter(lib, s, id);
      DigestRebuilds(lib, s.procs[pid].request, s.db.credentials[id]);
      IndexAgrees(lib, s, id);
    } else {
      DigestLookup(lib, s, value);
      forall other | other in s.db.credentials ensures s.db.credentials[other].artifact != value {
        ArtifactsAreTight(lib, s, other);
      }
    }
  }

  // White space around the artifact changes neither the fingerprint of the
  // submission nor the envelope read from it.
  lemma PaddedIsSameSubmission(lib: Library, r1: Request, r2: Request)
    requires CollisionFree(lib) && r1.Verify? && r2.Verify? && r2 == r1.(value := r2.value) && Trim(r2.value) == Trim(r1.value)
    ensures Fingerprint(lib, r2) == Fingerprint(lib, r1)
    ensures Parse(lib, r2.value) == Parse(lib, r1.value)
  {
    SameVerifyFingerprint(lib, r1, r2);
  }

  lemma MaterializedIsTight(lib: Library, credentialId: string, issuerId: string, templateId: string, expiresAt: int)
    ensures
      var value := Materialize(lib, credentialId, issuerId, templateId, expiresAt);
      Trim(value) == value
  {
    ArtifactValueIsTight(IssuedEnvelope(lib, credentialId, issuerId, templateId, expiresAt));
  }

  // But in every run a submission with white space around its artifact is denied,
  // whatever was issued, whoever trusts whom and whatever else runs.
  lemma PaddedIsDenied(lib: Library, issuers: map<string, Issuer>, ls: seq<Label>, pid: nat)
    requires CollisionFree(lib)
    requires
      var procs := Exec(lib, Start(issuers), ls).procs;
      pid in procs && procs[pid].request.Verify? && procs[pid].request.value != Trim(procs[pid].request.value)
    ensures
      var p := Exec(lib, Start(issuers), ls).procs[pid];
      p.verdict.Some? ==> p.verdict.value.decision.Deny?
  {
    var p := Exec(lib, Start(issuers), ls).procs[pid];
    if Decisions.Allowed(p) {
      var minter := Decisions.AllowSound(lib, issuers, ls, pid);
      var record, issue := p.read.value.record, Exec(lib, Start(issuers), ls).procs[minter].request;
      MaterializedIsTight(lib, record.credentialId, IssuerOf(issue), issue.templateId, issue.claims.expiresAt);
    }
  }
}
