// The issuer console's list of recently handled credentials: most recent first,
// one entry a credential, at most eight.
module RecentCredentials {

  datatype RecentCredential = RecentCredential(credentialId: string, status: string, expiresAt: string)

  const LIMIT: nat := 8

  function Without(list: seq<RecentCredential>, id: string): seq<RecentCredential> {
    if list == [] then []
    else if list[0].credentialId == id then Without(list[1..], id)
    else [list[0]] + Without(list[1..], id)
  }

  function Take(list: seq<RecentCredential>, k: nat): seq<RecentCredential> {
    if |list| <= k then list else list[..k]
  }

  function Merge(existing: seq<RecentCredential>, next: RecentCredential): seq<RecentCredential> {
    Take([next] + Without(existing, next.credentialId), LIMIT)
  }

  // The list after handling these credentials in this order, starting empty.
  function Merged(handled: seq<RecentCredential>): seq<RecentCredential> {
    if handled == [] then [] else Merge(Merged(handled[..|handled| - 1]), handled[|handled| - 1])
  }

  // The same without a limit: the last entry of each credential, latest first.
  function Latest(handled: seq<RecentCredential>): seq<RecentCredential> {
    if handled == [] then []
    else
      var last := handled[|handled| - 1];
      [last] + Without(Latest(handled[..|handled| - 1]), last.credentialId)
  }

  predicate Named(list: seq<RecentCredential>, id: string) {
    list != [] && (list[0].credentialId == id || Named(list[1..], id))
  }

  predicate Distinct(list: seq<RecentCredential>) {
    list == [] || (!Named(list[1..], list[0].credentialId) && Distinct(list[1..]))
  }

  lemma {:induction false} WithoutNames(list: seq<RecentCredential>, id: string, other: string)
    ensures Named(Without(list, id), other) <==> Named(list, other) && other != id
    ensures !Named(list, id) ==> Without(list, id) == list
  {
    if list != [] {
      var rest := Without(list[1..], id);
      WithoutNames(list[1..], id, other);
      assert ([list[0]] + rest)[1..] == rest;
    }
  }

  lemma {:induction false} WithoutDistinct(list: seq<RecentCredential>, id: string)
    requires Distinct(list)
    ensures Distinct(Without(list, id))
  {
    if list != [] {
      var rest := Without(list[1..], id);
      WithoutDistinct(list[1..], id);
      WithoutNames(list[1..], id, list[0].credentialId);
      assert ([list[0]] + rest)[1..] == rest;
    }
  }

  // No credential is listed twice.
  lemma {:induction false} LatestDistinct(handled: seq<RecentCredential>)
    ensures Distinct(Latest(handled))
  {
    if handled != [] {
      var front, last := handled[..|handled| - 1], handled[|handled| - 1];
      var older := Without(Latest(front), last.credentialId);
      LatestDistinct(front);
      WithoutDistinct(Latest(front), last.credentialId);
      WithoutNames(Latest(front), last.credentialId, last.credentialId);
      assert ([last] + older)[1..] == older;
    }
  }

  // Cutting a list before removing one of its entries loses nothing of the cut.
  lemma {:induction false} CutThenRemove(list: seq<RecentCredential>, id: string, k: nat)
    requires Distinct(list) && k > 0
    ensures Take(Without(Take(list, k), id), k - 1) == Take(Without(list, id), k - 1)
  {
    if |list| > k {
      var cut, rest := list[..k], list[1..];
      assert cut[1..] == rest[..k - 1];
      if list[0].credentialId == id {
        WithoutNames(rest, id, id);
        CutNames(rest, k - 1, id);
        WithoutNames(rest[..k - 1], id, id);
      } else if k > 1 {
        CutThenRemove(rest, id, k - 1);
        assert Without(list, id) == [list[0]] + Without(rest, id);
        assert Without(cut, id) == [list[0]] + Without(rest[..k - 1], id);
        TakeAfter(list[0], Without(rest, id), k - 1);
        TakeAfter(list[0], Without(rest[..k - 1], id), k - 1);
      }
    }
  }

  lemma {:induction false} CutNames(list: seq<RecentCredential>, k: nat, id: string)
    requires k <= |list| && !Named(list, id)
    ensures !Named(list[..k], id)
  {
    if k > 0 {
      CutNames(list[1..], k - 1, id);
      assert list[..k][1..] == list[1..][..k - 1];
    }
  }

  lemma TakeAfter(r: RecentCredential, list: seq<RecentCredential>, k: nat)
    requires k > 0
    ensures Take([r] + list, k) == [r] + Take(list, k - 1)
  {
  }

  // Keeping only eight at every step shows exactly the eight latest of all.
  lemma {:induction false} MergedIsLatest(handled: seq<RecentCredential>)
    ensures Merged(handled) == Take(Latest(handled), LIMIT)
  {
    if handled != [] {
      var front, last := handled[..|handled| - 1], handled[|handled| - 1];
      MergedIsLatest(front);
      LatestDistinct(front);
      CutThenRemove(Latest(front), last.credentialId, LIMIT);
      TakeAfter(last, Without(Merged(front), last.credentialId), LIMIT);
      TakeAfter(last, Without(Latest(front), last.credentialId), LIMIT);
    }
  }

  // The last entry handled for a credential.
  function LastHandled(handled: seq<RecentCredential>, id: string): seq<RecentCredential> {
    if handled == [] then []
    else
      var last := handled[|handled| - 1];
      if last.credentialId == id then [last] else LastHandled(handled[..|handled| - 1], id)
  }

  lemma {:induction false} WithoutMembers(list: seq<RecentCredential>, id: string, r: RecentCredential)
    ensures r in Without(list, id) <==> r in list && r.credentialId != id
  {
    if list != [] {
      WithoutMembers(list[1..], id, r);
      assert list == [list[0]] + list[1..];
    }
  }

  // The unbounded list holds the last entry of each handled credential, and
  // nothing else.
  lemma {:induction false} LatestExactly(handled: seq<RecentCredential>, r: RecentCredential)
    ensures r in Latest(handled) <==> LastHandled(handled, r.credentialId) == [r]
  {
    if handled != [] {
      var front, last := handled[..|handled| - 1], handled[|handled| - 1];
      LatestExactly(front, r);
      WithoutMembers(Latest(front), last.credentialId, r);
    }
  }
}
