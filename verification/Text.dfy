// White space as the services treat it: every key, identifier and header goes
// through the same trimming before it is stored or compared.
module Text {

  datatype Option<+T> = None | Some(value: T)

  // The Unicode white space characters.
  predicate IsSpace(c: char) {
    || '\t' <= c <= '\r'
    || c == ' '
    || c == '\U{85}'
    || c == '\U{A0}'
    || c == '\U{1680}'
    || '\U{2000}' <= c <= '\U{200A}'
    || c == '\U{2028}'
    || c == '\U{2029}'
    || c == '\U{202F}'
    || c == '\U{205F}'
    || c == '\U{3000}'
  }

  function TrimLeft(s: string): string {
    if s != "" && IsSpace(s[0]) then TrimLeft(s[1..]) else s
  }

  function TrimRight(s: string): string {
    if s != "" && IsSpace(s[|s| - 1]) then TrimRight(s[..|s| - 1]) else s
  }

  function Trim(s: string): string {
    TrimRight(TrimLeft(s))
  }

  // No white space at either end.
  predicate Tight(s: string) {
    s == "" || (!IsSpace(s[0]) && !IsSpace(s[|s| - 1]))
  }

  lemma {:induction false} TrimLeftSplits(s: string) returns (lead: string)
    ensures s == lead + TrimLeft(s)
    ensures forall i :: 0 <= i < |lead| ==> IsSpace(lead[i])
    ensures TrimLeft(s) != "" ==> !IsSpace(TrimLeft(s)[0])
  {
    if s != "" && IsSpace(s[0]) {
      var rest := TrimLeftSplits(s[1..]);
      lead := [s[0]] + rest;
    } else {
      lead := "";
    }
  }

  lemma {:induction false} TrimRightSplits(s: string) returns (tail: string)
    ensures s == TrimRight(s) + tail
    ensures forall i :: 0 <= i < |tail| ==> IsSpace(tail[i])
    ensures TrimRight(s) != "" ==> !IsSpace(TrimRight(s)[|TrimRight(s)| - 1])
  {
    if s != "" && IsSpace(s[|s| - 1]) {
      var rest := TrimRightSplits(s[..|s| - 1]);
      tail := rest + [s[|s| - 1]];
    } else {
      tail := "";
    }
  }

  // Trimming removes exactly a white space prefix and a white space suffix.
  lemma TrimSplits(s: string) returns (lead: string, tail: string)
    ensures s == lead + Trim(s) + tail
    ensures forall i :: 0 <= i < |lead| ==> IsSpace(lead[i])
    ensures forall i :: 0 <= i < |tail| ==> IsSpace(tail[i])
    ensures Tight(Trim(s))
  {
    lead := TrimLeftSplits(s);
    tail := TrimRightSplits(TrimLeft(s));
  }

  lemma TightIsFixed(s: string)
    ensures Tight(s) <==> Trim(s) == s
  {
    if Tight(s) {
      assert TrimLeft(s) == s;
      assert TrimRight(s) == s;
    } else {
      var lead, tail := TrimSplits(s);
    }
  }

  lemma TrimIdempotent(s: string)
    ensures Trim(Trim(s)) == Trim(s)
  {
    var lead, tail := TrimSplits(s);
    TightIsFixed(Trim(s));
  }
}
