// UTF-8 (RFC 3629) and base64url without padding (RFC 4648, sections 3.2 and 5).
module Bytes {
  import opened Text

  type Byte = x: int | 0 <= x < 256

  function EncodeChar(c: char): (b: seq<Byte>)
    ensures 1 <= |b| <= 4
  {
    var x := c as int;
    if x < 0x80 then [x]
    else if x < 0x800 then [0xC0 + x / 64, 0x80 + x % 64]
    else if x < 0x10000 then [0xE0 + x / 4096, 0x80 + x / 64 % 64, 0x80 + x % 64]
    else [0xF0 + x / 262144, 0x80 + x / 4096 % 64, 0x80 + x / 64 % 64, 0x80 + x % 64]
  }

  function EncodeText(s: string): seq<Byte> {
    if s == "" then [] else EncodeChar(s[0]) + EncodeText(s[1..])
  }

  predicate Continues(b: Byte) { 0x80 <= b < 0xC0 }

  predicate Scalar(x: int) {
    0 <= x < 0xD800 || 0xE000 <= x < 0x11_0000
  }

  // The character of a sequence of width bytes, unless it is not a scalar value
  // or has a shorter encoding.
  function Decoded(x: int, least: int, width: nat): Option<(char, nat)> {
    if Scalar(x) && least <= x then Some((x as char, width)) else None
  }

  function Low6(b: Byte): (x: int)
  {
    b - 0x80
  }

  function DecodeChar(b: seq<Byte>): (r: Option<(char, nat)>)
    ensures r.Some? ==> 1 <= r.value.1 <= |b|
  {
    if b == [] then None
    else
      var lead: int := b[0];
      if lead < 0x80 then Decoded(lead, 0, 1)
      else if 0xC0 <= lead < 0xE0 && |b| >= 2 && Continues(b[1]) then
        Decoded((lead - 0xC0) * 64 + Low6(b[1]), 0x80, 2)
      else if 0xE0 <= lead < 0xF0 && |b| >= 3 && Continues(b[1]) && Continues(b[2]) then
        Decoded((lead - 0xE0) * 4096 + Low6(b[1]) * 64 + Low6(b[2]), 0x800, 3)
      else if 0xF0 <= lead < 0xF8 && |b| >= 4 && Continues(b[1]) && Continues(b[2]) && Continues(b[3]) then
        Decoded((lead - 0xF0) * 262144 + Low6(b[1]) * 4096 + Low6(b[2]) * 64 + Low6(b[3]), 0x10000, 4)
      else None
  }

  function DecodeText(b: seq<Byte>): Option<string>
    decreases |b|
  {
    if b == [] then Some("")
    else
      match DecodeChar(b)
      case None => None
      case Some((c, width)) =>
        match DecodeText(b[width..])
        case None => None
        case Some(tail) => Some([c] + tail)
  }

  // A character's value from its base-64 digits.
  lemma Digits2(x: int)
    requires 0 <= x
    ensures x / 64 * 64 + x % 64 == x
  {
  }

  lemma Digits3(x: int)
    requires 0 <= x
    ensures x / 4096 * 4096 + x / 64 % 64 * 64 + x % 64 == x
  {
    assert x / 4096 == x / 64 / 64;
  }

  lemma Digits4(x: int)
    requires 0 <= x
    ensures x / 262144 * 262144 + x / 4096 % 64 * 4096 + x / 64 % 64 * 64 + x % 64 == x
  {
    assert x / 262144 == x / 4096 / 64;
    Digits3(x);
  }

  lemma DecodeEncodedChar(c: char, rest: seq<Byte>)
    ensures DecodeChar(EncodeChar(c) + rest) == Some((c, |EncodeChar(c)|))
  {
    var x := c as int;
    var e := EncodeChar(c);
    var b := e + rest;
    assert forall i :: 0 <= i < |e| ==> b[i] == e[i];
    Digits2(x);
    Digits3(x);
    Digits4(x);
  }

  lemma {:induction false} DecodeEncodedText(s: string)
    ensures DecodeText(EncodeText(s)) == Some(s)
  {
    if s != "" {
      var b, rest := EncodeText(s), EncodeText(s[1..]);
      DecodeEncodedChar(s[0], rest);
      assert b[|EncodeChar(s[0])|..] == rest;
      DecodeEncodedText(s[1..]);
      assert [s[0]] + s[1..] == s;
    }
  }

  // The URL-safe alphabet.
  function SextetChar(x: nat): (c: char)
    requires x < 64
  {
    if x < 26 then (65 + x) as char
    else if x < 52 then (71 + x) as char
    else if x < 62 then (x - 4) as char
    else if x == 62 then '-' else '_'
  }

  function Sextet(c: char): (x: Option<nat>)
    ensures x.Some? ==> x.value < 64
  {
    if 'A' <= c <= 'Z' then Some((c as int) - 65)
    else if 'a' <= c <= 'z' then Some((c as int) - 71)
    else if '0' <= c <= '9' then Some((c as int) + 4)
    else if c == '-' then Some(62)
    else if c == '_' then Some(63)
    else None
  }

  lemma SextetInverse(x: nat)
    requires x < 64
    ensures Sextet(SextetChar(x)) == Some(x)
    ensures SextetChar(x) != '\r' && SextetChar(x) != '\n'
    ensures !IsSpace(SextetChar(x))
  {
  }

  function EncodeBase64(b: seq<Byte>): (s: string)
    ensures b != [] ==> s != ""
  {
    if |b| == 0 then ""
    else if |b| == 1 then [SextetChar(b[0] / 4), SextetChar(b[0] % 4 * 16)]
    else if |b| == 2 then
      [SextetChar(b[0] / 4), SextetChar(b[0] % 4 * 16 + b[1] / 16), SextetChar(b[1] % 16 * 4)]
    else
      [SextetChar(b[0] / 4), SextetChar(b[0] % 4 * 16 + b[1] / 16),
       SextetChar(b[1] % 16 * 4 + b[2] / 64), SextetChar(b[2] % 64)] + EncodeBase64(b[3..])
  }

  function Sextets(s: string): (r: Option<seq<nat>>)
    ensures r.Some? ==> forall i :: 0 <= i < |r.value| ==> r.value[i] < 64
  {
    if s == "" then Some([])
    else if s[0] == '\r' || s[0] == '\n' then Sextets(s[1..])
    else
      match (Sextet(s[0]), Sextets(s[1..]))
      case (Some(x), Some(tail)) => Some([x] + tail)
      case _ => None
  }

  // The unused low bits of a final partial group are ignored.
  function Regroup(x: seq<nat>): (r: Option<seq<Byte>>)
    requires forall i :: 0 <= i < |x| ==> x[i] < 64
  {
    if |x| == 0 then Some([])
    else if |x| == 1 then None
    else if |x| == 2 then Some([x[0] * 4 + x[1] / 16])
    else if |x| == 3 then Some([x[0] * 4 + x[1] / 16, x[1] % 16 * 16 + x[2] / 4])
    else
      match Regroup(x[4..])
      case None => None
      case Some(tail) =>
        Some([x[0] * 4 + x[1] / 16, x[1] % 16 * 16 + x[2] / 4, x[2] % 4 * 64 + x[3]] + tail)
  }

  // The standard library's decoder: line breaks are skipped anywhere, a lone
  // trailing character is an error.
  function DecodeBase64(s: string): Option<seq<Byte>> {
    match Sextets(s)
    case None => None
    case Some(x) => Regroup(x)
  }

  // The sextets an encoding is made of.
  function Split(b: seq<Byte>): (x: seq<nat>)
    ensures forall i :: 0 <= i < |x| ==> x[i] < 64
    ensures |x| == |EncodeBase64(b)|
    ensures forall i :: 0 <= i < |x| ==> EncodeBase64(b)[i] == SextetChar(x[i])
  {
    if |b| == 0 then []
    else if |b| == 1 then [b[0] / 4, b[0] % 4 * 16]
    else if |b| == 2 then [b[0] / 4, b[0] % 4 * 16 + b[1] / 16, b[1] % 16 * 4]
    else [b[0] / 4, b[0] % 4 * 16 + b[1] / 16, b[1] % 16 * 4 + b[2] / 64, b[2] % 64] + Split(b[3..])
  }

  // Three bytes from the four sextets they were cut into.
  lemma GroupOfThree(p: Byte, q: Byte, r: Byte)
    ensures p / 4 * 4 + (p % 4 * 16 + q / 16) / 16 == p
    ensures (p % 4 * 16 + q / 16) % 16 * 16 + (q % 16 * 4 + r / 64) / 4 == q
    ensures (q % 16 * 4 + r / 64) % 4 * 64 + r % 64 == r
  {
    assert (p % 4 * 16 + q / 16) / 16 == p % 4;
    assert (p % 4 * 16 + q / 16) % 16 == q / 16;
    assert (q % 16 * 4 + r / 64) / 4 == q % 16;
    assert (q % 16 * 4 + r / 64) % 4 == r / 64;
  }

  lemma {:induction false} RegroupSplit(b: seq<Byte>)
    ensures Regroup(Split(b)) == Some(b)
  {
    if |b| == 1 {
      GroupOfThree(b[0], 0, 0);
      assert b == [b[0]];
    } else if |b| == 2 {
      GroupOfThree(b[0], b[1], 0);
      assert b == [b[0], b[1]];
    } else if |b| >= 3 {
      var x, head := Split(b), [b[0], b[1], b[2]];
      GroupOfThree(b[0], b[1], b[2]);
      assert x[4..] == Split(b[3..]);
      RegroupSplit(b[3..]);
      assert Regroup(x) == Some(head + b[3..]);
      assert head + b[3..] == b;
    }
  }

  lemma {:induction false} SextetsOf(s: string, x: seq<nat>)
    requires |x| == |s|
    requires forall i :: 0 <= i < |x| ==> x[i] < 64
    requires forall i :: 0 <= i < |x| ==> s[i] == SextetChar(x[i])
    ensures Sextets(s) == Some(x)
  {
    if s != "" {
      SextetInverse(x[0]);
      SextetsOf(s[1..], x[1..]);
      assert x == [x[0]] + x[1..];
    }
  }

  lemma DecodeEncodedBase64(b: seq<Byte>)
    ensures DecodeBase64(EncodeBase64(b)) == Some(b)
  {
    SextetsOf(EncodeBase64(b), Split(b));
    RegroupSplit(b);
  }

  lemma Base64HasNoSpace(b: seq<Byte>, i: nat)
    requires i < |EncodeBase64(b)|
    ensures !IsSpace(EncodeBase64(b)[i])
  {
    SextetInverse(Split(b)[i]);
  }
}
