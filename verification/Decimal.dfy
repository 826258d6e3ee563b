// Decimal printing and reading, as the identifiers use them.
module Decimal {
  import opened Text

  const MAX_INT64: int := 0x7fff_ffff_ffff_ffff
  const MIN_INT64: int := -0x8000_0000_0000_0000

  predicate IsDigit(c: char) { '0' <= c <= '9' }

  predicate AllDigits(s: string) {
    forall i :: 0 <= i < |s| ==> IsDigit(s[i])
  }

  function DigitChar(d: nat): (c: char)
    requires d < 10
  {
    '0' + d as char
  }

  function DigitValue(c: char): (d: nat)
    requires IsDigit(c)
  {
    (c as int) - ('0' as int)
  }

  function Print(n: nat): (s: string)
    ensures s != "" && AllDigits(s)
  {
    if n < 10 then [DigitChar(n)] else Print(n / 10) + [DigitChar(n % 10)]
  }

  function Value(s: string): nat
    requires AllDigits(s)
  {
    if s == "" then 0 else 10 * Value(s[..|s| - 1]) + DigitValue(s[|s| - 1])
  }

  lemma {:induction false} ValueOfPrint(n: nat)
    ensures Value(Print(n)) == n
  {
    if n >= 10 {
      ValueOfPrint(n / 10);
      var s := Print(n);
      assert s[..|s| - 1] == Print(n / 10);
    } else {
      assert Print(n)[..0] == "";
    }
  }

  lemma PrintInjective(m: nat, n: nat)
    requires Print(m) == Print(n)
    ensures m == n
  {
    ValueOfPrint(m);
    ValueOfPrint(n);
  }

  // "%03d" of a non-negative number.
  function Pad3(n: nat): (s: string)
    ensures s != "" && AllDigits(s)
  {
    if n < 10 then "00" + Print(n)
    else if n < 100 then "0" + Print(n)
    else Print(n)
  }

  lemma ValueOfLeadingZero(s: string)
    requires AllDigits(s)
    ensures AllDigits("0" + s) && Value("0" + s) == Value(s)
  {
    var t := "0" + s;
    if s != "" {
      assert t[..|t| - 1] == "0" + s[..|s| - 1];
      ValueOfLeadingZero(s[..|s| - 1]);
    } else {
      assert t[..0] == "";
    }
  }

  lemma ValueOfPad3(n: nat)
    ensures Value(Pad3(n)) == n
  {
    ValueOfPrint(n);
    ValueOfLeadingZero(Print(n));
    ValueOfLeadingZero("0" + Print(n));
    assert "0" + ("0" + Print(n)) == "00" + Print(n);
  }

  lemma {:induction false} PrintLeads(n: nat)
    ensures n > 0 ==> Print(n)[0] != '0'
    ensures n >= 10 ==> |Print(n)| >= 2
    ensures n >= 100 ==> |Print(n)| >= 3
  {
    if n >= 10 {
      PrintLeads(n / 10);
    }
  }

  // At least three characters, and zeros in front only to make three.
  lemma PadWidth(n: nat)
    ensures |Pad3(n)| >= 3
    ensures |Pad3(n)| > 3 ==> Pad3(n)[0] != '0'
  {
    PrintLeads(n);
    if 10 <= n < 100 {
      assert |Print(n / 10)| == 1;
    }
  }

  // strconv.Atoi on a 64-bit platform: an optional sign, at least one digit,
  // and nothing outside the int64 range.
  function Atoi(s: string): Option<int> {
    if s == "" then None
    else
      var digits := if s[0] == '-' || s[0] == '+' then s[1..] else s;
      if digits == "" || !AllDigits(digits) then None
      else
        var value := if s[0] == '-' then 0 - Value(digits) else Value(digits);
        if MIN_INT64 <= value <= MAX_INT64 then Some(value) else None
  }

  lemma AtoiOfPad3(n: nat)
    requires n <= MAX_INT64
    ensures Atoi(Pad3(n)) == Some(n)
  {
    ValueOfPad3(n);
    assert IsDigit(Pad3(n)[0]);
  }

  // The part after the last separator; all of s when there is none.
  function LastSegment(s: string, separator: char): string {
    if s == "" || s[|s| - 1] == separator then ""
    else LastSegment(s[..|s| - 1], separator) + [s[|s| - 1]]
  }

  lemma {:induction false} LastSegmentAfter(prefix: string, separator: char, tail: string)
    requires separator !in tail
    ensures LastSegment(prefix + [separator] + tail, separator) == tail
  {
    var s := prefix + [separator] + tail;
    if tail != "" {
      var shorter := tail[..|tail| - 1];
      assert s[..|s| - 1] == prefix + [separator] + shorter;
      LastSegmentAfter(prefix, separator, shorter);
    }
  }

  // int64 two's complement wrap-around.
  function WrapInt64(x: int): (w: int)
    ensures MIN_INT64 <= w <= MAX_INT64
    ensures w == x <==> MIN_INT64 <= x <= MAX_INT64
  {
    (x - MIN_INT64) % 0x1_0000_0000_0000_0000 + MIN_INT64
  }
}
