// JSON texts of a fixed shape: an object whose members are strings, printed in
// declaration order without white space. A shape is the sequence of literals
// around the values; string escaping follows section 7 of RFC 8259.
module Json {
  import opened Text

  predicate IsHex(c: char) {
    '0' <= c <= '9' || 'a' <= c <= 'f' || 'A' <= c <= 'F'
  }

  function HexValue(c: char): (d: nat)
    requires IsHex(c)
    ensures d < 16
  {
    if c <= '9' then (c as int) - 48
    else if c <= 'F' then (c as int) - 55
    else (c as int) - 87
  }

  function HexDigit(d: nat): (c: char)
    requires d < 16
    ensures IsHex(c) && HexValue(c) == d
  {
    if d < 10 then (48 + d) as char else (87 + d) as char
  }

  // The characters the encoder writes as \u escapes: controls without a short
  // form, the HTML-sensitive ones, and the two line separators.
  predicate NeedsHex(c: char) {
    c < ' ' || c == '<' || c == '>' || c == '&' || c == '\U{2028}' || c == '\U{2029}'
  }

  function ShortEscape(c: char): Option<char> {
    if c == '"' || c == '\\' then Some(c)
    else if c == '\U{08}' then Some('b')
    else if c == '\U{0C}' then Some('f')
    else if c == '\n' then Some('n')
    else if c == '\r' then Some('r')
    else if c == '\t' then Some('t')
    else None
  }

  function EscapeChar(c: char): (s: string)
    ensures s != "" && s[0] != '"'
  {
    match ShortEscape(c)
    case Some(short) => ['\\', short]
    case None =>
      if NeedsHex(c) then
        var code := c as int;
        ['\\', 'u', HexDigit(code / 4096), HexDigit(code / 256 % 16), HexDigit(code / 16 % 16), HexDigit(code % 16)]
      else [c]
  }

  function Escape(s: string): string {
    if s == "" then "" else EscapeChar(s[0]) + Escape(s[1..])
  }

  function ShortUnescape(c: char): Option<char> {
    if c == '"' || c == '\\' || c == '/' then Some(c)
    else if c == 'b' then Some('\U{08}')
    else if c == 'f' then Some('\U{0C}')
    else if c == 'n' then Some('\n')
    else if c == 'r' then Some('\r')
    else if c == 't' then Some('\t')
    else None
  }

  // One character of a JSON string and the number of text characters it takes.
  // Surrogate escapes are not of the shapes read here.
  function ReadChar(s: string): (r: Option<(char, nat)>)
    ensures r.Some? ==> 1 <= r.value.1 <= |s|
  {
    if s == "" || s[0] < ' ' || s[0] == '"' then None
    else if s[0] != '\\' then Some((s[0], 1))
    else if |s| < 2 then None
    else if s[1] != 'u' then
      match ShortUnescape(s[1])
      case Some(c) => Some((c, 2))
      case None => None
    else if |s| < 6 || !(IsHex(s[2]) && IsHex(s[3]) && IsHex(s[4]) && IsHex(s[5])) then None
    else
      var code := HexValue(s[2]) * 4096 + HexValue(s[3]) * 256 + HexValue(s[4]) * 16 + HexValue(s[5]);
      if 0xD800 <= code < 0xE000 then None else Some((code as char, 6))
  }

  // The value of a string up to its closing quote, and what follows the quote.
  function ReadString(s: string): Option<(string, string)>
    decreases |s|
  {
    if s == "" then None
    else if s[0] == '"' then Some(("", s[1..]))
    else
      match ReadChar(s)
      case None => None
      case Some((c, width)) =>
        match ReadString(s[width..])
        case None => None
        case Some((tail, rest)) => Some(([c] + tail, rest))
  }

  function Fill(shape: seq<string>, values: seq<string>): string
    requires |shape| == |values| + 1
  {
    if values == [] then shape[0]
    else shape[0] + Escape(values[0]) + "\"" + Fill(shape[1..], values[1..])
  }

  function Scan(shape: seq<string>, text: string): (values: Option<seq<string>>)
    requires |shape| >= 1
    ensures values.Some? ==> |shape| == |values.value| + 1
  {
    if |shape| == 1 then
      if text == shape[0] then Some([]) else None
    else if !(shape[0] <= text) then None
    else
      match ReadString(text[|shape[0]|..])
      case None => None
      case Some((value, rest)) =>
        match Scan(shape[1..], rest)
        case None => None
        case Some(values) => Some([value] + values)
  }

  lemma ReadEscapedChar(c: char, rest: string)
    ensures ReadChar(EscapeChar(c) + rest) == Some((c, |EscapeChar(c)|))
  {
    var s := EscapeChar(c) + rest;
    if ShortEscape(c).None? && NeedsHex(c) {
      var code := c as int;
      assert s[2] == HexDigit(code / 4096) && s[3] == HexDigit(code / 256 % 16);
      assert s[4] == HexDigit(code / 16 % 16) && s[5] == HexDigit(code % 16);
    }
  }

  lemma {:induction false} ReadEscapedString(x: string, rest: string)
    ensures ReadString(Escape(x) + "\"" + rest) == Some((x, rest))
  {
    var text := Escape(x) + "\"" + rest;
    if x == "" {
      assert text == "\"" + rest;
    } else {
      var tail := Escape(x[1..]) + "\"" + rest;
      assert text == EscapeChar(x[0]) + tail;
      ReadEscapedChar(x[0], tail);
      assert text[|EscapeChar(x[0])|..] == tail;
      ReadEscapedString(x[1..], rest);
      assert [x[0]] + x[1..] == x;
    }
  }

  lemma ScanStep(shape: seq<string>, value: string, rest: string)
    requires |shape| >= 2
    ensures Scan(shape, shape[0] + Escape(value) + "\"" + rest)
            == match Scan(shape[1..], rest) case None => None case Some(v) => Some([value] + v)
  {
    var inner := Escape(value) + "\"" + rest;
    var text := shape[0] + Escape(value) + "\"" + rest;
    assert text == shape[0] + inner;
    assert text[|shape[0]|..] == inner;
    ReadEscapedString(value, rest);
  }

  // Reading back what was printed gives exactly the values, for all strings.
  lemma {:induction false} ScanFill(shape: seq<string>, values: seq<string>)
    requires |shape| == |values| + 1
    ensures Scan(shape, Fill(shape, values)) == Some(values)
  {
    if values != [] {
      ScanStep(shape, values[0], Fill(shape[1..], values[1..]));
      ScanFill(shape[1..], values[1..]);
      assert [values[0]] + values[1..] == values;
    }
  }

  lemma FillInjective(shape: seq<string>, v: seq<string>, w: seq<string>)
    requires |shape| == |v| + 1 == |w| + 1
    requires Fill(shape, v) == Fill(shape, w)
    ensures v == w
  {
    ScanFill(shape, v);
    ScanFill(shape, w);
  }
}
