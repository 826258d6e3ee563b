// Rewriting '?' placeholders to PostgreSQL's numbered ones.
module QueryBinding {
  import opened Text
  import opened Decimal

  // A query as a database reads it: parameters among ordinary characters.
  datatype Token = Plain(c: char) | Parameter(n: nat)

  // The query as written: the placeholders are parameters k + 1, k + 2, ...
  function Written(query: string, k: nat): seq<Token> {
    if query == "" then []
    else if query[0] == '?' then [Parameter(k + 1)] + Written(query[1..], k + 1)
    else [Plain(query[0])] + Written(query[1..], k)
  }

  function Rewritten(query: string, k: nat): string {
    if query == "" then ""
    else if query[0] == '?' then "$" + Print(k + 1) + Rewritten(query[1..], k + 1)
    else [query[0]] + Rewritten(query[1..], k)
  }

  function Placeholders(query: string): nat {
    if query == "" then 0 else (if query[0] == '?' then 1 else 0) + Placeholders(query[1..])
  }

  lemma {:induction false} RewrittenAppend(a: string, b: string, k: nat)
    ensures Rewritten(a + b, k) == Rewritten(a, k) + Rewritten(b, k + Placeholders(a))
  {
    if a == "" {
      assert a + b == b;
    } else {
      assert (a + b)[1..] == a[1..] + b;
      RewrittenAppend(a[1..], b, if a[0] == '?' then k + 1 else k);
    }
  }

  lemma {:induction false} PlaceholdersAppend(a: string, b: string)
    ensures Placeholders(a + b) == Placeholders(a) + Placeholders(b)
  {
    if a == "" {
      assert a + b == b;
    } else {
      assert (a + b)[1..] == a[1..] + b;
      PlaceholdersAppend(a[1..], b);
    }
  }

  method Bind(dialect: string, query: string) returns (bound: string)
    ensures bound == if dialect != "postgres" then query else Rewritten(query, 0)
  {
    if dialect != "postgres" {
      return query;
    }
    var builder := "";
    var index: nat := 0;
    for i := 0 to |query|
      invariant index == Placeholders(query[..i])
      invariant builder == Rewritten(query[..i], 0)
    {
      var r := query[i];
      assert query[..i + 1] == query[..i] + [r];
      RewrittenAppend(query[..i], [r], 0);
      PlaceholdersAppend(query[..i], [r]);
      assert [r][1..] == "";
      if r != '?' {
        builder := builder + [r];
        continue;
      }
      index := index + 1;
      builder := builder + "$" + Print(index);
    }
    assert query[..|query|] == query;
    return builder;
  }

  // The length of the leading run of digits.
  function Digits(s: string): (n: nat)
    ensures n <= |s| && AllDigits(s[..n])
    ensures n < |s| ==> !IsDigit(s[n])
  {
    if s == "" || !IsDigit(s[0]) then 0
    else
      var n := Digits(s[1..]) + 1;
      assert s[..n] == [s[0]] + s[1..][..n - 1];
      n
  }

  // The rewritten query as the server reads it: a dollar sign and as many digits
  // as follow make a parameter.
  function Lex(s: string): seq<Token>
    decreases |s|
  {
    if s == "" then []
    else if s[0] == '$' && |s| > 1 && IsDigit(s[1]) then
      var n := Digits(s[1..]);
      [Parameter(Value(s[1..][..n]))] + Lex(s[1..][n..])
    else [Plain(s[0])] + Lex(s[1..])
  }

  predicate Clash(query: string, i: nat)
    requires i + 1 < |query|
  {
    (query[i] == '$' || query[i] == '?') && IsDigit(query[i + 1])
  }

  // No dollar sign and no placeholder is directly followed by a digit.
  predicate Safe(query: string) {
    forall i: nat :: i + 1 < |query| ==> !Clash(query, i)
  }

  lemma SafeTail(query: string)
    requires query != ""
    ensures Safe(query) <==> Safe(query[1..]) && !(|query| > 1 && Clash(query, 0))
  {
    var tail := query[1..];
    if Safe(query) {
      forall i: nat | i + 1 < |tail| ensures !Clash(tail, i) {
        assert !Clash(query, i + 1);
      }
    } else {
      var i: nat :| i + 1 < |query| && Clash(query, i);
      if i > 0 {
        assert Clash(tail, i - 1);
      }
    }
  }

  // Whether the rest of a rewritten query starts with a digit.
  lemma DigitAhead(query: string, k: nat)
    ensures (Rewritten(query, k) != "" && IsDigit(Rewritten(query, k)[0])) <==> (query != "" && IsDigit(query[0]))
  {
  }

  lemma {:induction false} DigitsOfPrefix(a: string, b: string)
    requires AllDigits(a)
    ensures Digits(a + b) == |a| + Digits(b)
  {
    if a == "" {
      assert a + b == b;
    } else {
      assert (a + b)[1..] == a[1..] + b;
      DigitsOfPrefix(a[1..], b);
    }
  }

  lemma {:induction false} ValueGrows(a: string, b: string)
    requires AllDigits(a) && AllDigits(b)
    ensures Value(a + b) >= Value(a)
    ensures b != "" ==> Value(a + b) >= 10 * Value(a)
  {
    if b == "" {
      assert a + b == a;
    } else {
      var shorter := b[..|b| - 1];
      assert (a + b)[..|a + b| - 1] == a + shorter;
      ValueGrows(a, shorter);
    }
  }

  // A dollar sign takes all the digits that follow it.
  lemma LexNumber(number: string, rest: string)
    requires number != "" && AllDigits(number)
    ensures
      var n := Digits(rest);
      Lex("$" + number + rest) == [Parameter(Value(number + rest[..n]))] + Lex(rest[n..])
  {
    var s, n := "$" + number + rest, Digits(rest);
    assert s[1..] == number + rest;
    DigitsOfPrefix(number, rest);
    assert s[1..][..|number| + n] == number + rest[..n];
    assert s[1..][|number| + n..] == rest[n..];
  }

  lemma LexPlain(c: char, rest: string)
    requires !(c == '$' && rest != "" && IsDigit(rest[0]))
    ensures Lex([c] + rest) == [Plain(c)] + Lex(rest)
  {
    assert ([c] + rest)[1..] == rest;
  }

  lemma LexDollar(rest: string)
    requires rest != "" && IsDigit(rest[0])
    ensures Lex("$" + rest) != [] && Lex("$" + rest)[0].Parameter?
  {
    assert ("$" + rest)[1..] == rest;
  }

  // The first token of a rewritten query.
  lemma LexStep(query: string, k: nat)
    requires query != "" && !(|query| > 1 && Clash(query, 0))
    ensures Lex(Rewritten(query, k))
            == [Written(query, k)[0]] + Lex(Rewritten(query[1..], if query[0] == '?' then k + 1 else k))
  {
    var next := if query[0] == '?' then k + 1 else k;
    var rest := Rewritten(query[1..], next);
    DigitAhead(query[1..], next);
    if query[0] == '?' {
      LexNumber(Print(k + 1), rest);
      assert Digits(rest) == 0 && rest[0..] == rest && Print(k + 1) + rest[..0] == Print(k + 1);
      ValueOfPrint(k + 1);
    } else {
      LexPlain(query[0], rest);
    }
  }

  // A digit after a numbered placeholder is read into its number.
  lemma LexTooMany(k: nat, rest: string)
    requires rest != "" && IsDigit(rest[0])
    ensures Lex("$" + Print(k + 1) + rest) != [] && Lex("$" + Print(k + 1) + rest)[0] != Parameter(k + 1)
  {
    var digits := rest[..Digits(rest)];
    LexNumber(Print(k + 1), rest);
    ValueOfPrint(k + 1);
    ValueGrows(Print(k + 1), digits);
    assert digits != "";
  }

  lemma LexClash(query: string, k: nat)
    requires |query| > 1 && Clash(query, 0)
    ensures Lex(Rewritten(query, k)) != Written(query, k)
  {
    var next := if query[0] == '?' then k + 1 else k;
    var rest := Rewritten(query[1..], next);
    DigitAhead(query[1..], next);
    if query[0] == '?' {
      LexTooMany(k, rest);
      assert Written(query, k)[0] == Parameter(k + 1);
    } else {
      LexDollar(rest);
    }
  }

  // The server reads the rewritten query as it was written, exactly when the query
  // is safe.
  lemma {:induction false} RewriteKeepsMeaning(query: string, k: nat)
    ensures Lex(Rewritten(query, k)) == Written(query, k) <==> Safe(query)
  {
    if query != "" {
      SafeTail(query);
      if |query| > 1 && Clash(query, 0) {
        LexClash(query, k);
      } else {
        var next := if query[0] == '?' then k + 1 else k;
        LexStep(query, k);
        RewriteKeepsMeaning(query[1..], next);
        var a, b := Lex(Rewritten(query[1..], next)), Written(query[1..], next);
        assert [Written(query, k)[0]] + a == [Written(query, k)[0]] + b <==> a == b by {
          assert ([Written(query, k)[0]] + a)[1..] == a && ([Written(query, k)[0]] + b)[1..] == b;
        }
      }
    }
  }

  // A query with its arguments in place.
  datatype Piece<A> = Literal(c: char) | Argument(a: A)

  // Arguments go to placeholders from left to right.
  function Inline<A>(query: string, args: seq<A>): seq<Piece<A>>
    requires Placeholders(query) <= |args|
  {
    if query == "" then []
    else if query[0] == '?' then [Argument(args[0])] + Inline(query[1..], args[1..])
    else [Literal(query[0])] + Inline(query[1..], args)
  }

  // Arguments go to parameters by number.
  function Place<A>(tokens: seq<Token>, args: seq<A>): Option<seq<Piece<A>>> {
    if tokens == [] then Some([])
    else
      match (tokens[0], Place(tokens[1..], args))
      case (Plain(c), Some(rest)) => Some([Literal(c)] + rest)
      case (Parameter(n), Some(rest)) => if 1 <= n <= |args| then Some([Argument(args[n - 1])] + rest) else None
      case (_, None) => None
  }

  lemma {:induction false} PlaceWritten<A>(query: string, k: nat, args: seq<A>)
    requires k + Placeholders(query) <= |args|
    ensures Place(Written(query, k), args) == Some(Inline(query, args[k..]))
  {
    if query != "" {
      var w := Written(query, k);
      if query[0] == '?' {
        PlaceWritten(query[1..], k + 1, args);
        assert args[k..][1..] == args[k + 1..];
        assert w[1..] == Written(query[1..], k + 1);
      } else {
        PlaceWritten(query[1..], k, args);
        assert w[1..] == Written(query[1..], k);
      }
    }
  }

  // Every argument reaches the placeholder it was written for.
  lemma BoundArguments<A>(query: string, args: seq<A>)
    requires Safe(query) && Placeholders(query) <= |args|
    ensures Place(Lex(Rewritten(query, 0)), args) == Some(Inline(query, args))
  {
    RewriteKeepsMeaning(query, 0);
    PlaceWritten(query, 0, args);
    assert args[0..] == args;
  }
}
