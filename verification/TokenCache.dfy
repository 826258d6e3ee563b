// The verifier's cache of its access token for the trust registry. Callers share
// it: each holds the lock only while it looks a token up or stores one, and the
// HTTP exchange runs in between.
module TokenCache {
  import opened Text
  import opened Decimal

  const SECOND: int := 1_000_000_000

  // Refused: no usable HTTP response, a status other than 200, or an undecodable body.
  datatype Response = Refused | Granted(accessToken: string, tokenType: string, expiresIn: int)

  // Times are nanoseconds since 0001-01-01T00:00:00Z; 0 is the unset time.
  datatype Cache = Cache(token: string, expiry: int)

  const EMPTY := Cache("", 0)

  function Lower(c: char): char {
    if 'A' <= c <= 'Z' then ((c as int) + 32) as char else c
  }

  predicate IsBearer(s: string) {
    |s| == 6 && forall i :: 0 <= i < 6 ==> Lower(s[i]) == "bearer"[i]
  }

  // The token of a response the verifier accepts.
  function Accepted(r: Response): (token: Option<string>)
    ensures token.Some? ==> token.value != "" && Trim(token.value) == token.value
  {
    match r
    case Refused => None
    case Granted(accessToken, tokenType, _) =>
      TrimIdempotent(accessToken);
      if Trim(accessToken) == "" then None
      else if Trim(tokenType) != "" && !IsBearer(Trim(tokenType)) then None
      else Some(Trim(accessToken))
  }

  predicate Letters(s: string, lower: string, upper: string) {
    |s| == |lower| == |upper| && forall i :: 0 <= i < |s| ==> s[i] == lower[i] || s[i] == upper[i]
  }

  // Which responses are accepted, and with what token: a granted one with a token
  // that is not blank and a type that is blank or "bearer" in any case of letters.
  lemma AcceptedExactly(r: Response, token: string)
    ensures Accepted(r) == Some(token)
            <==> && r.Granted? && token == Trim(r.accessToken) && token != ""
                 && (Trim(r.tokenType) == "" || Letters(Trim(r.tokenType), "bearer", "BEARER"))
  {
    if r.Granted? {
      forall c: char, i | 0 <= i < 6 ensures Lower(c) == "bearer"[i] <==> c == "bearer"[i] || c == "BEARER"[i] {
        assert "BEARER"[i] as int + 32 == "bearer"[i] as int;
      }
    }
  }

  // How long a token is kept, in int64 nanoseconds.
  function Lifetime(expiresIn: int): int {
    if expiresIn <= 0 then 0
    else if expiresIn <= 30 then WrapInt64(expiresIn * SECOND)
    else WrapInt64((expiresIn - 30) * SECOND)
  }

  predicate Expired(expiry: int, now: int) {
    expiry != 0 && now > expiry
  }

  function Lookup(c: Cache, now: int): (Cache, string) {
    if Trim(c.token) == "" then (c, "")
    else if Expired(c.expiry, now) then (EMPTY, "")
    else (c, c.token)
  }

  function Remember(token: string, expiresIn: int, now: int): Cache {
    Cache(Trim(token), now + Lifetime(expiresIn))
  }

  datatype TokenResult = Token(token: string) | Unavailable

  class HydraTokenSource {
    var cachedToken: string
    var cachedExpiry: int

    ghost function Contents(): Cache
      reads this
    {
      Cache(cachedToken, cachedExpiry)
    }

    constructor ()
      ensures Contents() == EMPTY
    {
      cachedToken, cachedExpiry := "", 0;
    }

    method CachedAccessToken(now: int) returns (token: string)
      modifies this
      ensures (Contents(), token) == Lookup(old(Contents()), now)
    {
      if Trim(cachedToken) == "" {
        return "";
      }
      if cachedExpiry != 0 && now > cachedExpiry {
        cachedToken := "";
        cachedExpiry := 0;
        return "";
      }
      return cachedToken;
    }

    method CacheAccessToken(token: string, expiresIn: int, now: int)
      modifies this
      ensures Contents() == Remember(token, expiresIn, now)
    {
      cachedToken := Trim(token);
      if expiresIn <= 0 {
        cachedExpiry := now;
      } else if expiresIn <= 30 {
        cachedExpiry := now + WrapInt64(expiresIn * SECOND);
      } else {
        cachedExpiry := now + WrapInt64((expiresIn - 30) * SECOND);
      }
    }

    // One call that no other caller interrupts: two events of the history below,
    // the second only after a miss.
    method GetToken(asked: int, response: Response, answered: int) returns (r: TokenResult)
      modifies this
      ensures
        var (looked, hit) := Lookup(old(Contents()), asked);
        if hit != "" then Contents() == looked && r == Token(hit)
        else
          && Contents() == Apply(looked, Exchange(response, answered))
          && r == match Accepted(response) case Some(token) => Token(token) case None => Unavailable
    {
      var hit := CachedAccessToken(asked);
      if hit != "" {
        return Token(hit);
      }
      if response.Refused? || Trim(response.accessToken) == "" {
        return Unavailable;
      }
      var tokenType := Trim(response.tokenType);
      if tokenType != "" && !IsBearer(tokenType) {
        return Unavailable;
      }
      CacheAccessToken(response.accessToken, response.expiresIn, answered);
      TrimIdempotent(response.accessToken);
      return Token(Trim(response.accessToken));
    }
  }

  // What happens to the shared cache, in the order of the lock: any interleaving
  // of any number of callers is a list of these.
  datatype Event = Ask(now: int) | Exchange(response: Response, now: int)

  function Apply(c: Cache, e: Event): Cache {
    match e
    case Ask(now) => Lookup(c, now).0
    case Exchange(response, now) =>
      match Accepted(response)
      case None => c
      case Some(token) => Remember(token, response.expiresIn, now)
  }

  function After(h: seq<Event>): Cache {
    if h == [] then EMPTY else Apply(After(h[..|h| - 1]), h[|h| - 1])
  }

  predicate Stores(e: Event) {
    e.Exchange? && Accepted(e.response).Some?
  }

  // The last accepted response of a history.
  predicate Latest(h: seq<Event>, i: int) {
    && 0 <= i < |h| && Stores(h[i])
    && forall j :: i < j < |h| ==> !Stores(h[j])
  }

  function TokenOf(e: Event): string
    requires Stores(e)
  {
    Accepted(e.response).value
  }

  function ExpiryOf(e: Event): int
    requires Stores(e)
  {
    e.now + Lifetime(e.response.expiresIn)
  }

  // No caller has asked after this response's token expired.
  predicate Unexpired(h: seq<Event>, i: int)
    requires 0 <= i < |h| && Stores(h[i])
  {
    forall j :: i < j < |h| && h[j].Ask? ==> !Expired(ExpiryOf(h[i]), h[j].now)
  }

  // The cache after any history: token and expiry of the last accepted response,
  // both from that one response, until somebody asks past the expiry.
  lemma {:induction false} CacheExactly(h: seq<Event>, i: int)
    requires Latest(h, i)
    ensures After(h) == if Unexpired(h, i) then Cache(TokenOf(h[i]), ExpiryOf(h[i])) else EMPTY
    decreases |h|
  {
    var n := |h| - 1;
    if i < n {
      var before := h[..n];
      assert before[i] == h[i];
      assert Latest(before, i);
      CacheExactly(before, i);
      if Unexpired(before, i) && !(h[n].Ask? && Expired(ExpiryOf(h[i]), h[n].now)) {
        forall j | i < j < |h| && h[j].Ask? ensures !Expired(ExpiryOf(h[i]), h[j].now) {
          assert j < n ==> before[j] == h[j];
        }
      }
      if Unexpired(h, i) {
        forall j | i < j < |before| && before[j].Ask? ensures !Expired(ExpiryOf(before[i]), before[j].now) {
          assert h[j] == before[j];
        }
      }
    }
  }

  // The last accepted response; -1 when there is none, and then nothing is cached.
  lemma {:induction false} FindLatest(h: seq<Event>) returns (i: int)
    ensures i == -1 || Latest(h, i)
    ensures i == -1 ==> After(h) == EMPTY && forall j :: !Latest(h, j)
    decreases |h|
  {
    if h == [] {
      i := -1;
    } else {
      var n := |h| - 1;
      var before := h[..n];
      if Stores(h[n]) {
        i := n;
      } else {
        i := FindLatest(before);
        forall j | 0 <= j ensures Latest(h, j) <==> Latest(before, j) {
          LatestOfPrefix(h, j);
        }
      }
    }
  }

  lemma LatestOfPrefix(h: seq<Event>, i: int)
    requires h != [] && !Stores(h[|h| - 1])
    ensures Latest(h, i) <==> Latest(h[..|h| - 1], i)
  {
    var before := h[..|h| - 1];
    if Latest(before, i) {
      forall j | i < j < |h| ensures !Stores(h[j]) {
        assert j < |before| ==> before[j] == h[j];
      }
    }
  }

  // A caller is served a token exactly when it is the last accepted response's
  // and nobody, this caller included, has asked past its expiry since.
  lemma ServedExactly(h: seq<Event>, now: int, token: string)
    ensures token != "" && Lookup(After(h), now).1 == token
            <==> exists i :: Latest(h, i) && Unexpired(h, i) && !Expired(ExpiryOf(h[i]), now) && token == TokenOf(h[i])
  {
    var i := FindLatest(h);
    if i != -1 {
      CacheExactly(h, i);
      assert forall j :: Latest(h, j) ==> j == i;
    }
  }

  predicate NonDecreasing(h: seq<Event>, now: int) {
    && (forall i, j :: 0 <= i < j < |h| ==> h[i].now <= h[j].now)
    && (forall i :: 0 <= i < |h| ==> h[i].now <= now)
  }

  // The documented lifetime, in seconds, without any wrap-around.
  function Promised(expiresIn: int): int {
    if expiresIn > 30 then expiresIn - 30 else if expiresIn > 0 then expiresIn else 0
  }

  const LAST_EXACT_EXPIRY: int := 9_223_372_066

  lemma LifetimeExactly(expiresIn: int)
    ensures Lifetime(expiresIn) == Promised(expiresIn) * SECOND <==> expiresIn <= LAST_EXACT_EXPIRY
  {
  }

  // On a clock that does not go back and is past its zero time, the last accepted
  // response alone decides, and its token is served from the time it was stored
  // for the promised lifetime and not a nanosecond longer.
  lemma ServedForLifetime(h: seq<Event>, now: int, i: int)
    requires NonDecreasing(h, now) && Latest(h, i)
    requires h[i].response.expiresIn <= LAST_EXACT_EXPIRY && h[i].now > 0
    ensures Lookup(After(h), now).1 == TokenOf(h[i])
            <==> h[i].now <= now <= h[i].now + Promised(h[i].response.expiresIn) * SECOND
    ensures Lookup(After(h), now).1 == "" || Lookup(After(h), now).1 == TokenOf(h[i])
  {
    LifetimeExactly(h[i].response.expiresIn);
    CacheExactly(h, i);
    if now <= ExpiryOf(h[i]) {
      assert Unexpired(h, i);
    }
  }

  // One second more than the exact range, and the token expires before it is stored.
  lemma LifetimeWraps()
    ensures Lifetime(LAST_EXACT_EXPIRY + 1) < 0
  {
  }
}
