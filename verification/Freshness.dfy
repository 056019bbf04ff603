/** How old a response is and how long it stays usable: sections 4.2.1 to 4.2.3 of RFC 9111. */
module Freshness {
  import opened Http
  import opened Text
  import opened CacheControl

  /** The Expires date, if there is one that can be read. */
  function Expiry(p: Platform, h: Headers): Option<int> {
    if First(h, "Expires") == "" then None else p.parseTime(First(h, "Expires"))
  }

  /** A tenth of the time since the last modification. */
  function Heuristic(p: Platform, h: Headers): int {
    var modified := if First(h, "Last-Modified") == "" then None else p.parseTime(First(h, "Last-Modified"));
    if modified.Some? && DateOf(p, h).Some? then Quotient(Saturate(DateOf(p, h).value - modified.value), 10) else 0
  }

  /** The lifetime without directives: an Expires that cannot be read counts as absent. */
  function Dated(p: Platform, h: Headers): int {
    if Expiry(p, h).Some? && DateOf(p, h).Some? then Saturate(Expiry(p, h).value - DateOf(p, h).value)
    else Heuristic(p, h)
  }

  /** getFreshnessLifetime: a zero s-maxage or max-age counts as absent. */
  function Lifetime(p: Platform, h: Headers, cc: Directives): int {
    if cc.sMaxAge != 0 then cc.sMaxAge else if cc.maxAge != 0 then cc.maxAge else Dated(p, h)
  }

  /** The Age field as it is read: what Atoi returns is used even when it reports an error. */
  function AgeValue(h: Headers): int {
    if First(h, "Age") == "" then 0 else Atoi(First(h, "Age")).value
  }

  /** A decimal Age is the number it says, an absent one is zero. */
  lemma AgeValueExactly(h: Headers, s: string)
    ensures "Age" !in h ==> AgeValue(h) == 0
    ensures Values(h, "Age") == [s] && s != "" && AllDigits(s) && Decimal(s) <= MAX_INT ==> AgeValue(h) == Decimal(s)
    ensures Values(h, "Age") == ["-" + s] && s != "" && AllDigits(s) && Decimal(s) <= MAX_INT ==>
              AgeValue(h) == -Decimal(s)
  {
    hide Atoi, Decimal;
    if s != "" && AllDigits(s) && Decimal(s) <= MAX_INT {
      AtoiIsDecimal(s);
    }
  }

  function Max(a: int, b: int): int {
    if a < b then b else a
  }

  /** The instant at which the response is taken to have been created. */
  function EstimatedCreation(p: Platform, h: Headers, requested: int, received: int, now: int): (created: int)
    ensures created <= received
  {
    var date := if DateOf(p, h).Some? then DateOf(p, h).value else now;
    var apparentAge := Max(0, Saturate(received - date));
    var responseDelay := Saturate(received - requested);
    var correctedAge := Wrap(Wrap(SECOND * AgeValue(h)) + responseDelay);
    received - Max(apparentAge, correctedAge)
  }

  function TruncateToSecond(d: int): int {
    Quotient(d, SECOND) * SECOND
  }

  function CurrentAge(created: int, now: int): int {
    TruncateToSecond(Saturate(now - created))
  }

  predicate IsFresh(p: Platform, h: Headers, cc: Directives, created: int, now: int) {
    Lifetime(p, h, cc) > CurrentAge(created, now)
  }

  /* ---- The lifetime of section 4.2.1 of RFC 9111 ---- */

  /** The number of nanoseconds a directive states, over unbounded integers. */
  function Stated(ts: seq<Token>, name: Name): Option<int> {
    if FirstOf(ts, name).Some? && FirstOf(ts, name).value.found
    then Some(Atoi(FirstOf(ts, name).value.val).value * SECOND)
    else None
  }

  /** What Expires states; a date that cannot be read is one in the past (section 5.3). */
  function StatedExpiry(p: Platform, h: Headers): Option<int> {
    if Values(h, "Expires") == [] then None
    else if Expiry(p, h).Some? && DateOf(p, h).Some? then Some(Expiry(p, h).value - DateOf(p, h).value)
    else Some(0)
  }

  /** The first of s-maxage (in a shared cache), max-age and Expires that is present decides, whatever it says;
      otherwise any heuristic will do, and this is the program's. */
  function RfcLifetime(p: Platform, h: Headers, ts: seq<Token>, shared: bool): int {
    if shared && Stated(ts, SMaxAge).Some? then Stated(ts, SMaxAge).value
    else if Stated(ts, MaxAge).Some? then Stated(ts, MaxAge).value
    else if StatedExpiry(p, h).Some? then StatedExpiry(p, h).value
    else Heuristic(p, h)
  }

  /** The elements of Cache-Control that are read: all of them, or those before the first bad number. */
  function Heeded(h: Headers): seq<Token> {
    var ts := Tokens(Values(h, "Cache-Control"));
    ts[..StopFrom(ts, 0)]
  }

  predicate IsDuration(d: int) {
    MIN_INT <= d <= MAX_INT
  }

  /** An Expires that is present can be read, or there is nothing to fall back on. */
  predicate ExpiresHonoured(p: Platform, h: Headers) {
    match StatedExpiry(p, h)
    case None => true
    case Some(d) => if Expiry(p, h).Some? then IsDuration(d) else Heuristic(p, h) == 0
  }

  /** A max-age that is present fits in a duration, and is not zero unless what it falls through to is zero as well. */
  predicate MaxAgeHonoured(p: Platform, h: Headers, ts: seq<Token>) {
    match Stated(ts, MaxAge)
    case None => ExpiresHonoured(p, h)
    case Some(d) => IsDuration(d) && (d == 0 ==> Dated(p, h) == 0)
  }

  /** The same for s-maxage; a private cache should not look at it at all. */
  predicate Honoured(p: Platform, h: Headers, ts: seq<Token>, shared: bool) {
    match Stated(ts, SMaxAge)
    case None => MaxAgeHonoured(p, h, ts)
    case Some(d) =>
      if shared then IsDuration(d) && (d == 0 ==> Duration(ts, MaxAge) == 0 && Dated(p, h) == 0)
      else if Wrap(d) == 0 then MaxAgeHonoured(p, h, ts)
      else Repeats(p, h, ts, Wrap(d))
  }

  /** The first of max-age, Expires and the heuristic that there is says the same. */
  predicate Repeats(p: Platform, h: Headers, ts: seq<Token>, d: int) {
    if Stated(ts, MaxAge).Some? then Stated(ts, MaxAge) == Some(d)
    else if StatedExpiry(p, h).Some? then StatedExpiry(p, h) == Some(d)
    else Heuristic(p, h) == d
  }

  /** The program's lifetime is the RFC's for the elements it reads exactly when the deciding field can be read, fits
      in a duration, and is not a zero that something else is taken instead of. */
  lemma LifetimeIsRfc(p: Platform, h: Headers, shared: bool)
    requires DateOf(p, h).Some?
    ensures Lifetime(p, h, Read(Values(h, "Cache-Control")).directives) == RfcLifetime(p, h, Heeded(h), shared)
            <==> Honoured(p, h, Heeded(h), shared)
  {
    hide FirstOf, StopFrom, Tokens, Dated, StatedExpiry, MaxAgeHonoured, Atoi;
    var ts := Heeded(h);
    assert Read(Values(h, "Cache-Control")).directives == Meaning(ts);
    OwnLifetimeIsRfc(p, h, ts);
    DatedFits(p, h);
  }

  /** The lifetime when s-maxage has no say. */
  lemma OwnLifetimeIsRfc(p: Platform, h: Headers, ts: seq<Token>)
    requires DateOf(p, h).Some?
    ensures (if Duration(ts, MaxAge) != 0 then Duration(ts, MaxAge) else Dated(p, h)) == RfcLifetime(p, h, ts, false)
            <==> MaxAgeHonoured(p, h, ts)
  {
    hide FirstOf, Heuristic, Expiry, Atoi;
    HeuristicFits(p, h);
    DatedFits(p, h);
    ExpiryIsPresent(p, h);
  }

  lemma DatedFits(p: Platform, h: Headers)
    ensures IsDuration(Dated(p, h))
  {
  }

  lemma HeuristicFits(p: Platform, h: Headers)
    ensures IsDuration(Heuristic(p, h))
  {
  }

  lemma ExpiryIsPresent(p: Platform, h: Headers)
    ensures Expiry(p, h).Some? ==> Values(h, "Expires") != []
  {
  }

  /* ---- Ages ---- */

  /** current_age of section 4.2.3 of RFC 9111, over unbounded integers. */
  function RfcCurrentAge(ageValue: int, date: int, requested: int, received: int, now: int): int {
    var apparentAge := Max(0, received - date);
    var correctedAgeValue := ageValue + (received - requested);
    var correctedInitialAge := Max(apparentAge, correctedAgeValue);
    var residentTime := now - received;
    correctedInitialAge + residentTime
  }

  /** Counting from the estimated creation gives the RFC's age exactly when the time since Date fits in a duration,
      age_value plus the response delay does not exceed one, and, should it be too negative for one, the value it
      wraps around to does not exceed the time since Date. */
  lemma AgeIsRfcAge(p: Platform, h: Headers, requested: int, received: int, now: int)
    requires DateOf(p, h).Some? && 0 <= received - requested <= MAX_INT
    ensures var sinceDate := received - DateOf(p, h).value;
            var corrected := AgeValue(h) * SECOND + (received - requested);
            now - EstimatedCreation(p, h, requested, received, now) ==
            RfcCurrentAge(AgeValue(h) * SECOND, DateOf(p, h).value, requested, received, now)
            <==> && sinceDate <= MAX_INT && corrected <= MAX_INT
                 && (corrected < MIN_INT ==> Wrap(corrected) <= Max(0, sinceDate))
  {
    hide AgeValue, Wrap;
    var product, delay := SECOND * AgeValue(h), received - requested;
    WrapTwice(product, delay);
  }

  lemma WrapTwice(x: int, y: int)
    ensures Wrap(Wrap(x) + y) == Wrap(x + y)
  {
    var half, whole := 0x8000_0000_0000_0000, 0x1_0000_0000_0000_0000;
    SameRemainder(x + half, y, whole);
  }

  lemma SameRemainder(x: int, y: int, m: int)
    requires m > 0
    ensures (x % m + y) % m == (x + y) % m
  {
    var q := x / m;
    assert x == q * m + x % m;
    Shifted(x % m + y, q, m);
  }

  lemma Shifted(x: int, q: int, m: int)
    requires m > 0
    ensures (x + q * m) % m == x % m
  {
    var a, b := x / m, (x + q * m) / m;
    assert (a + q) * m == a * m + q * m;
    assert x + q * m == (a + q) * m + x % m;
    UniqueQuotient(x + q * m, a + q, x % m, m);
  }

  lemma UniqueQuotient(x: int, q: int, r: int, m: int)
    requires m > 0 && 0 <= r < m && x == q * m + r
    ensures x % m == r
  {
    var d := x / m - q;
    assert d > 0 ==> d * m >= m;
    assert d < 0 ==> d * m <= -m;
    assert d * m == r - x % m;
  }

  /** One second above the bound the age is lost: the response looks as if it was created on arrival. */
  lemma HugeAgeIsForgotten(p: Platform, h: Headers, received: int)
    requires DateOf(p, h) == Some(received) && AgeValue(h) == 9_223_372_037
    ensures EstimatedCreation(p, h, received, received, received) == received
    ensures RfcCurrentAge(AgeValue(h) * SECOND, received, received, received, received) == 9_223_372_037 * SECOND
  {
  }

  /** A lifetime rounded up to a whole second. */
  function CeilToSecond(d: int): (r: int)
    ensures d <= r < d + SECOND && r % SECOND == 0
  {
    if d % SECOND == 0 then d else d - d % SECOND + SECOND
  }

  /** The truncated verdict: exact for whole-second lifetimes, late by less than a second otherwise. */
  lemma VerdictBound(p: Platform, h: Headers, cc: Directives, created: int, now: int)
    requires 0 <= now - created <= MAX_INT
    ensures IsFresh(p, h, cc, created, now) <==> CeilToSecond(Lifetime(p, h, cc)) > now - created
    ensures Lifetime(p, h, cc) % SECOND == 0 ==>
              (IsFresh(p, h, cc, created, now) <==> Lifetime(p, h, cc) > now - created)
    ensures Lifetime(p, h, cc) > now - created ==> IsFresh(p, h, cc, created, now)
    ensures IsFresh(p, h, cc, created, now) ==> Lifetime(p, h, cc) + SECOND > now - created
  {
    hide Lifetime;
    var l, age := Lifetime(p, h, cc), now - created;
    var c := CeilToSecond(l);
    var q, m := age / SECOND, c / SECOND;
    assert age == q * SECOND + age % SECOND && c == m * SECOND;
    assert CurrentAge(created, now) == q * SECOND;
    assert l > q * SECOND <==> m > q;
    assert c > age <==> m > q;
  }

  /** Under a clock that does not go back, a stale response stays stale. */
  lemma StaysStale(p: Platform, h: Headers, cc: Directives, created: int, now: int, later: int)
    requires now <= later && !IsFresh(p, h, cc, created, now)
    ensures !IsFresh(p, h, cc, created, later)
  {
    hide Lifetime;
    TruncateMonotone(Saturate(now - created), Saturate(later - created));
  }

  lemma TruncateMonotone(a: int, b: int)
    requires a <= b
    ensures TruncateToSecond(a) <= TruncateToSecond(b)
  {
    DivMonotone(a, b);
    DivMonotone(-b, -a);
  }

  lemma DivMonotone(a: int, b: int)
    requires a <= b
    ensures a / SECOND <= b / SECOND
  {
  }

  lemma AgeNotNegative(created: int, now: int)
    requires created <= now
    ensures CurrentAge(created, now) >= 0
  {
  }
}
