/** Inputs on which the program departs from RFC 9111: where a law holds only under a condition, these show it fail
    outside of it. */
module Departures {
  import opened Http
  import opened Text
  import opened CacheControl
  import opened Freshness
  import opened Client
  import opened System
  import opened Effect
  import Caching
  import Etag
  import Vary

  /* ---- Reading a line ---- */

  /** A line with one directive and its argument. */
  lemma OneDirective(key: string, val: string)
    requires key != "" && val != "" && ',' !in key && ',' !in val && '=' !in key
    requires !IsSpace(key[0]) && !IsSpace(val[|val| - 1])
    ensures Tokens([key + "=" + val]) == [Token(Classify(key), val, true)]
  {
    hide Classify, IsSpace, TrimSpace, Cut, Split;
    var line := key + "=" + val;
    SplitOfPart(line);
    CutAtSign(key, val);
    assert line[0] == key[0] && line[|line| - 1] == val[|val| - 1];
    Etag.TrimKeeps(line);
    TokensOne(line);
    assert Split(line) == [line];
    assert TokensOf([line]) == [ToToken(line)];
  }

  lemma OneArgument(name: Name, val: string)
    requires Atoi(val).ok
    ensures var ts := [Token(name, val, true)];
            StopFrom(ts, 0) == 1 && FirstOf(ts, name) == Some(ts[0])
                    && forall n: Name :: n != name ==> FirstOf(ts, n) == None
  {
    hide Atoi;
    var ts := [Token(name, val, true)];
    assert ts[1..] == [];
    assert FirstOf([], name) == None;
    assert !BadAt(ts, 0);
    assert StopFrom(ts, 1) == 1;
  }

  /* ---- Lifetimes ---- */

  /** A response dated 1000 s, last modified at 0 s, with one more field. */
  function Aged(name: string, value: string): Headers {
    map["Date" := ["d"], "Last-Modified" := ["m"]][name := [value]]
  }

  ghost predicate Dates(p: Platform) {
    p.parseTime("d") == Some(1000 * SECOND) && p.parseTime("m") == Some(0)
  }

  lemma AgedFields(p: Platform, name: string, value: string)
    requires Dates(p) && name != "Date" && name != "Last-Modified"
    ensures var h := Aged(name, value);
            && DateOf(p, h) == Some(1000 * SECOND) && Heuristic(p, h) == 100 * SECOND
            && Values(h, name) == [value] && forall n :: n !in {"Date", "Last-Modified", name} ==> Values(h, n) == []
  {
    var h := Aged(name, value);
    assert First(h, "Date") == "d" && First(h, "Last-Modified") == "m";
  }

  /** max-age=0 asks for validation at once; the program takes the heuristic and serves for 100 s. */
  lemma ZeroMaxAgeIsIgnored(p: Platform, created: int)
    requires Dates(p)
    ensures var h := Aged("Cache-Control", "max-age=0");
            && RfcLifetime(p, h, Heeded(h), true) == 0
            && Reusable(p, CachedResponse("", OK, h, map[], created), created + 99 * SECOND)
  {
    hide Atoi, Heuristic, Aged, DateOf, Read, Heeded, Stated, IsSpace;
    var h := Aged("Cache-Control", "max-age=0");
    AgedFields(p, "Cache-Control", "max-age=0");
    AtoiZero();
    NotSpace();
    assert "max-age=" + "0" == "max-age=0";
    MaxAgeOnly(h, "0");
    assert First(h, "Expires") == "";
    ServedFor(p, h, created, 100);
  }

  lemma ServedFor(p: Platform, h: Headers, created: int, seconds: nat)
    requires seconds <= 1000
    requires var cc := Read(Values(h, "Cache-Control")).directives;
             Lifetime(p, h, cc) == seconds * SECOND && !cc.noCache && !cc.mustRevalidate
    ensures forall d: nat :: d < seconds ==>
            Reusable(p, CachedResponse("", OK, h, map[], created), created + d * SECOND)
  {
    hide Read, Lifetime;
    forall d: nat | d < seconds
      ensures Reusable(p, CachedResponse("", OK, h, map[], created), created + d * SECOND)
    {
      assert CurrentAge(created, created + d * SECOND) == d * SECOND;
    }
  }

  lemma AtoiZero()
    ensures Atoi("0") == Parsed(0, true)
  {
    assert "0"[1..] == "";
    assert ParseDigits("", 0) == Number(0);
  }

  /** A header whose only directive has a number. */
  lemma NumberOnly(h: Headers, key: string, val: string)
    requires Values(h, "Cache-Control") == [key + "=" + val] && Numeric(Classify(key)) && Atoi(val).ok
    requires key != "" && val != "" && ',' !in key && ',' !in val && '=' !in key
    requires !IsSpace(key[0]) && !IsSpace(val[|val| - 1])
    ensures Heeded(h) == [Token(Classify(key), val, true)]
    ensures Read(Values(h, "Cache-Control")).directives == Meaning([Token(Classify(key), val, true)])
  {
    hide Atoi, IsSpace, Classify, Meaning;
    OneDirective(key, val);
    OneArgument(Classify(key), val);
    var ts := [Token(Classify(key), val, true)];
    assert ts[..1] == ts;
  }

  /** What such a header states and means. */
  lemma NumberMeans(name: Name, val: string)
    requires Numeric(name) && Atoi(val).ok
    ensures var ts := [Token(name, val, true)];
            && Stated(ts, name) == Some(Atoi(val).value * SECOND) && Duration(ts, name) == Seconds(val)
            && (forall n: Name :: n != name ==> Stated(ts, n) == None && Duration(ts, n) == 0)
            && !Meaning(ts).noCache && !Meaning(ts).mustRevalidate
  {
    hide Atoi, Seconds, FirstOf;
    OneArgument(name, val);
  }

  lemma MaxAgeOnly(h: Headers, val: string)
    requires Values(h, "Cache-Control") == ["max-age=" + val] && Atoi(val).ok && ',' !in val
    requires val != "" && !IsSpace(val[|val| - 1])
    ensures var cc := Read(Values(h, "Cache-Control")).directives;
            && cc.maxAge == Seconds(val) && cc.sMaxAge == 0 && !cc.noCache && !cc.mustRevalidate
    ensures Stated(Heeded(h), MaxAge) == Some(Atoi(val).value * SECOND) && Stated(Heeded(h), SMaxAge) == None
  {
    hide Atoi, Seconds, IsSpace, Read, Heeded, Stated, Duration, Flag, FirstOf;
    NotSpace();
    var key := "max-age";
    assert key[0] == 'm' && "max-age=" + val == key + "=" + val;
    NumberOnly(h, key, val);
    NumberMeans(MaxAge, val);
  }

  lemma NotSpace()
    ensures forall c :: 'a' <= c <= 'z' || 'A' <= c <= 'Z' || '0' <= c <= '9' ==> !IsSpace(c)
  {
  }

  /** One second more than fits in a duration, and the response is stale on arrival. */
  lemma HugeMaxAgeIsNegative(p: Platform)
    requires Dates(p)
    ensures var h := Aged("Cache-Control", "max-age=9223372037");
            && RfcLifetime(p, h, Heeded(h), true) == 9_223_372_037 * SECOND
            && Lifetime(p, h, Read(Values(h, "Cache-Control")).directives) < 0
  {
    hide Atoi, Heuristic, Aged, DateOf, Read, Heeded, Stated, IsSpace;
    var h := Aged("Cache-Control", "max-age=9223372037");
    AgedFields(p, "Cache-Control", "max-age=9223372037");
    AtoiHuge();
    NotSpace();
    assert "max-age=" + "9223372037" == "max-age=9223372037";
    MaxAgeOnly(h, "9223372037");
  }

  lemma AtoiHuge()
    ensures Atoi("9223372037") == Parsed(9_223_372_037, true)
  {
    hide ParseDigits;
    assert ParseDigits("", 0) == Number(0) by { NoDigits(); }
    OneMoreDigit("", 0, 0, '9');
    assert "" + ['9'] == "9";
    OneMoreDigit("9", 0, 9, '2');
    assert "9" + ['2'] == "92";
    OneMoreDigit("92", 0, 92, '2');
    assert "92" + ['2'] == "922";
    OneMoreDigit("922", 0, 922, '3');
    assert "922" + ['3'] == "9223";
    OneMoreDigit("9223", 0, 9223, '3');
    assert "9223" + ['3'] == "92233";
    OneMoreDigit("92233", 0, 92233, '7');
    assert "92233" + ['7'] == "922337";
    OneMoreDigit("922337", 0, 922337, '2');
    assert "922337" + ['2'] == "9223372";
    OneMoreDigit("9223372", 0, 9223372, '0');
    assert "9223372" + ['0'] == "92233720";
    OneMoreDigit("92233720", 0, 92233720, '3');
    assert "92233720" + ['3'] == "922337203";
    OneMoreDigit("922337203", 0, 922337203, '7');
    assert "922337203" + ['7'] == "9223372037";
  }

  lemma NoDigits()
    ensures ParseDigits("", 0) == Number(0)
  {
  }

  /** `Expires: 0` means already expired; the program takes the heuristic. */
  lemma UnreadableExpiresIsIgnored(p: Platform, created: int)
    requires Dates(p) && p.parseTime("0").None?
    ensures var h := Aged("Expires", "0");
            && RfcLifetime(p, h, Heeded(h), true) == 0
            && Reusable(p, CachedResponse("", OK, h, map[], created), created + 99 * SECOND)
  {
    hide Heuristic, Aged, DateOf, Read;
    var h := Aged("Expires", "0");
    AgedFields(p, "Expires", "0");
    NoDirectives();
    assert Tokens([]) == [];
    ServedFor(p, h, created, 100);
  }

  /** A private cache goes by s-maxage, which is not meant for it. */
  lemma PrivateCacheUsesSharedAge(p: Platform)
    requires p.parseTime("d").Some?
    ensures var h: Headers := map["Cache-Control" := ["s-maxage=9"], "Date" := ["d"]];
            && RfcLifetime(p, h, Heeded(h), false) == 0
            && Lifetime(p, h, Read(Values(h, "Cache-Control")).directives) == 9 * SECOND
  {
    hide Atoi, IsSpace, Classify, Read, Heeded, Stated, Duration, Flag, FirstOf;
    var h: Headers := map["Cache-Control" := ["s-maxage=9"], "Date" := ["d"]];
    var key, val := "s-maxage", "9";
    NotSpace();
    SharedAgeName();
    AtoiNine();
    assert key[0] == 's' && key + "=" + val == "s-maxage=9";
    NumberOnly(h, key, val);
    NumberMeans(SMaxAge, val);
    assert Values(h, "Expires") == [] && First(h, "Last-Modified") == "";
  }

  lemma SharedAgeName()
    ensures Classify("s-maxage") == SMaxAge
  {
  }

  lemma AtoiNine()
    ensures Atoi("9") == Parsed(9, true)
  {
    assert "9"[1..] == "";
    assert ParseDigits("", 9) == Number(9);
  }

  /* ---- Literal fields ---- */

  lemma TwoElements(a: string, b: string)
    requires ',' !in a && ',' !in b && a != "" && b != ""
    requires NoSpaceAround(a) && NoSpaceAround(b)
    ensures Elements([a + ", " + b]) == [a, b]
  {
    hide IsSpace, TrimSpace, Split;
    assert a + ", " + b == a + "," + (" " + b);
    SplitOfComma(a, " " + b);
    SplitOfPart(a);
    SplitOfPart(b);
    SplitOfSpace(b);
    assert Split(" " + b) == [" " + b] by { assert [b][1..] == [] && [b][0] == b; }
    TrimOfSpace(b);
    Etag.TrimKeeps(a);
    Etag.TrimKeeps(b);
    assert Split(a + ", " + b) == [a, " " + b];
    assert Trimmed([a, " " + b]) == [a, b];
    assert [a, b] + Elements([]) == [a, b];
  }

  /** `no-cache, max-age=60` is never served without asking, however young it is. */
  lemma NoCacheIsNeverReused(p: Platform, r: CachedResponse, at: int)
    requires Values(r.headers, "Cache-Control") == ["no-cache, max-age=60"]
    ensures !Reusable(p, r, at) && !StillGood(p, r.headers, r.created, at)
  {
    hide IsSpace, Reusable, Lifetime, CurrentAge, TextMeaning, Atoi;
    var a, b := "no-cache", "max-age=60";
    BlanksAreSpaces();
    assert a[0] == 'n' && a[|a| - 1] == 'e' && b[0] == 'm' && b[|b| - 1] == '0';
    assert a + ", " + b == "no-cache, max-age=60";
    TwoElements(a, b);
    var es := [a, b];
    assert !BadText(es, 0) by { NotANumber(es); }
    assert FirstBad(es, 0) >= 1;
    assert Counting(["no-cache, max-age=60"])[0] == a;
    assert Says(a, "no-cache");
    ReusableExactly(p, r, at);
  }

  lemma NotANumber(es: seq<string>)
    requires es != [] && es[0] == "no-cache"
    ensures !BadText(es, 0)
  {
    hide Atoi;
    forall n | n in NUMBERS
      ensures !(n + "=" <= es[0])
    {
      NumbersStart(n);
      assert (n + "=")[0] == n[0] && es[0][0] == 'n';
    }
  }

  lemma NumbersStart(n: string)
    requires n in NUMBERS
    ensures n != "" && n[0] != 'n'
  {
    if n == "max-age" {
      assert n[0] == 'm';
    } else {
      assert n == "s-maxage" || n == "stale-while-revalidate" || n == "stale-if-error";
      assert n[0] == 's';
    }
  }

  /* ---- Requests that share an answer they should not ---- */

  /** An answer that expires, with one more field. */
  function ExpiringWith(name: string, value: string): Headers {
    PLAIN[name := [value]]
  }

  lemma OneName(name: string)
    requires name != "" && ',' !in name && !IsSpace(name[0]) && !IsSpace(name[|name| - 1])
    ensures Expiring(ExpiringWith("Vary", name)) && Vary.NameSet(ExpiringWith("Vary", name)) == {name}
  {
    hide IsSpace, TrimSpace, Split;
    SplitOfPart(name);
    Etag.TrimKeeps(name);
    var h := ExpiringWith("Vary", name);
    assert Values(h, "Vary") == [name];
    assert [name][1..] == [] && Vary.NonEmpty([]) == [] && Vary.NonEmpty([name]) == [name];
    assert Vary.NamesIn([]) == [] && Vary.NamesIn([name]) == [name];
  }

  /** `Vary: origin` is not compared with the Origin of a request: another origin gets the same answer. */
  lemma LowerCaseVaryIsIgnored() returns (trace: seq<Action>)
    ensures var h := ExpiringWith("Vary", "origin");
            var req: Headers := map["Origin" := ["http://a"]];
            var again: Headers := map["Origin" := ["http://b"]];
            && SharedAnswer(trace, req, h, again)
            && Vary.NameSet(h) == {"origin"} && !Vary.AgreeOnFields(req, again, Vary.NameSet(h))
  {
    hide Vary.Matches, Vary.Extract, RemoveHopByHop, IsSpace, SharedAnswer, Vary.Canonical;
    var h := ExpiringWith("Vary", "origin");
    var req: Headers := map["Origin" := ["http://a"]];
    var again: Headers := map["Origin" := ["http://b"]];
    NotSpace();
    assert "origin"[0] == 'o' && "origin"[5] == 'n';
    OneName("origin");
    assert "origin"[0] != "Origin"[0];
    Vary.MatchesIsKernel(RemoveHopByHop(req), again, h);
    trace := AnswerIsShared(h, req, again);
    OriginIsCanonical();
    assert Vary.Said(req, "Origin") == Some("http://a") && Vary.Said(again, "Origin") == Some("http://b");
    assert "http://a"[7] != "http://b"[7];
  }

  lemma {:induction false} LowerCaseStays(s: string)
    requires forall i :: 0 <= i < |s| ==> 'a' <= s[i] <= 'z'
    ensures Vary.Cased(s, false) == s
  {
    if s != "" {
      LowerCaseStays(s[1..]);
      assert [s[0]] + s[1..] == s;
    }
  }

  lemma OriginIsCanonical()
    ensures Vary.Canonical("origin") == "Origin"
  {
    hide Vary.IsTokenChar, Vary.Cased;
    var s, rest := "origin", "rigin";
    assert forall i :: 0 <= i < |s| ==> 'a' <= s[i] <= 'z';
    LettersAreTokens(s);
    assert s == ['o'] + rest;
    CapitalLetter('o', rest);
    assert ['O'] + rest == "Origin" && Vary.Upper('o') == 'O';
  }

  lemma CapitalLetter(c: char, rest: string)
    requires 'a' <= c <= 'z' && forall i :: 0 <= i < |rest| ==> 'a' <= rest[i] <= 'z'
    ensures Vary.Cased([c] + rest, true) == [Vary.Upper(c)] + rest
  {
    hide Vary.Upper, Vary.Lower;
    LowerCaseStays(rest);
    assert ([c] + rest)[1..] == rest;
  }

  lemma LettersAreTokens(s: string)
    requires forall i :: 0 <= i < |s| ==> 'a' <= s[i] <= 'z'
    ensures forall c :: c in s ==> Vary.IsTokenChar(c)
  {
  }

  /** A hop-by-hop field is stripped before the answer is stored: a client without it shares the answer. */
  lemma StrippedFieldIsIgnored() returns (trace: seq<Action>)
    ensures var h := ExpiringWith("Vary", "Te");
            var req: Headers := map["Te" := ["trailers"]];
            && SharedAnswer(trace, req, h, map[])
            && Vary.NameSet(h) == {"Te"} && !Vary.Agree(req, map[], Vary.NameSet(h))
  {
    hide Vary.Matches, Vary.Extract, IsSpace, SharedAnswer;
    var h := ExpiringWith("Vary", "Te");
    var req: Headers := map["Te" := ["trailers"]];
    NotSpace();
    assert "Te"[0] == 'T' && "Te"[1] == 'e';
    OneName("Te");
    assert "Te" in HOP_BY_HOP && "Te" !in RemoveHopByHop(req);
    Vary.MatchesIsKernel(RemoveHopByHop(req), map[], h);
    trace := AnswerIsShared(h, req, map[]);
    assert Vary.Said(req, "Te").Some?;
  }

  /** The fields that Connection lists are to be removed with it. Only those go that are always removed. */
  lemma ConnectionHonoured(h: Headers)
    ensures var listed := Vary.NamesIn(Values(h, "Connection"));
            (forall n :: n in listed ==> Vary.Canonical(n) !in RemoveHopByHop(h)) <==>
            (forall n :: n in listed ==> Vary.Canonical(n) in HOP_BY_HOP || Vary.Canonical(n) !in h)
  {
    hide Vary.Canonical, Vary.NamesIn;
  }

  /** `Connection: X` leaves X in place. */
  lemma ListedFieldIsForwarded()
    ensures var h: Headers := map["Connection" := ["X"], "X" := ["secret"]];
            "X" in Vary.NamesIn(Values(h, "Connection")) && RemoveHopByHop(h) == map["X" := ["secret"]]
  {
    hide Split, TrimSpace, IsSpace;
    var h: Headers := map["Connection" := ["X"], "X" := ["secret"]];
    BlanksAreSpaces();
    SplitOfPart("X");
    Etag.TrimKeeps("X");
    assert Values(h, "Connection") == ["X"];
    assert Vary.Lists("X", "X") by { assert Split("X")[0] == "X"; }
    Vary.NamesExactly(["X"], "X");
    assert ["X"][0] == "X";
    assert "X" !in HOP_BY_HOP && "Connection" in HOP_BY_HOP;
    assert RemoveHopByHop(h) == map["X" := ["secret"]];
  }

  /** An answer fetched with credentials is a hit for a client without any, in a shared cache. */
  lemma AuthorizedAnswerIsShared() returns (trace: seq<Action>)
    ensures var req: Headers := map["Authorization" := ["Basic YTpi"]];
            && !SMALL.isPrivate && SharedAnswer(trace, req, PLAIN, map[])
            && Caching.RfcBarred(req, PLAIN) && !Caching.Barred(PLAIN)
  {
    hide Vary.Matches, Vary.Extract, RemoveHopByHop, SharedAnswer, Read;
    var req: Headers := map["Authorization" := ["Basic YTpi"]];
    assert Expiring(PLAIN);
    AnyMatches(PLAIN, RemoveHopByHop(req), map[]);
    trace := AnswerIsShared(PLAIN, req, map[]);
    NoDirectives();
    assert Values(PLAIN, "Cache-Control") == [] && Tokens([]) == [];
  }
}
