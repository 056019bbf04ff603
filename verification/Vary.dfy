/** Selecting a stored response by the request fields its Vary lists: section 4.1 of RFC 9111. */
module Vary {
  import opened Http
  import opened Text

  function NonEmpty(parts: seq<string>): seq<string> {
    if parts == [] then []
    else
      var name := TrimSpace(parts[0]);
      (if name != "" then [name] else []) + NonEmpty(parts[1..])
  }

  function NamesIn(lines: seq<string>): seq<string> {
    if lines == [] then [] else NonEmpty(Split(lines[0])) + NamesIn(lines[1..])
  }

  /** The names a response's Vary lists, as spelled. */
  function Names(h: Headers): seq<string> {
    NamesIn(Values(h, "Vary"))
  }

  function NameSet(h: Headers): set<string> {
    set n | n in Names(h)
  }

  /** What a request says under a name: nothing, or its values joined into one. */
  function Said(req: Headers, name: string): Option<string> {
    if name !in req then None else Some(Join(req[name], ", "))
  }

  /** normalizeVaryHeaders applied to the request's values. */
  function Normalized(req: Headers, name: string): (vs: seq<string>)
    ensures |vs| <= 1
    ensures vs == (if Said(req, name).None? then [] else [Said(req, name).value])
  {
    if name !in req || |req[name]| == 1 then Values(req, name) else [Join(req[name], ", ")]
  }

  /** ExtractVaryHeaders, as a map over the listed names. */
  function Extract(req: Headers, resp: Headers): Headers {
    map n | n in NameSet(resp) :: Normalized(req, n)
  }

  predicate Matches(req: Headers, vary: Headers) {
    || vary == map[]
    || ("*" !in vary
        && forall n :: n in vary ==>
             |Normalized(req, n)| == |vary[n]|
             && (|Normalized(req, n)| == 1 ==> vary[n][0] == Normalized(req, n)[0]))
  }

  /** Two requests agree on every name a response lists. */
  predicate Agree(a: Headers, b: Headers, names: set<string>) {
    forall n :: n in names ==> Said(a, n) == Said(b, n)
  }

  /** Matching is the kernel of normalisation. */
  lemma MatchesIsKernel(a: Headers, b: Headers, resp: Headers)
    ensures Matches(b, Extract(a, resp)) <==> "*" !in NameSet(resp) && Agree(a, b, NameSet(resp))
  {
    var vary := Extract(a, resp);
    assert vary.Keys == NameSet(resp);
    if "*" !in NameSet(resp) && Agree(a, b, NameSet(resp)) {
      forall n | n in vary
        ensures Normalized(b, n) == vary[n]
      {
        assert Said(a, n) == Said(b, n);
      }
    }
    if Matches(b, vary) {
      forall n | n in NameSet(resp)
        ensures Said(a, n) == Said(b, n)
      {
        assert n in vary && vary[n] == Normalized(a, n);
      }
    }
  }

  /** For a "*"-free Vary, "is answered by what was stored for" is an equivalence on requests. */
  lemma MatchesIsEquivalence(a: Headers, b: Headers, c: Headers, resp: Headers)
    requires "*" !in NameSet(resp)
    ensures Matches(a, Extract(a, resp))
    ensures Matches(b, Extract(a, resp)) <==> Matches(a, Extract(b, resp))
    ensures Matches(b, Extract(a, resp)) && Matches(c, Extract(b, resp)) ==> Matches(c, Extract(a, resp))
  {
    MatchesIsKernel(a, a, resp);
    MatchesIsKernel(a, b, resp);
    MatchesIsKernel(b, a, resp);
    MatchesIsKernel(b, c, resp);
    MatchesIsKernel(a, c, resp);
  }

  /** Among stored values over the same "*"-free names, a request matches exactly its own. */
  lemma MatchesOnlyOwn(req: Headers, other: Headers, vary: Headers, resp: Headers, from: Headers)
    requires vary == Extract(other, from) && NameSet(from) == NameSet(resp) && "*" !in NameSet(resp)
    ensures Matches(req, vary) <==> vary == Extract(req, resp)
  {
    MatchesIsKernel(other, req, from);
    var own := Extract(req, resp);
    if Matches(req, vary) {
      forall n | n in NameSet(resp)
        ensures vary[n] == own[n]
      {
        assert Said(other, n) == Said(req, n);
      }
      assert vary.Keys == own.Keys;
    }
    if vary == own {
      forall n | n in NameSet(resp)
        ensures Said(other, n) == Said(req, n)
      {
        assert vary[n] == own[n];
      }
    }
  }

  /** The names are the comma-separated parts of the Vary lines, trimmed, except empty ones. */
  lemma {:induction false} NamesExactly(lines: seq<string>, name: string)
    ensures name in NamesIn(lines) <==> name != "" && exists i :: 0 <= i < |lines| && Lists(lines[i], name)
  {
    hide Split, Lists;
    if lines != [] {
      NamesExactly(lines[1..], name);
      LineLists(lines[0], name);
      assert forall i :: 0 < i < |lines| ==> lines[i] == lines[1..][i - 1];
      if name in NamesIn(lines[1..]) {
        var i :| 0 <= i < |lines[1..]| && Lists(lines[1..][i], name);
        assert Lists(lines[i + 1], name);
      }
    }
  }

  /** One of the parts of the line is this name, with white space around it. */
  predicate Lists(line: string, name: string) {
    exists j :: 0 <= j < |Split(line)| && TrimSpace(Split(line)[j]) == name
  }

  lemma LineLists(line: string, name: string)
    ensures name in NonEmpty(Split(line)) <==> name != "" && Lists(line, name)
  {
    hide Split, TrimSpace;
    NonEmptyExactly(Split(line), name);
  }

  lemma {:induction false} NonEmptyExactly(parts: seq<string>, name: string)
    ensures name in NonEmpty(parts) <==> name != "" && exists j :: 0 <= j < |parts| && TrimSpace(parts[j]) == name
  {
    hide TrimSpace;
    if parts != [] {
      NonEmptyExactly(parts[1..], name);
      assert forall j :: 0 < j < |parts| ==> parts[j] == parts[1..][j - 1];
      if name in NonEmpty(parts[1..]) {
        var j :| 0 <= j < |parts[1..]| && TrimSpace(parts[1..][j]) == name;
        assert TrimSpace(parts[j + 1]) == name;
      }
    }
  }

  /** One value or another under a listed name, or a value and none, is no match. */
  lemma AnotherValueIsNoMatch(a: Headers, b: Headers, resp: Headers, name: string)
    requires name in NameSet(resp) && name in a && |a[name]| == 1
    requires name in b ==> |b[name]| == 1 && b[name] != a[name]
    ensures !Matches(b, Extract(a, resp))
    ensures !Matches(a, Extract(b, resp))
  {
    hide Matches, Extract;
    MatchesIsKernel(a, b, resp);
    MatchesIsKernel(b, a, resp);
    assert Said(a, name) != Said(b, name);
  }

  /* ---- Names as spelled, and the fields they mean ---- */

  /** The bytes a field name may consist of: token of section 5.6.2 of RFC 9110. */
  predicate IsTokenChar(c: char) {
    'a' <= c <= 'z' || 'A' <= c <= 'Z' || '0' <= c <= '9' || c in "!#$%&'*+-.^_`|~"
  }

  function Upper(c: char): char {
    if 'a' <= c <= 'z' then c - 'a' + 'A' else c
  }

  function Lower(c: char): char {
    if 'A' <= c <= 'Z' then c - 'A' + 'a' else c
  }

  /** Upper case at the start and after a hyphen, lower case elsewhere. */
  function Cased(s: string, upper: bool): (r: string)
    ensures |r| == |s|
  {
    if s == "" then "" else [if upper then Upper(s[0]) else Lower(s[0])] + Cased(s[1..], s[0] == '-')
  }

  /** http.CanonicalHeaderKey: a name that is no token is left alone. */
  function Canonical(name: string): string {
    if forall c :: c in name ==> IsTokenChar(c) then Cased(name, true) else name
  }

  /** A header map as net/http fills it. */
  ghost predicate CanonicalKeys(h: Headers) {
    forall k :: k in h ==> Canonical(k) == k
  }

  /** Two requests agree on the fields a list of names means, whatever their spelling. */
  ghost predicate AgreeOnFields(a: Headers, b: Headers, names: set<string>) {
    forall n :: n in names ==> Said(a, Canonical(n)) == Said(b, Canonical(n))
  }

  /** Every name is also listed in its canonical spelling. */
  ghost predicate SpelledOut(names: set<string>) {
    forall n :: n in names ==> Canonical(n) in names
  }

  lemma {:induction false} CasedTwice(s: string, upper: bool)
    ensures Cased(Cased(s, upper), upper) == Cased(s, upper)
    ensures (forall c :: c in s ==> IsTokenChar(c)) ==> forall c :: c in Cased(s, upper) ==> IsTokenChar(c)
  {
    if s != "" {
      var r := Cased(s, upper);
      CasedTwice(s[1..], s[0] == '-');
      assert r[1..] == Cased(s[1..], s[0] == '-') && (r[0] == '-' <==> s[0] == '-');
      if forall c :: c in s ==> IsTokenChar(c) {
        assert s[0] in s;
        assert IsTokenChar(r[0]);
      }
    }
  }

  lemma CanonicalTwice(name: string)
    ensures Canonical(Canonical(name)) == Canonical(name)
  {
    hide IsTokenChar, Cased;
    CasedTwice(name, true);
  }

  /** A request with one field that no listed name spells, and one without it. */
  lemma Overlooked(resp: Headers, name: string)
    requires "*" !in NameSet(resp) && name in NameSet(resp) && Canonical(name) !in NameSet(resp)
    ensures var a: Headers := map[Canonical(name) := ["x"]];
            CanonicalKeys(a) && CanonicalKeys(map[]) && Matches(map[], Extract(a, resp))
            && !AgreeOnFields(a, map[], NameSet(resp))
  {
    hide Canonical, Matches, Extract;
    var a: Headers := map[Canonical(name) := ["x"]];
    CanonicalTwice(name);
    assert forall n :: n in NameSet(resp) ==> Said(a, n) == None == Said(map[], n);
    MatchesIsKernel(a, map[], resp);
    assert Said(a, Canonical(name)).Some?;
  }

  /** Matching compares names as they are spelled, and requests have canonical names. So requests that match agree on
      the fields that Vary means exactly when each is also listed in its canonical spelling, or the star is. */
  lemma MatchingMeansAgreeing(resp: Headers)
    ensures (forall a, b :: CanonicalKeys(a) && CanonicalKeys(b) && Matches(b, Extract(a, resp)) ==>
               AgreeOnFields(a, b, NameSet(resp)))
            <==> "*" in NameSet(resp) || SpelledOut(NameSet(resp))
  {
    hide Canonical, Matches, Extract, CanonicalKeys;
    forall a, b | Matches(b, Extract(a, resp)) && ("*" in NameSet(resp) || SpelledOut(NameSet(resp)))
      ensures AgreeOnFields(a, b, NameSet(resp))
    {
      MatchesIsKernel(a, b, resp);
    }
    if "*" !in NameSet(resp) && !SpelledOut(NameSet(resp)) {
      var name :| name in NameSet(resp) && Canonical(name) !in NameSet(resp);
      Overlooked(resp, name);
    }
  }

  /** The other direction always holds: spelling can only lose a comparison. */
  lemma AgreeingMeansMatching(a: Headers, b: Headers, resp: Headers)
    requires CanonicalKeys(a) && CanonicalKeys(b) && "*" !in NameSet(resp) && AgreeOnFields(a, b, NameSet(resp))
    ensures Matches(b, Extract(a, resp))
  {
    hide Canonical, Matches, Extract;
    MatchesIsKernel(a, b, resp);
    forall n | n in NameSet(resp)
      ensures Said(a, n) == Said(b, n)
    {
      if Canonical(n) == n {
        assert Said(a, Canonical(n)) == Said(b, Canonical(n));
      }
    }
  }

  /* ---- The loops ---- */

  lemma {:induction false} NamesInAppend(a: seq<string>, b: seq<string>)
    ensures NamesIn(a + b) == NamesIn(a) + NamesIn(b)
  {
    if a == [] {
      assert a + b == b;
    } else {
      var ab := a + b;
      assert ab[0] == a[0] && ab[1..] == a[1..] + b;
      calc {
        NamesIn(ab);
        NonEmpty(Split(a[0])) + NamesIn(a[1..] + b);
        { NamesInAppend(a[1..], b); }
        NonEmpty(Split(a[0])) + (NamesIn(a[1..]) + NamesIn(b));
        (NonEmpty(Split(a[0])) + NamesIn(a[1..])) + NamesIn(b);
      }
    }
  }

  lemma {:induction false} NonEmptyAppend(a: seq<string>, part: string)
    ensures NonEmpty(a + [part]) == NonEmpty(a) + (if TrimSpace(part) != "" then [TrimSpace(part)] else [])
  {
    hide TrimSpace;
    if a == [] {
      assert [part][1..] == [];
    } else {
      var ap := a + [part];
      assert ap[0] == a[0] && ap[1..] == a[1..] + [part];
      NonEmptyAppend(a[1..], part);
      var head := if TrimSpace(a[0]) != "" then [TrimSpace(a[0])] else [];
      var last := if TrimSpace(part) != "" then [TrimSpace(part)] else [];
      assert NonEmpty(ap) == head + (NonEmpty(a[1..]) + last) == (head + NonEmpty(a[1..])) + last;
    }
  }

  method GetVaryHeaderNames(headers: Headers) returns (names: seq<string>)
    ensures names == Names(headers)
  {
    hide TrimSpace, Split;
    names := [];
    var lines := Values(headers, "Vary");
    for i := 0 to |lines|
      invariant names == NamesIn(lines[..i])
    {
      ghost var before := names;
      var parts := Split(lines[i]);
      for j := 0 to |parts|
        invariant names == before + NonEmpty(parts[..j])
      {
        NonEmptyAppend(parts[..j], parts[j]);
        assert parts[..j + 1] == parts[..j] + [parts[j]];
        var field := TrimSpace(parts[j]);
        if field != "" {
          names := names + [field];
        }
      }
      assert parts[..|parts|] == parts;
      NamesInAppend(lines[..i], [lines[i]]);
      NamesInOne(lines[i]);
      assert lines[..i + 1] == lines[..i] + [lines[i]];
    }
    assert lines[..|lines|] == lines;
  }

  lemma NamesInOne(line: string)
    ensures NamesIn([line]) == NonEmpty(Split(line))
  {
    assert NamesIn([line]) == NonEmpty(Split(line)) + [];
  }

  method ExtractVaryHeaders(req: Headers, resp: Headers) returns (relevant: Headers)
    ensures relevant == Extract(req, resp)
  {
    hide NamesIn, Normalized;
    var names := GetVaryHeaderNames(resp);
    relevant := map[];
    for i := 0 to |names|
      invariant relevant.Keys == set n | n in names[..i]
      invariant forall n :: n in relevant ==> relevant[n] == Normalized(req, n)
    {
      relevant := relevant[names[i] := Normalized(req, names[i])];
      assert names[..i + 1] == names[..i] + [names[i]];
    }
    assert names[..|names|] == names;
    assert relevant.Keys == NameSet(resp);
  }
}
