/** Entity-tag comparison and the list syntax of If-None-Match. */
module Etag {
  import opened Text

  /** A Go slice expression out of range panics; it is an outcome of its own. */
  datatype Comparison = Same | Different | Panics

  predicate IsWeak(t: string) {
    "W/" <= t
  }

  function Opaque(t: string): string {
    if IsWeak(t) then t[2..] else t
  }

  function EtagsMatch(a: string, b: string): Comparison {
    if a == b then Same
    else if |a| < 2 then Panics
    else if a[..2] == "W/" then (if a[2..] == b then Same else Different)
    else if |b| < 2 then Panics
    else if b[..2] == "W/" then (if a == b[2..] then Same else Different)
    else Different
  }

  /** The weak comparison of section 8.8.3.2 of RFC 9110. */
  predicate WeakEqual(a: string, b: string) {
    Opaque(a) == Opaque(b)
  }

  /** entity-tag of section 8.8.3 of RFC 9110: an optional W/ and a quoted string without quotes inside. */
  predicate WellFormed(t: string) {
    var o := Opaque(t);
    |o| >= 2 && o[0] == '"' && o[|o| - 1] == '"' && forall i :: 0 < i < |o| - 1 ==> o[i] != '"'
  }

  lemma PanicsExactlyWhen(a: string, b: string)
    ensures EtagsMatch(a, b).Panics? <==> a != b && (|a| < 2 || (!IsWeak(a) && |b| < 2))
  {
  }

  /** When it answers at all, the comparison is the RFC's except that `W/W/x` also equals `W/x`. */
  lemma ComparisonIsWeak(a: string, b: string)
    requires !EtagsMatch(a, b).Panics?
    ensures (EtagsMatch(a, b).Same? <==> WeakEqual(a, b)) <==> !(IsWeak(b) && a == "W/" + b)
  {
    assert IsWeak(a) ==> a == "W/" + a[2..];
    assert IsWeak(b) ==> b == "W/" + b[2..];
    if IsWeak(b) && a == "W/" + b {
      assert a[2..] == b && b != b[2..];
    }
  }

  lemma WellFormedComparison(a: string, b: string)
    requires WellFormed(a) && WellFormed(b)
    ensures EtagsMatch(a, b) == if WeakEqual(a, b) then Same else Different
  {
    PanicsExactlyWhen(a, b);
    ComparisonIsWeak(a, b);
    assert a == "W/" + b ==> Opaque(a) == b;
  }

  /** A short stored tag, such as the empty one of a response without an ETag, brings the comparison down. */
  lemma MissingTagPanics()
    ensures EtagsMatch("\"v\"", "").Panics?
    ensures EtagsMatch("\"v\"", "*").Panics?
  {
    assert "\"v\""[..2] == "\"v";
  }

  /* ---- If-None-Match as a list of tags ---- */

  /** Split at the commas outside quoted strings. */
  function SplitTags(s: string, quoted: bool): (parts: seq<string>)
    ensures |parts| >= 1
  {
    if s == "" then [""]
    else
      var rest := SplitTags(s[1..], quoted != (s[0] == '"'));
      if s[0] == ',' && !quoted then [""] + rest else [[s[0]] + rest[0]] + rest[1..]
  }

  function TrimAll(parts: seq<string>): (r: seq<string>)
    ensures |r| == |parts|
    ensures forall i :: 0 <= i < |r| ==> r[i] == TrimSpace(parts[i])
  {
    seq(|parts|, i requires 0 <= i < |parts| => TrimSpace(parts[i]))
  }

  /** The entity tags a field value lists. */
  function Tags(s: string): seq<string> {
    TrimAll(SplitTags(s, false))
  }

  /** Whether the text ends inside a quoted string. */
  predicate EndsQuoted(s: string, quoted: bool) {
    if s == "" then quoted else EndsQuoted(s[1..], quoted != (s[0] == '"'))
  }

  lemma {:induction false} SplitTagsOfComma(a: string, b: string, quoted: bool)
    requires !EndsQuoted(a, quoted)
    ensures SplitTags(a + "," + b, quoted) == SplitTags(a, quoted) + SplitTags(b, false)
  {
    var s := a + "," + b;
    if a == "" {
      assert s[0] == ',' && s[1..] == b;
    } else {
      var q := quoted != (a[0] == '"');
      var left, right := SplitTags(a[1..], q), SplitTags(b, false);
      assert s[0] == a[0] && s[1..] == a[1..] + "," + b;
      assert SplitTags(s[1..], q) == left + right by {
        SplitTagsOfComma(a[1..], b, q);
      }
      SplitTagsStep(s, quoted, left, right);
      assert SplitTags(s, quoted) == SplitTags(a, quoted) + right;
    }
  }

  lemma SplitTagsStep(s: string, quoted: bool, left: seq<string>, right: seq<string>)
    requires s != "" && left != [] && SplitTags(s[1..], quoted != (s[0] == '"')) == left + right
    ensures SplitTags(s, quoted) ==
            (if s[0] == ',' && !quoted then [""] + left else [[s[0]] + left[0]] + left[1..]) + right
  {
  }

  lemma TagsOfSpace(b: string)
    ensures Tags(" " + b) == Tags(b)
  {
    hide TrimSpace;
    assert (" " + b)[1..] == b;
    var y, z := SplitTags(b, false), SplitTags(" " + b, false);
    assert z == [" " + y[0]] + y[1..];
    TrimOfSpace(y[0]);
    forall i | 0 <= i < |y|
      ensures TrimAll(y)[i] == TrimAll(z)[i]
    {
      assert i > 0 ==> z[i] == y[i];
    }
  }

  /** Appending a list to text that closes its quotes concatenates the tags. */
  lemma TagsOfPair(a: string, b: string)
    requires !EndsQuoted(a, false)
    ensures Tags(a + ", " + b) == Tags(a) + Tags(b)
  {
    hide TrimSpace;
    assert a + ", " + b == a + "," + (" " + b);
    SplitTagsOfComma(a, " " + b, false);
    TagsOfSpace(b);
    var x, y := SplitTags(a, false), SplitTags(" " + b, false);
    assert TrimAll(x + y) == TrimAll(x) + TrimAll(y);
  }

  /** A character that does not split extends an undivided text. */
  lemma Undivided(s: string, quoted: bool)
    requires s != "" && (s[0] != ',' || quoted)
    requires SplitTags(s[1..], quoted != (s[0] == '"')) == [s[1..]]
    ensures SplitTags(s, quoted) == [s]
  {
    var rest := [s[1..]];
    assert rest[1..] == [] && [s[0]] + rest[0] == s;
  }

  lemma {:induction false} InsideQuotes(u: string)
    requires '"' !in u
    ensures SplitTags(u + "\"", true) == [u + "\""]
    ensures !EndsQuoted(u + "\"", true)
  {
    var s := u + "\"";
    if u == "" {
      assert s[0] == '"' && s[1..] == "";
    } else {
      assert s[0] == u[0] && s[1..] == u[1..] + "\"";
      assert u[0] in u && '"' !in u[1..];
      InsideQuotes(u[1..]);
    }
    Undivided(s, true);
  }

  lemma QuotedIsOneTag(o: string)
    requires WellFormed(o) && !IsWeak(o)
    ensures SplitTags(o, false) == [o] && !EndsQuoted(o, false)
  {
    var u := o[1..|o| - 1];
    assert o[1..] == u + "\"";
    assert forall i :: 0 <= i < |u| ==> u[i] == o[i + 1];
    InsideQuotes(u);
    Undivided(o, false);
  }

  lemma TrimKeeps(s: string)
    requires s != "" && !IsSpace(s[0]) && !IsSpace(s[|s| - 1])
    ensures TrimSpace(s) == s
  {
  }

  lemma OneTag(t: string)
    requires WellFormed(t)
    ensures SplitTags(t, false) == [t] && !EndsQuoted(t, false)
  {
    hide SplitTags;
    var o := Opaque(t);
    if IsWeak(t) {
      var slash := "/" + o;
      assert t[0] == 'W' && t[1..] == slash && slash[1..] == o;
      assert !IsWeak(o);
      QuotedIsOneTag(o);
      Undivided(slash, false);
      Undivided(t, false);
    } else {
      QuotedIsOneTag(t);
    }
  }

  lemma WellFormedIsOneTag(t: string)
    requires WellFormed(t)
    ensures Tags(t) == [t] && !EndsQuoted(t, false)
  {
    hide IsSpace, TrimSpace, SplitTags;
    OneTag(t);
    SpacesAreNotTags();
    assert t[|t| - 1] == '"' && (t[0] == '"' || t[0] == 'W');
    TrimKeeps(t);
    assert TrimAll([t]) == [t];
  }

  lemma SpacesAreNotTags()
    ensures !IsSpace('"') && !IsSpace('W')
  {
  }

  /** The tags in a combined If-None-Match are the stored ones, then the client's own. */
  lemma {:induction false} CombinedTags(stored: seq<string>, client: seq<string>)
    requires forall i :: 0 <= i < |stored| ==> WellFormed(stored[i])
    ensures client != [] ==> Tags(Join(stored + client, ", ")) == stored + Tags(Join(client, ", "))
    ensures client == [] && stored != [] ==> Tags(Join(stored, ", ")) == stored
  {
    hide Tags, WellFormed, EndsQuoted;
    if stored == [] {
      assert stored + client == client;
      assert [] + Tags(Join(client, ", ")) == Tags(Join(client, ", "));
    } else {
      var t, rest := stored[0], stored[1..];
      WellFormedIsOneTag(t);
      CombinedTags(rest, client);
      assert (stored + client)[1..] == rest + client;
      if rest + client != [] {
        TagsOfPair(t, Join(rest + client, ", "));
        assert client == [] ==> rest + client == rest && stored + client == stored;
        assert [t] + rest == stored;
        if client != [] {
          var own := Tags(Join(client, ", "));
          assert [t] + (rest + own) == stored + own;
        }
      } else {
        assert stored == [t];
      }
    }
  }
}
