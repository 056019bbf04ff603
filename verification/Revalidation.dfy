/** Conditional requests, matching a 304 to a stored response, and refreshing it: section 4.3 of RFC 9111. */
module Revalidation {
  import opened Http
  import opened Text
  import opened Freshness
  import opened Client
  import Etag
  import Vary

  /* ---- Adding validators to a request ---- */

  function StoredValues(value: CachedResponses, name: string): seq<string> {
    if value == [] then [] else Values(value[0].headers, name) + StoredValues(value[1..], name)
  }

  /** The first of the dates that parse to the latest instant after the zero time. */
  function LatestOf(p: Platform, dates: seq<string>): (int, string) {
    if dates == [] then (ZERO_TIME, "")
    else
      var n := |dates| - 1;
      var (t, d) := LatestOf(p, dates[..n]);
      var x := p.parseTime(dates[n]);
      if x.Some? && t < x.value then (x.value, dates[n]) else (t, d)
  }

  datatype Conditioned = Conditioned(headers: Headers, has: bool, was: bool)

  predicate Conditional(h: Headers) {
    Values(h, "If-None-Match") != [] || Values(h, "If-Modified-Since") != []
  }

  function WithTags(req: Headers, tags: seq<string>): Headers {
    if tags == [] then req
    else req["If-None-Match" := [Join(tags + Values(req, "If-None-Match"), ", ")]]
  }

  function WithDate(p: Platform, req: Headers, dates: seq<string>): Headers {
    if dates == [] || "If-Modified-Since" in req then req
    else if |dates| == 1 then req["If-Modified-Since" := [dates[0]]]
    else
      var (t, d) := LatestOf(p, dates);
      if t != ZERO_TIME then req["If-Modified-Since" := [d]] else req
  }

  function AddConditional(p: Platform, req: Headers, value: CachedResponses): Conditioned {
    var tags, dates := StoredValues(value, "Etag"), StoredValues(value, "Last-Modified");
    Conditioned(
      WithDate(p, WithTags(req, tags), dates),
      tags != [] || (dates != [] && "If-Modified-Since" !in req),
      Conditional(req))
  }

  const VALIDATORS: set<string> := {"If-None-Match", "If-Modified-Since"}

  /** Only the two validator fields change, and without stored validators nothing does. */
  lemma ConditionalTouches(p: Platform, req: Headers, value: CachedResponses)
    ensures var c := AddConditional(p, req, value);
            && (forall k :: k !in VALIDATORS ==> Said(c.headers, k) == Said(req, k))
            && (!c.has ==> c.headers == req)
            && (c.was <==> Conditional(req))
  {
  }

  function Said(h: Headers, k: string): Option<string> {
    Vary.Said(h, k)
  }

  lemma {:induction false} LatestIsMaximal(p: Platform, dates: seq<string>)
    ensures var (t, d) := LatestOf(p, dates);
            && t >= ZERO_TIME
            && (forall i :: 0 <= i < |dates| && p.parseTime(dates[i]).Some? ==> p.parseTime(dates[i]).value <= t)
            && (t != ZERO_TIME ==>
                  exists i :: 0 <= i < |dates| && dates[i] == d && p.parseTime(d) == Some(t)
                              && forall j :: 0 <= j < i ==> p.parseTime(dates[j]) != Some(t))
  {
    if dates != [] {
      var n := |dates| - 1;
      var rest := dates[..n];
      LatestIsMaximal(p, rest);
      var (t, d) := LatestOf(p, rest);
      assert forall i :: 0 <= i < n ==> rest[i] == dates[i];
      if LatestOf(p, dates) == (t, d) && t != ZERO_TIME {
        var i :| 0 <= i < n && rest[i] == d && p.parseTime(d) == Some(t)
                 && forall j :: 0 <= j < i ==> p.parseTime(rest[j]) != Some(t);
        assert dates[i] == d;
      }
    }
  }

  /** The stored values of a field are those of the stored responses. */
  lemma {:induction false} StoredValuesExactly(value: CachedResponses, name: string, v: string)
    ensures v in StoredValues(value, name) <==> exists i :: 0 <= i < |value| && v in Values(value[i].headers, name)
  {
    if value != [] {
      StoredValuesExactly(value[1..], name, v);
      assert forall i :: 0 < i < |value| ==> value[i] == value[1..][i - 1];
      if v in StoredValues(value[1..], name) {
        var i :| 0 <= i < |value[1..]| && v in Values(value[1..][i].headers, name);
        assert v in Values(value[i + 1].headers, name);
      }
    }
  }

  lemma {:induction false} StoredValuesInOrder(a: CachedResponses, b: CachedResponses, name: string)
    ensures StoredValues(a + b, name) == StoredValues(a, name) + StoredValues(b, name)
  {
    if a == [] {
      assert a + b == b;
    } else {
      assert (a + b)[0] == a[0] && (a + b)[1..] == a[1..] + b;
      StoredValuesInOrder(a[1..], b, name);
    }
  }

  /** A date that counts: it can be read and is after the zero time. */
  predicate Counted(p: Platform, date: string) {
    p.parseTime(date).Some? && p.parseTime(date).value > ZERO_TIME
  }

  /** The first of the latest of the dates that count. */
  ghost predicate IsLatest(p: Platform, dates: seq<string>, d: string) {
    exists i :: 0 <= i < |dates| && dates[i] == d && Counted(p, d)
                && (forall j :: 0 <= j < |dates| && p.parseTime(dates[j]).Some? ==>
                      p.parseTime(dates[j]).value <= p.parseTime(d).value)
                && (forall j :: 0 <= j < i ==> p.parseTime(dates[j]) != p.parseTime(d))
  }

  /** The If-Modified-Since that goes upstream: the client's own if it sent any; otherwise the stored date if there is
      one, the first of the latest if there are several, and none if none of several counts. */
  lemma SentDate(p: Platform, req: Headers, value: CachedResponses)
    ensures var sent := AddConditional(p, req, value).headers;
            var dates := StoredValues(value, "Last-Modified");
            && ("If-Modified-Since" in req ==> Values(sent, "If-Modified-Since") == Values(req, "If-Modified-Since"))
            && ("If-Modified-Since" !in req ==>
                  && (|dates| == 1 ==> Values(sent, "If-Modified-Since") == dates)
                  && (|dates| > 1 && (exists i :: 0 <= i < |dates| && Counted(p, dates[i])) ==>
                        && |Values(sent, "If-Modified-Since")| == 1
                        && IsLatest(p, dates, Values(sent, "If-Modified-Since")[0]))
                  && ("If-Modified-Since" !in sent <==>
                        dates == [] || (|dates| > 1 && forall i :: 0 <= i < |dates| ==> !Counted(p, dates[i]))))
  {
    hide StoredValues, LatestOf, Join;
    var dates := StoredValues(value, "Last-Modified");
    LatestIsMaximal(p, dates);
    var (t, d) := LatestOf(p, dates);
    if t != ZERO_TIME {
      var i :| 0 <= i < |dates| && dates[i] == d && p.parseTime(d) == Some(t)
               && forall j :: 0 <= j < i ==> p.parseTime(dates[j]) != Some(t);
      assert Counted(p, dates[i]) && IsLatest(p, dates, d);
    }
  }

  /** Whether the request carries validators of the cache: a stored tag, or a stored date the client left room for. */
  lemma HasExactly(p: Platform, req: Headers, value: CachedResponses)
    ensures AddConditional(p, req, value).has <==>
            || StoredValues(value, "Etag") != []
            || ("If-Modified-Since" !in req && StoredValues(value, "Last-Modified") != [])
    ensures AddConditional(p, req, value).was <==>
            Values(req, "If-None-Match") != [] || Values(req, "If-Modified-Since") != []
  {
  }

  /* ---- Matching a 304 ---- */

  datatype Match = At(i: nat) | Nowhere | Panics

  function ByTag(value: CachedResponses, etag: string, i: nat): (m: Match)
    requires i <= |value|
    ensures m.At? ==> i <= m.i < |value| && Etag.EtagsMatch(etag, First(value[m.i].headers, "Etag")).Same?
    ensures forall j :: i <= j < (if m.At? then m.i else |value|) && !m.Panics? ==>
              Etag.EtagsMatch(etag, First(value[j].headers, "Etag")).Different?
    decreases |value| - i
  {
    if i == |value| then Nowhere
    else
      match Etag.EtagsMatch(etag, First(value[i].headers, "Etag"))
      case Same => At(i)
      case Panics => Panics
      case Different => ByTag(value, etag, i + 1)
  }

  function ByDate(value: CachedResponses, lastModified: string, i: nat): (m: Match)
    requires i <= |value|
    ensures !m.Panics?
    ensures m.At? ==> i <= m.i < |value| && First(value[m.i].headers, "Last-Modified") == lastModified
    ensures forall j :: i <= j < (if m.At? then m.i else |value|) ==>
              First(value[j].headers, "Last-Modified") != lastModified
    decreases |value| - i
  {
    if i == |value| then Nowhere
    else if lastModified == First(value[i].headers, "Last-Modified") then At(i)
    else ByDate(value, lastModified, i + 1)
  }

  /** updateCache's search: by entity tag first, then by Last-Modified. */
  function FindValidated(value: CachedResponses, resp: Headers): (m: Match)
    ensures m.At? ==> m.i < |value|
  {
    var byTag := if First(resp, "Etag") == "" then Nowhere else ByTag(value, First(resp, "Etag"), 0);
    if !byTag.Nowhere? then byTag
    else if First(resp, "Last-Modified") == "" then Nowhere
    else ByDate(value, First(resp, "Last-Modified"), 0)
  }

  /** No tag comparison of the 304 with the first n stored responses settles anything. */
  predicate NoTagBefore(value: CachedResponses, resp: Headers, n: nat)
    requires n <= |value|
  {
    First(resp, "Etag") == ""
    || forall j :: 0 <= j < n ==> Etag.EtagsMatch(First(resp, "Etag"), First(value[j].headers, "Etag")).Different?
  }

  /** The tag of the 304 decides at position i. */
  predicate TagDecides(value: CachedResponses, resp: Headers, i: nat, how: Etag.Comparison)
    requires i < |value|
  {
    && First(resp, "Etag") != "" && NoTagBefore(value, resp, i)
    && Etag.EtagsMatch(First(resp, "Etag"), First(value[i].headers, "Etag")) == how
  }

  /** The 304 repeats the date of position i, and of none before. */
  predicate DateDecides(value: CachedResponses, resp: Headers, i: nat)
    requires i < |value|
  {
    && First(resp, "Last-Modified") != "" && First(value[i].headers, "Last-Modified") == First(resp, "Last-Modified")
    && forall j :: 0 <= j < i ==> First(value[j].headers, "Last-Modified") != First(resp, "Last-Modified")
  }

  /** Position i is the one the 304 is about. */
  predicate Chosen(value: CachedResponses, resp: Headers, i: nat) {
    && i < |value|
    && (TagDecides(value, resp, i, Etag.Same) || (NoTagBefore(value, resp, |value|) && DateDecides(value, resp, i)))
  }

  /** What a 304 validates: the first stored response whose tag matches, unless an earlier comparison panics; only if
      no tag settles it, the first with the same Last-Modified. */
  lemma FindValidatedExactly(value: CachedResponses, resp: Headers)
    ensures var m := FindValidated(value, resp);
            && (forall i: nat :: i < |value| ==>
                  (m == At(i) <==> Chosen(value, resp, i)))
            && (m.Panics? <==> exists i: nat :: i < |value| && TagDecides(value, resp, i, Etag.Panics))
  {
    hide Etag.EtagsMatch;
    var etag := First(resp, "Etag");
    if etag != "" && ByTag(value, etag, 0).Panics? {
      var i := PanicAt(value, etag, 0);
      assert TagDecides(value, resp, i, Etag.Panics);
    }
  }

  lemma {:induction false} PanicAt(value: CachedResponses, etag: string, i: nat) returns (n: nat)
    requires i <= |value| && ByTag(value, etag, i).Panics?
    ensures i <= n < |value| && Etag.EtagsMatch(etag, First(value[n].headers, "Etag")).Panics?
    ensures forall j :: i <= j < n ==> Etag.EtagsMatch(etag, First(value[j].headers, "Etag")).Different?
    decreases |value| - i
  {
    hide Etag.EtagsMatch;
    if Etag.EtagsMatch(etag, First(value[i].headers, "Etag")).Panics? {
      n := i;
    } else {
      n := PanicAt(value, etag, i + 1);
    }
  }

  /* ---- A 304 that is passed through answers the client's own validator ---- */

  /** At most one entity tag per stored response, and a well-formed one. */
  ghost predicate WellTagged(h: Headers) {
    |Values(h, "Etag")| <= 1 && forall t :: t in Values(h, "Etag") ==> Etag.WellFormed(t)
  }

  lemma {:induction false} StoredTags(value: CachedResponses)
    requires forall i :: 0 <= i < |value| ==> WellTagged(value[i].headers)
    ensures forall t :: t in StoredValues(value, "Etag") ==>
              Etag.WellFormed(t) && exists i :: 0 <= i < |value| && First(value[i].headers, "Etag") == t
  {
    hide Etag.WellFormed;
    if value != [] {
      StoredTags(value[1..]);
      forall t | t in StoredValues(value, "Etag")
        ensures Etag.WellFormed(t) && exists i :: 0 <= i < |value| && First(value[i].headers, "Etag") == t
      {
        assert t in Values(value[0].headers, "Etag") || t in StoredValues(value[1..], "Etag");
        if t in Values(value[0].headers, "Etag") {
          assert First(value[0].headers, "Etag") == t;
        } else {
          var i :| 0 <= i < |value[1..]| && First(value[1..][i].headers, "Etag") == t;
          assert value[1..][i] == value[i + 1];
        }
      }
    }
  }

  /** The tags a client listed itself, its field lines combined as section 5.3 of RFC 9110 says. */
  function ClientTags(req: Headers): seq<string> {
    var lines := Values(req, "If-None-Match");
    if lines == [] then [] else Etag.Tags(Join(lines, ", "))
  }

  /** The tags listed in the request that goes upstream: the stored ones, then the client's. */
  lemma SentTags(p: Platform, req: Headers, value: CachedResponses)
    requires forall i :: 0 <= i < |value| ==> WellTagged(value[i].headers)
    ensures ClientTags(AddConditional(p, req, value).headers) == StoredValues(value, "Etag") + ClientTags(req)
  {
    hide Etag.WellFormed, WellTagged, WithDate, WithTags, StoredValues, ClientTags;
    var tags := StoredValues(value, "Etag");
    StoredTags(value);
    TagsOnTheWire(req, tags);
    DateKeepsTags(p, WithTags(req, tags), StoredValues(value, "Last-Modified"));
  }

  lemma DateKeepsTags(p: Platform, h: Headers, dates: seq<string>)
    ensures ClientTags(WithDate(p, h, dates)) == ClientTags(h)
  {
    hide Etag.Tags, Join, LatestOf;
    assert Values(WithDate(p, h, dates), "If-None-Match") == Values(h, "If-None-Match");
  }

  lemma TagsOnTheWire(req: Headers, tags: seq<string>)
    requires forall t :: t in tags ==> Etag.WellFormed(t)
    ensures ClientTags(WithTags(req, tags)) == tags + ClientTags(req)
  {
    hide Etag.WellFormed, Etag.Tags;
    var own := Values(req, "If-None-Match");
    Etag.CombinedTags(tags, own);
    if tags == [] {
      assert [] + ClientTags(req) == ClientTags(req);
    } else {
      var line := Join(tags + own, ", ");
      assert Values(WithTags(req, tags), "If-None-Match") == [line];
      assert Join([line], ", ") == line;
      if own == [] {
        assert tags + own == tags && tags + ClientTags(req) == tags;
      }
    }
  }

  /** If the 304 names a tag that was sent and no stored response is found, the tag is one the client sent. */
  lemma PassedThroughNamesClient(p: Platform, req: Headers, value: CachedResponses, resp: Headers)
    requires forall i :: 0 <= i < |value| ==> WellTagged(value[i].headers)
    requires First(resp, "Etag") != "" && Etag.WellFormed(First(resp, "Etag"))
    requires var sent := ClientTags(AddConditional(p, req, value).headers);
             exists t :: t in sent && Etag.WeakEqual(First(resp, "Etag"), t)
    requires FindValidated(value, resp).Nowhere?
    ensures exists t :: t in ClientTags(req) && Etag.WeakEqual(First(resp, "Etag"), t)
  {
    hide Etag.WellFormed, Etag.WeakEqual, Etag.EtagsMatch, AddConditional, ClientTags, StoredValues, WellTagged, ByDate;
    SentTags(p, req, value);
    StoredTags(value);
    var etag := First(resp, "Etag");
    assert forall i :: 0 <= i < |value| ==> Etag.EtagsMatch(etag, First(value[i].headers, "Etag")).Different?;
    var t :| t in ClientTags(AddConditional(p, req, value).headers) && Etag.WeakEqual(etag, t);
    if t in StoredValues(value, "Etag") {
      var i :| 0 <= i < |value| && First(value[i].headers, "Etag") == t;
      Etag.WellFormedComparison(etag, t);
      assert false;
    }
  }

  /** The same for dates: a 304 that repeats the date that was sent and that no stored response has repeats the
      client's own. */
  lemma PassedThroughRepeatsClient(p: Platform, req: Headers, value: CachedResponses, resp: Headers)
    requires forall i :: 0 <= i < |value| ==> |Values(value[i].headers, "Last-Modified")| <= 1
    requires First(resp, "Etag") == "" && First(resp, "Last-Modified") != ""
    requires First(resp, "Last-Modified") == First(AddConditional(p, req, value).headers, "If-Modified-Since")
    requires FindValidated(value, resp).Nowhere?
    ensures First(resp, "Last-Modified") == First(req, "If-Modified-Since")
  {
    hide StoredValues, LatestOf, Join;
    var date := First(resp, "Last-Modified");
    var dates := StoredValues(value, "Last-Modified");
    if "If-Modified-Since" !in req && date in dates {
      StoredSingly(value, "Last-Modified", date);
      assert false;
    }
    LatestIsMaximal(p, dates);
  }

  lemma {:induction false} StoredSingly(value: CachedResponses, name: string, v: string)
    requires forall i :: 0 <= i < |value| ==> |Values(value[i].headers, name)| <= 1
    requires v in StoredValues(value, name)
    ensures exists i :: 0 <= i < |value| && First(value[i].headers, name) == v
  {
    if v in Values(value[0].headers, name) {
      assert First(value[0].headers, name) == v;
    } else {
      StoredSingly(value[1..], name, v);
      var i :| 0 <= i < |value[1..]| && First(value[1..][i].headers, name) == v;
      assert value[1..][i] == value[i + 1];
    }
  }

  /* ---- Refreshing ---- */

  function Merge(h: Headers, update: Headers): Headers {
    h + (update - {"Content-Length"})
  }

  function MergeAll(h: Headers, updates: seq<Headers>): Headers {
    if updates == [] then h
    else Merge(MergeAll(h, updates[..|updates| - 1]), updates[|updates| - 1])
  }

  /** The last update that names a field, if any. */
  function LastNaming(updates: seq<Headers>, k: string): (n: nat)
    ensures n <= |updates|
    ensures n > 0 ==> k in updates[n - 1]
    ensures forall i :: n <= i < |updates| ==> k !in updates[i]
  {
    if updates == [] then 0
    else if k in updates[|updates| - 1] then |updates|
    else LastNaming(updates[..|updates| - 1], k)
  }

  /** Any sequence of refreshes is a right-biased merge: the last 304 that names a field decides it,
      Content-Length never changes, and no field disappears. */
  lemma {:induction false} MergeAllIsRightBiased(h: Headers, updates: seq<Headers>, k: string)
    ensures Values(MergeAll(h, updates), k) ==
            var n := LastNaming(updates, k);
            if k == "Content-Length" || n == 0 then Values(h, k) else updates[n - 1][k]
    ensures k in h ==> k in MergeAll(h, updates)
    ensures k in MergeAll(h, updates) ==> k in h || exists i :: 0 <= i < |updates| && k in updates[i]
  {
    if updates != [] {
      var m := |updates| - 1;
      MergeAllIsRightBiased(h, updates[..m], k);
      if k in MergeAll(h, updates[..m]) && k !in h {
        var i :| 0 <= i < |updates[..m]| && k in updates[..m][i];
        assert k in updates[i];
      }
    }
  }

  function Refreshed(
      p: Platform, r: CachedResponse, resp: Headers, requested: int, received: int, now: int): CachedResponse
  {
    r.(headers := Merge(r.headers, resp), created := EstimatedCreation(p, resp, requested, received, now))
  }

  /* ---- Storing what was ingested ---- */

  /** Replace the first response that the request matches, or append. */
  function Insert(req: Headers, value: CachedResponses, r: CachedResponse): CachedResponses {
    if value == [] then [r]
    else if Vary.Matches(req, value[0].vary) then [r] + value[1..]
    else [value[0]] + Insert(req, value[1..], r)
  }

  lemma {:induction false} InsertByIndex(req: Headers, value: CachedResponses, r: CachedResponse) returns (n: nat)
    ensures n <= |value|
    ensures forall j :: 0 <= j < n ==> !Vary.Matches(req, value[j].vary)
    ensures n < |value| ==> Vary.Matches(req, value[n].vary) && Insert(req, value, r) == value[n := r]
    ensures n == |value| ==> Insert(req, value, r) == value + [r]
  {
    if value == [] || Vary.Matches(req, value[0].vary) {
      n := 0;
    } else {
      n := InsertByIndex(req, value[1..], r);
      n := n + 1;
    }
  }
}
