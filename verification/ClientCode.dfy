/** The loops of the caching client, each proved against the functions the rest of the model uses. */
module ClientCode {
  import opened Http
  import opened Text
  import opened Freshness
  import opened Client
  import opened Revalidation
  import Etag
  import Vary

  /* ---- Selection ---- */

  lemma {:induction false} CandidatesAppend(req: Headers, value: CachedResponses, r: CachedResponse)
    ensures Candidates(req, value + [r]) ==
            Candidates(req, value) + (if Vary.Matches(req, r.vary) then [r] else [])
  {
    hide Vary.Matches;
    if value == [] {
      assert [r][1..] == [];
    } else {
      assert (value + [r])[1..] == value[1..] + [r] && (value + [r])[0] == value[0];
      CandidatesAppend(req, value[1..], r);
      var head := if Vary.Matches(req, value[0].vary) then [value[0]] else [];
      var last := if Vary.Matches(req, r.vary) then [r] else [];
      assert head + (Candidates(req, value[1..]) + last) == (head + Candidates(req, value[1..])) + last;
    }
  }

  method SelectResponseCandidates(req: Headers, value: CachedResponses) returns (candidates: CachedResponses)
    ensures candidates == Candidates(req, value)
  {
    hide Vary.Matches;
    candidates := [];
    for i := 0 to |value|
      invariant candidates == Candidates(req, value[..i])
    {
      CandidatesAppend(req, value[..i], value[i]);
      assert value[..i + 1] == value[..i] + [value[i]];
      if Vary.Matches(req, value[i].vary) {
        candidates := candidates + [value[i]];
      }
    }
    assert value[..|value|] == value;
  }

  lemma {:induction false} MaxDateAppend(p: Platform, rs: CachedResponses, r: CachedResponse)
    ensures MaxDate(p, rs + [r]) == Max(MaxDate(p, rs), StoredDate(p, r))
    ensures MaxDate(p, rs) >= ZERO_TIME
  {
    hide StoredDate;
    if rs == [] {
      assert [r][1..] == [];
    } else {
      assert (rs + [r])[1..] == rs[1..] + [r] && (rs + [r])[0] == rs[0];
      MaxDateAppend(p, rs[1..], r);
    }
  }

  lemma {:induction false} DatedAtAppend(p: Platform, rs: CachedResponses, r: CachedResponse, date: int)
    ensures DatedAt(p, rs + [r], date) == DatedAt(p, rs, date) + (if StoredDate(p, r) == date then [r] else [])
    ensures date > MaxDate(p, rs) ==> DatedAt(p, rs, date) == []
  {
    hide StoredDate;
    if rs == [] {
      assert [r][1..] == [];
    } else {
      assert (rs + [r])[1..] == rs[1..] + [r] && (rs + [r])[0] == rs[0];
      DatedAtAppend(p, rs[1..], r, date);
      var head := if StoredDate(p, rs[0]) == date then [rs[0]] else [];
      var last := if StoredDate(p, r) == date then [r] else [];
      assert head + (DatedAt(p, rs[1..], date) + last) == (head + DatedAt(p, rs[1..], date)) + last;
    }
  }

  method SelectMostRecentCandidates(p: Platform, candidates: CachedResponses) returns (recent: CachedResponses)
    ensures recent == MostRecent(p, candidates)
  {
    hide StoredDate;
    recent := [];
    var maxDate := ZERO_TIME;
    for i := 0 to |candidates|
      invariant maxDate == MaxDate(p, candidates[..i])
      invariant recent == DatedAt(p, candidates[..i], maxDate)
    {
      var candidate := candidates[i];
      var date := StoredDate(p, candidate);
      MaxDateAppend(p, candidates[..i], candidate);
      DatedAtAppend(p, candidates[..i], candidate, Max(maxDate, date));
      assert candidates[..i + 1] == candidates[..i] + [candidate];
      if date > maxDate {
        recent := [candidate];
        maxDate := date;
      } else if date == maxDate {
        recent := recent + [candidate];
      }
    }
    assert candidates[..|candidates|] == candidates;
  }

  /* ---- Conditional requests ---- */

  lemma {:induction false} StoredValuesAppend(value: CachedResponses, r: CachedResponse, name: string)
    ensures StoredValues(value + [r], name) == StoredValues(value, name) + Values(r.headers, name)
  {
    if value == [] {
      assert [r][1..] == [];
      assert Values(r.headers, name) + [] == Values(r.headers, name);
    } else {
      assert (value + [r])[1..] == value[1..] + [r] && (value + [r])[0] == value[0];
      StoredValuesAppend(value[1..], r, name);
      var head := Values(value[0].headers, name);
      assert head + (StoredValues(value[1..], name) + Values(r.headers, name)) ==
             (head + StoredValues(value[1..], name)) + Values(r.headers, name);
    }
  }

  method CollectValidators(value: CachedResponses) returns (etags: seq<string>, lastModified: seq<string>)
    ensures etags == StoredValues(value, "Etag") && lastModified == StoredValues(value, "Last-Modified")
  {
    etags, lastModified := [], [];
    for i := 0 to |value|
      invariant etags == StoredValues(value[..i], "Etag")
      invariant lastModified == StoredValues(value[..i], "Last-Modified")
    {
      StoredValuesAppend(value[..i], value[i], "Etag");
      StoredValuesAppend(value[..i], value[i], "Last-Modified");
      assert value[..i + 1] == value[..i] + [value[i]];
      etags := etags + Values(value[i].headers, "Etag");
      lastModified := lastModified + Values(value[i].headers, "Last-Modified");
    }
    assert value[..|value|] == value;
  }

  method LatestDate(p: Platform, dates: seq<string>) returns (maxTime: int, max: string)
    ensures (maxTime, max) == LatestOf(p, dates)
  {
    maxTime, max := ZERO_TIME, "";
    for i := 0 to |dates|
      invariant (maxTime, max) == LatestOf(p, dates[..i])
    {
      assert dates[..i + 1][..i] == dates[..i];
      var t := p.parseTime(dates[i]);
      if t.Some? {
        if maxTime < t.value {
          maxTime, max := t.value, dates[i];
        }
      }
    }
    assert dates[..|dates|] == dates;
  }

  method AddConditionalRequestInformation(p: Platform, req: Headers, value: CachedResponses) returns (r: Conditioned)
    ensures r == AddConditional(p, req, value)
  {
    hide LatestOf, StoredValues, Join;
    var etags, lastModified := CollectValidators(value);
    var headers := req;
    var hasTags, hasDates := etags != [], lastModified != [];
    if etags != [] {
      headers := headers["If-None-Match" := [Join(etags + Values(req, "If-None-Match"), ", ")]];
    }
    if lastModified != [] {
      if "If-Modified-Since" !in req {
        if |lastModified| == 1 {
          headers := headers["If-Modified-Since" := [lastModified[0]]];
        } else {
          var t, d := LatestDate(p, lastModified);
          if t != ZERO_TIME {
            headers := headers["If-Modified-Since" := [d]];
          }
        }
      } else {
        hasDates := false;
      }
    }
    r := Conditioned(headers, hasTags || hasDates,
                     |Values(req, "If-None-Match")| != 0 || |Values(req, "If-Modified-Since")| != 0);
  }

  /* ---- Matching and refreshing ---- */

  method FindStored(value: CachedResponses, resp: Headers) returns (m: Match)
    ensures m == FindValidated(value, resp)
  {
    hide Etag.EtagsMatch;
    var etag := First(resp, "Etag");
    if etag != "" {
      for i := 0 to |value|
        invariant ByTag(value, etag, i) == ByTag(value, etag, 0)
      {
        match Etag.EtagsMatch(etag, First(value[i].headers, "Etag")) {
          case Same => return At(i);
          case Panics => return Panics;
          case Different =>
        }
      }
    }
    var lastModified := First(resp, "Last-Modified");
    if lastModified != "" {
      for i := 0 to |value|
        invariant ByDate(value, lastModified, i) == ByDate(value, lastModified, 0)
      {
        if lastModified == First(value[i].headers, "Last-Modified") {
          return At(i);
        }
      }
    }
    return Nowhere;
  }

  /** The loop over the fields of a 304. */
  method MergeHeaders(stored: Headers, update: Headers) returns (merged: Headers)
    ensures merged == Merge(stored, update)
  {
    merged := stored;
    var rest := update.Keys;
    while rest != {}
      invariant rest <= update.Keys
      invariant merged == Merge(stored, update - rest)
      decreases rest
    {
      var key :| key in rest;
      if key != "Content-Length" {
        merged := merged[key := update[key]];
      }
      rest := rest - {key};
    }
    assert update - {} == update;
  }

  /** Storing an ingested response in the entry that was read. */
  method InsertResponse(req: Headers, value: CachedResponses, r: CachedResponse) returns (updated: CachedResponses)
    ensures updated == Insert(req, value, r)
  {
    hide Vary.Matches, Insert;
    ghost var n := InsertByIndex(req, value, r);
    for i := 0 to |value|
      invariant i <= n
    {
      if Vary.Matches(req, value[i].vary) {
        return value[i := r];
      }
    }
    updated := value + [r];
  }
}
