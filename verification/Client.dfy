/** The decisions of the caching client: what can be served, what is asked upstream, what is stored. */
module Client {
  import opened Http
  import opened CacheControl
  import opened Freshness
  import Vary

  datatype CachedResponse = CachedResponse(
    contentHash: string,
    status: int,
    headers: Headers,
    vary: Headers,
    created: int
  )

  type CachedResponses = seq<CachedResponse>

  /* ---- Selection ---- */

  function Candidates(req: Headers, value: CachedResponses): CachedResponses {
    if value == [] then []
    else (if Vary.Matches(req, value[0].vary) then [value[0]] else []) + Candidates(req, value[1..])
  }

  /** The Date of a stored response; one that does not parse counts as the zero time. */
  function StoredDate(p: Platform, r: CachedResponse): int {
    if DateOf(p, r.headers).Some? then DateOf(p, r.headers).value else ZERO_TIME
  }

  function MaxDate(p: Platform, rs: CachedResponses): int {
    if rs == [] then ZERO_TIME else Max(StoredDate(p, rs[0]), MaxDate(p, rs[1..]))
  }

  function DatedAt(p: Platform, rs: CachedResponses, date: int): CachedResponses {
    if rs == [] then []
    else (if StoredDate(p, rs[0]) == date then [rs[0]] else []) + DatedAt(p, rs[1..], date)
  }

  function MostRecent(p: Platform, rs: CachedResponses): CachedResponses {
    DatedAt(p, rs, MaxDate(p, rs))
  }

  function Control(r: CachedResponse): Directives {
    Read(Values(r.headers, "Cache-Control")).directives
  }

  /** Fresh enough at an instant to be served without asking. */
  predicate Reusable(p: Platform, r: CachedResponse, at: int) {
    && !Control(r).noCache && !Control(r).mustRevalidate
    && IsFresh(p, r.headers, Control(r), r.created, at)
  }

  /** What makes a response reusable, over the text of its fields: neither no-cache in any form nor a bare
      must-revalidate, and a lifetime that exceeds its age. */
  ghost predicate StillGood(p: Platform, h: Headers, created: int, at: int) {
    var lines := Values(h, "Cache-Control");
    && FirstSaying(Counting(lines), "no-cache").None?
    && !Bare(Counting(lines), "must-revalidate")
    && Lifetime(p, h, TextMeaning(Counting(lines))) > CurrentAge(created, at)
  }

  lemma ReusableExactly(p: Platform, r: CachedResponse, at: int)
    ensures Reusable(p, r, at) <==> StillGood(p, r.headers, r.created, at)
  {
    hide CacheControl.Read, Counting, Bare, FirstSaying, Lifetime, CurrentAge, Amount;
    ReadMeans(Values(r.headers, "Cache-Control"));
  }

  /** The Date of a stored response decides when it can be read, and counts as the zero time when it cannot. */
  lemma StoredDateExactly(p: Platform, r: CachedResponse)
    ensures match p.parseTime(First(r.headers, "Date"))
            case Some(t) => StoredDate(p, r) == t
            case None => StoredDate(p, r) == 0
  {
  }

  /** view holds the stored responses whose file opens. */
  predicate Usable(p: Platform, r: CachedResponse, force: bool, at: int, view: set<CachedResponse>) {
    (force || Reusable(p, r, at)) && r in view
  }

  function FirstUsable(p: Platform, rs: CachedResponses, force: bool, at: int, view: set<CachedResponse>)
    : (r: Option<CachedResponse>)
    ensures r.Some? ==> Usable(p, r.value, force, at, view)
  {
    if rs == [] then None
    else if Usable(p, rs[0], force, at, view) then Some(rs[0])
    else FirstUsable(p, rs[1..], force, at, view)
  }

  function Serve(p: Platform, req: Headers, value: CachedResponses, force: bool, at: int, view: set<CachedResponse>)
    : (r: Option<CachedResponse>)
    ensures r.Some? ==> Usable(p, r.value, force, at, view)
  {
    FirstUsable(p, MostRecent(p, Candidates(req, value)), force, at, view)
  }

  /* What Serve means, by position in the stored list. */

  predicate Latest(p: Platform, req: Headers, value: CachedResponses, i: nat)
    requires i < |value|
  {
    && Vary.Matches(req, value[i].vary)
    && StoredDate(p, value[i]) >= ZERO_TIME
    && forall j :: 0 <= j < |value| && Vary.Matches(req, value[j].vary) ==>
         StoredDate(p, value[j]) <= StoredDate(p, value[i])
  }

  ghost predicate Eligible(
      p: Platform, req: Headers, value: CachedResponses, force: bool, at: int, view: set<CachedResponse>, i: nat)
    requires i < |value|
  {
    && Latest(p, req, value, i) && value[i] in view
    && (force || StillGood(p, value[i].headers, value[i].created, at))
  }

  /** The first element of a list that matches, has a given date and is usable. */
  function Pick(
      p: Platform, req: Headers, value: CachedResponses, date: int, force: bool, at: int, view: set<CachedResponse>)
    : nat
  {
    if value == [] || Picked(p, req, value[0], date, force, at, view) then 0
    else 1 + Pick(p, req, value[1..], date, force, at, view)
  }

  predicate Picked(
      p: Platform, req: Headers, r: CachedResponse, date: int, force: bool, at: int, view: set<CachedResponse>)
  {
    Vary.Matches(req, r.vary) && StoredDate(p, r) == date && Usable(p, r, force, at, view)
  }

  lemma {:induction false} PickIsFirst(
      p: Platform, req: Headers, value: CachedResponses, date: int, force: bool, at: int, view: set<CachedResponse>)
    ensures var n := Pick(p, req, value, date, force, at, view);
            && n <= |value|
            && (n < |value| ==> Picked(p, req, value[n], date, force, at, view))
            && (forall j :: 0 <= j < n ==> !Picked(p, req, value[j], date, force, at, view))
  {
    hide Picked;
    if value != [] && !Picked(p, req, value[0], date, force, at, view) {
      PickIsFirst(p, req, value[1..], date, force, at, view);
      assert forall j :: 0 < j < |value| ==> value[j] == value[1..][j - 1];
    }
  }

  lemma {:induction false} PickIsSelection(
      p: Platform, req: Headers, value: CachedResponses, date: int, force: bool, at: int, view: set<CachedResponse>)
    ensures FirstUsable(p, DatedAt(p, Candidates(req, value), date), force, at, view) ==
            var n := Pick(p, req, value, date, force, at, view);
            if n < |value| then Some(value[n]) else None
  {
    hide StoredDate, Usable, Vary.Matches;
    PickIsFirst(p, req, value, date, force, at, view);
    if value != [] {
      PickIsSelection(p, req, value[1..], date, force, at, view);
      var rest := Candidates(req, value[1..]);
      if Vary.Matches(req, value[0].vary) {
        assert ([value[0]] + rest)[1..] == rest;
        var later := DatedAt(p, rest, date);
        if StoredDate(p, value[0]) == date {
          assert ([value[0]] + later)[1..] == later;
        } else {
          assert [] + later == later;
        }
      } else {
        assert [] + rest == rest;
      }
    }
  }

  lemma {:induction false} MaxDateBounds(p: Platform, req: Headers, value: CachedResponses)
    ensures MaxDate(p, Candidates(req, value)) >= ZERO_TIME
    ensures forall j :: 0 <= j < |value| && Vary.Matches(req, value[j].vary) ==>
              StoredDate(p, value[j]) <= MaxDate(p, Candidates(req, value))
    ensures MaxDate(p, Candidates(req, value)) == ZERO_TIME
            || exists j :: 0 <= j < |value| && Vary.Matches(req, value[j].vary)
                           && StoredDate(p, value[j]) == MaxDate(p, Candidates(req, value))
  {
    hide StoredDate, Vary.Matches;
    if value != [] {
      var rest := Candidates(req, value[1..]);
      MaxDateBounds(p, req, value[1..]);
      assert forall j :: 0 <= j < |value[1..]| ==> value[1..][j] == value[j + 1];
      if Vary.Matches(req, value[0].vary) {
        assert ([value[0]] + rest)[1..] == rest;
      } else {
        assert [] + rest == rest;
      }
      forall j | 0 <= j < |value| && Vary.Matches(req, value[j].vary)
        ensures StoredDate(p, value[j]) <= MaxDate(p, Candidates(req, value))
      {
        assert j > 0 ==> value[j] == value[1..][j - 1];
      }
      if MaxDate(p, Candidates(req, value)) == MaxDate(p, rest) != ZERO_TIME {
        var j :| 0 <= j < |value[1..]| && Vary.Matches(req, value[1..][j].vary)
                 && StoredDate(p, value[1..][j]) == MaxDate(p, rest);
        assert value[j + 1] == value[1..][j];
      }
    }
  }

  lemma UsableExactly(p: Platform, r: CachedResponse, force: bool, at: int, view: set<CachedResponse>)
    ensures Usable(p, r, force, at, view) <==> r in view && (force || StillGood(p, r.headers, r.created, at))
  {
    hide Reusable, StillGood;
    ReusableExactly(p, r, at);
  }

  /** The exact characterisation: a response is served iff some position is eligible, and then the first such one is. */
  lemma ServeIsFirstEligible(
      p: Platform, req: Headers, value: CachedResponses, force: bool, at: int, view: set<CachedResponse>)
    returns (n: nat)
    ensures n <= |value|
    ensures Serve(p, req, value, force, at, view) == if n < |value| then Some(value[n]) else None
    ensures n < |value| ==> Eligible(p, req, value, force, at, view, n)
    ensures forall j: nat :: j < n ==> !Eligible(p, req, value, force, at, view, j)
  {
    hide StoredDate, Usable, Vary.Matches, StillGood;
    forall i | 0 <= i < |value|
      ensures Usable(p, value[i], force, at, view) <==>
              value[i] in view && (force || StillGood(p, value[i].headers, value[i].created, at))
    {
      UsableExactly(p, value[i], force, at, view);
    }
    var date := MaxDate(p, Candidates(req, value));
    n := Pick(p, req, value, date, force, at, view);
    PickIsFirst(p, req, value, date, force, at, view);
    PickIsSelection(p, req, value, date, force, at, view);
    MaxDateBounds(p, req, value);
    forall j: nat | j < n
      ensures !Eligible(p, req, value, force, at, view, j)
    {
      if Latest(p, req, value, j) {
        assert StoredDate(p, value[j]) == date;
      }
    }
  }

  /* ---- Dropping responses ---- */

  /** The responses at the chosen positions, in order. */
  function Kept(value: CachedResponses, keep: set<nat>): CachedResponses {
    if value == [] then []
    else
      var n := |value| - 1;
      Kept(value[..n], keep) + (if n in keep then [value[n]] else [])
  }

  /** Kept is a subsequence: its elements keep their order. */
  lemma {:induction false} KeptPositions(value: CachedResponses, keep: set<nat>) returns (at: seq<nat>)
    ensures |at| == |Kept(value, keep)|
    ensures forall i :: 0 <= i < |at| ==> at[i] < |value| && at[i] in keep && Kept(value, keep)[i] == value[at[i]]
    ensures forall i, j :: 0 <= i < j < |at| ==> at[i] < at[j]
  {
    if value == [] {
      at := [];
    } else {
      var n := |value| - 1;
      at := KeptPositions(value[..n], keep);
      if n in keep {
        at := at + [n];
      }
    }
  }

  /** A kept response comes right after the kept ones before it. */
  lemma {:induction false} KeptInOrder(value: CachedResponses, keep: set<nat>, i: nat)
    requires i < |value| && i in keep
    ensures var before := |Kept(value[..i], keep)|;
            before < |Kept(value, keep)| && Kept(value, keep)[before] == value[i]
  {
    var n := |value| - 1;
    if i < n {
      KeptInOrder(value[..n], keep, i);
      assert value[..n][..i] == value[..i];
    }
  }

  lemma {:induction false} KeptCount(value: CachedResponses, keep: set<nat>)
    ensures |Kept(value, keep)| <= |value|
    ensures |Kept(value, keep)| == |value| <==> forall i :: 0 <= i < |value| ==> i in keep
    ensures |Kept(value, keep)| == |value| ==> Kept(value, keep) == value
  {
    if value != [] {
      var n := |value| - 1;
      KeptCount(value[..n], keep);
      assert value == value[..n] + [value[n]];
    }
  }

  lemma KeptGrows(value: CachedResponses, keep: set<nat>, i: nat)
    requires i < |value|
    ensures Kept(value[..i + 1], keep) == Kept(value[..i], keep) + (if i in keep then [value[i]] else [])
  {
    assert value[..i + 1][..i] == value[..i];
  }
}
