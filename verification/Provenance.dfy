/** Where a stored response comes from, in terms of what upstream answered. */
module Provenance {
  import opened Http
  import opened Freshness
  import opened Client
  import opened Revalidation
  import opened System
  import Caching
  import Vary

  /** The clauses the program relies on: a formatted date parses. */
  ghost predicate Sane(c: Config) {
    forall t :: c.platform.parseTime(c.platform.formatTime(t)).Some?
  }

  predicate Storable(c: Config, e: Event) {
    !Caching.Refused(c.platform, e.resp.status, e.resp.headers, c.isPrivate)
  }

  /** The creation instant an answer with a readable Date stands for. */
  function CreatedBy(c: Config, e: Event): int {
    EstimatedCreation(c.platform, e.resp.headers, e.requested, e.received, ZERO_TIME)
  }

  /** Later 304 answers for the same key, in order. */
  predicate Chain(log: seq<Event>, bound: nat, key: Key, origin: nat, later: seq<nat>)
    requires bound <= |log|
  {
    && (forall i :: 0 <= i < |later| ==>
          origin < later[i] < bound && log[later[i]].key == key && log[later[i]].resp.status == NOT_MODIFIED)
    && (forall i, j :: 0 <= i < j < |later| ==> later[i] < later[j])
  }

  function Updates(log: seq<Event>, later: seq<nat>): seq<Headers>
    requires forall i :: 0 <= i < |later| ==> later[i] < |log|
  {
    seq(|later|, i requires 0 <= i < |later| => log[later[i]].resp.headers)
  }

  /** Response r, stored under key, is answer number origin, refreshed by the answers in later. */
  ghost predicate Explains(
      c: Config, log: seq<Event>, bound: nat, key: Key, r: CachedResponse, origin: nat, later: seq<nat>)
  {
    && origin < bound <= |log|
    && log[origin].key == key && Storable(c, log[origin])
    && r.contentHash == c.platform.hash(log[origin].resp.body)
    && r.status == log[origin].resp.status
    && r.vary == Vary.Extract(log[origin].asked, log[origin].resp.headers)
    && Chain(log, bound, key, origin, later)
    && r.headers == MergeAll(log[origin].resp.headers, Updates(log, later))
    && r.created == CreatedBy(c, log[if later == [] then origin else later[|later| - 1]])
  }

  ghost predicate Explained(c: Config, log: seq<Event>, bound: nat, key: Key, r: CachedResponse) {
    exists origin, later :: Explains(c, log, bound, key, r, origin, later)
  }

  /** All storable answers for a key list the same names in Vary, and not "*". */
  ghost predicate Uniform(c: Config, log: seq<Event>, key: Key) {
    forall i, j :: 0 <= i < |log| && 0 <= j < |log|
                   && log[i].key == key && log[j].key == key && Storable(c, log[i]) && Storable(c, log[j]) ==>
      Vary.NameSet(log[i].resp.headers) == Vary.NameSet(log[j].resp.headers)
      && "*" !in Vary.NameSet(log[i].resp.headers)
  }

  ghost predicate Distinct(value: CachedResponses) {
    forall i, j :: 0 <= i < j < |value| ==> value[i].vary != value[j].vary
  }

  ghost predicate AllExplained(c: Config, log: seq<Event>, bound: nat, key: Key, value: CachedResponses) {
    forall i :: 0 <= i < |value| ==> Explained(c, log, bound, key, value[i])
  }

  /** What holds of every list of responses anywhere in the proxy. */
  ghost predicate Legitimate(c: Config, log: seq<Event>, bound: nat, key: Key, value: CachedResponses) {
    AllExplained(c, log, bound, key, value) && (Uniform(c, log, key) ==> Distinct(value))
  }

  /** Response r is what answer number ev, a 304, made of the response it was about, of a list read before. */
  ghost predicate ConfirmedBy(
      c: Config, log: seq<Event>, bound: nat, key: Key, r: CachedResponse, ev: nat, value: CachedResponses, i: nat)
  {
    && ev < bound <= |log| && log[ev].key == key && log[ev].resp.status == NOT_MODIFIED
    && Chosen(value, log[ev].resp.headers, i)
    && AllExplained(c, log, ev, key, value)
    && r.headers == Merge(value[i].headers, log[ev].resp.headers) && r.contentHash == value[i].contentHash
    && r.created == CreatedBy(c, log[ev])
  }

  ghost predicate Confirmed(c: Config, log: seq<Event>, bound: nat, key: Key, r: CachedResponse) {
    exists ev, value, i :: ConfirmedBy(c, log, bound, key, r, ev, value, i)
  }

  /** The fields the proxy itself changes in a request: validators it adds, hop-by-hop fields it strips. */
  const OWN_FIELDS: set<string> := VALIDATORS + HOP_BY_HOP

  ghost predicate AlmostSame(a: Headers, b: Headers) {
    forall k :: k !in OWN_FIELDS ==> Vary.Said(a, k) == Vary.Said(b, k)
  }

  /** Upstream answers as the proxy records them. */
  ghost predicate Recorded(c: Config, e: Event, now: int) {
    && e.requested <= e.received <= now
    && DateOf(c.platform, e.resp.headers).Some?
    && e.resp.headers.Keys !! HOP_BY_HOP
    && AlmostSame(e.asked, e.client)
  }

  ghost predicate LogOk(c: Config, log: seq<Event>, now: int) {
    forall i :: 0 <= i < |log| ==> Recorded(c, log[i], now)
  }

  /* ---- Growth of the log ---- */

  lemma ExplainsGrows(c: Config, log: seq<Event>, bound: nat, log': seq<Event>, bound': nat, key: Key,
                      r: CachedResponse, origin: nat, later: seq<nat>)
    requires log <= log' && bound <= bound' <= |log'|
    requires Explains(c, log, bound, key, r, origin, later)
    ensures Explains(c, log', bound', key, r, origin, later)
  {
    hide Storable, MergeAll, CreatedBy, Vary.Extract;
    assert forall i :: 0 <= i < |log| ==> log'[i] == log[i];
    assert Updates(log', later) == Updates(log, later);
  }

  lemma ExplainedGrows(
      c: Config, log: seq<Event>, bound: nat, log': seq<Event>, bound': nat, key: Key, r: CachedResponse)
    requires log <= log' && bound <= bound' <= |log'|
    requires Explained(c, log, bound, key, r)
    ensures Explained(c, log', bound', key, r)
  {
    hide Explains;
    var origin: nat, later: seq<nat> :| Explains(c, log, bound, key, r, origin, later);
    ExplainsGrows(c, log, bound, log', bound', key, r, origin, later);
  }

  lemma UniformShrinks(c: Config, log: seq<Event>, log': seq<Event>, key: Key)
    requires log <= log' && Uniform(c, log', key)
    ensures Uniform(c, log, key)
  {
    hide Storable;
    assert forall i :: 0 <= i < |log| ==> log'[i] == log[i];
  }

  lemma LegitimateGrows(c: Config, log: seq<Event>, bound: nat, log': seq<Event>, bound': nat, key: Key,
                        value: CachedResponses)
    requires log <= log' && bound <= bound' <= |log'|
    requires Legitimate(c, log, bound, key, value)
    ensures Legitimate(c, log', bound', key, value)
  {
    hide Explained, Uniform, Distinct;
    forall i | 0 <= i < |value|
      ensures Explained(c, log', bound', key, value[i])
    {
      ExplainedGrows(c, log, bound, log', bound', key, value[i]);
    }
    if Uniform(c, log', key) {
      UniformShrinks(c, log, log', key);
    }
  }

  /* ---- Refreshing ---- */

  lemma CreationIgnoresClock(c: Config, e: Event, now: int)
    requires DateOf(c.platform, e.resp.headers).Some?
    ensures EstimatedCreation(c.platform, e.resp.headers, e.requested, e.received, now) == CreatedBy(c, e)
  {
  }

  lemma RefreshExplained(c: Config, log: seq<Event>, event: nat, key: Key, r: CachedResponse, now: int)
    requires event < |log| && Explained(c, log, event, key, r)
    requires log[event].key == key && log[event].resp.status == NOT_MODIFIED
    requires DateOf(c.platform, log[event].resp.headers).Some?
    ensures var e := log[event];
            Explained(c, log, |log|, key,
                      Refreshed(c.platform, r, e.resp.headers, e.requested, e.received, now))
  {
    hide Storable, Merge, CreatedBy, Vary.Extract, EstimatedCreation;
    var e := log[event];
    var origin: nat, later: seq<nat> :| Explains(c, log, event, key, r, origin, later);
    var after := later + [event];
    var r' := Refreshed(c.platform, r, e.resp.headers, e.requested, e.received, now);
    CreationIgnoresClock(c, e, now);
    assert Updates(log, after)[..|later|] == Updates(log, later);
    assert Explains(c, log, |log|, key, r', origin, after);
  }

  /** Replacing one response by its refreshed self keeps the list legitimate. */
  lemma RefreshLegitimate(c: Config, log: seq<Event>, event: nat, key: Key, value: CachedResponses, i: nat, now: int)
    requires event < |log| && Legitimate(c, log, event, key, value) && i < |value|
    requires log[event].key == key && log[event].resp.status == NOT_MODIFIED
    requires DateOf(c.platform, log[event].resp.headers).Some?
    ensures var e := log[event];
            Legitimate(c, log, |log|, key,
                       value[i := Refreshed(c.platform, value[i], e.resp.headers, e.requested, e.received, now)])
  {
    hide Explained, Uniform, Merge, EstimatedCreation;
    LegitimateGrows(c, log, event, log, |log|, key, value);
    RefreshExplained(c, log, event, key, value[i], now);
  }

  lemma ConfirmedGrows(
      c: Config, log: seq<Event>, bound: nat, log': seq<Event>, bound': nat, key: Key, r: CachedResponse)
    requires log <= log' && bound <= bound' <= |log'|
    requires Confirmed(c, log, bound, key, r)
    ensures Confirmed(c, log', bound', key, r)
  {
    hide Explained, Chosen, Merge, CreatedBy;
    var ev: nat, value: CachedResponses, i: nat :| ConfirmedBy(c, log, bound, key, r, ev, value, i);
    forall j | 0 <= j < |value|
      ensures Explained(c, log', ev, key, value[j])
    {
      ExplainedGrows(c, log, ev, log', ev, key, value[j]);
    }
    assert log'[ev] == log[ev];
    assert ConfirmedBy(c, log', bound', key, r, ev, value, i);
  }

  /** A refresh is confirmed by its 304. */
  lemma RefreshConfirmed(c: Config, log: seq<Event>, event: nat, key: Key, value: CachedResponses, i: nat, now: int)
    requires event < |log| && Legitimate(c, log, event, key, value) && Chosen(value, log[event].resp.headers, i)
    requires log[event].key == key && log[event].resp.status == NOT_MODIFIED
    requires DateOf(c.platform, log[event].resp.headers).Some?
    ensures var e := log[event];
            Confirmed(c, log, |log|, key,
                      Refreshed(c.platform, value[i], e.resp.headers, e.requested, e.received, now))
  {
    hide Explained, Merge, CreatedBy, EstimatedCreation, Chosen, Uniform;
    assert i < |value| by { ChosenIsStored(value, log[event].resp.headers, i); }
    var e := log[event];
    CreationIgnoresClock(c, e, now);
    var r := Refreshed(c.platform, value[i], e.resp.headers, e.requested, e.received, now);
    assert ConfirmedBy(c, log, |log|, key, r, event, value, i);
  }

  lemma ChosenIsStored(value: CachedResponses, resp: Headers, i: nat)
    requires Chosen(value, resp, i)
    ensures i < |value|
  {
  }

  /* ---- Storing a new response ---- */

  lemma NewExplained(c: Config, log: seq<Event>, event: nat, key: Key, r: CachedResponse)
    requires event < |log| && log[event].key == key && Storable(c, log[event])
    requires r.contentHash == c.platform.hash(log[event].resp.body)
    requires r.status == log[event].resp.status && r.headers == log[event].resp.headers
    requires r.vary == Vary.Extract(log[event].asked, log[event].resp.headers)
    requires r.created == CreatedBy(c, log[event])
    ensures Explained(c, log, |log|, key, r)
  {
    hide Storable, CreatedBy, Vary.Extract;
    assert Updates(log, []) == [];
    assert Explains(c, log, |log|, key, r, event, []);
  }

  /** Under a uniform Vary a request matches exactly the stored response with its own values. */
  lemma MatchesItsOwn(c: Config, log: seq<Event>, key: Key, r: CachedResponse, req: Headers, event: nat)
    requires Explained(c, log, |log|, key, r) && Uniform(c, log, key)
    requires event < |log| && log[event].key == key && Storable(c, log[event])
    ensures Vary.Matches(req, r.vary) <==> r.vary == Vary.Extract(req, log[event].resp.headers)
  {
    hide Vary.Matches, Vary.Extract, Storable, MergeAll, CreatedBy;
    var origin: nat, later: seq<nat> :| Explains(c, log, |log|, key, r, origin, later);
    Vary.MatchesOnlyOwn(req, log[origin].asked, r.vary, log[event].resp.headers, log[origin].resp.headers);
  }

  /** Storing keeps the list legitimate, and its own request then matches the new response alone. */
  lemma InsertLegitimate(
      c: Config, log: seq<Event>, key: Key, value: CachedResponses, req: Headers, event: nat, r: CachedResponse)
    requires Legitimate(c, log, |log|, key, value) && Explained(c, log, |log|, key, r)
    requires event < |log| && log[event].key == key && Storable(c, log[event])
    requires r.vary == Vary.Extract(req, log[event].resp.headers)
    ensures Legitimate(c, log, |log|, key, Insert(req, value, r))
  {
    hide Vary.Matches, Vary.Extract, Storable, Explained, Uniform, Insert;
    var n := InsertByIndex(req, value, r);
    if Uniform(c, log, key) {
      forall i | 0 <= i < |value|
        ensures Vary.Matches(req, value[i].vary) <==> value[i].vary == r.vary
      {
        MatchesItsOwn(c, log, key, value[i], req, event);
      }
    }
  }

  lemma OneLegitimate(c: Config, log: seq<Event>, key: Key, r: CachedResponse)
    requires Explained(c, log, |log|, key, r)
    ensures Legitimate(c, log, |log|, key, [r])
  {
    hide Explained, Uniform;
  }

  /* ---- Dropping responses ---- */

  lemma KeptLegitimate(c: Config, log: seq<Event>, bound: nat, key: Key, value: CachedResponses, keep: set<nat>)
    requires Legitimate(c, log, bound, key, value)
    ensures Legitimate(c, log, bound, key, Kept(value, keep))
  {
    hide Explained, Uniform, Kept;
    var at := KeptPositions(value, keep);
  }
}
