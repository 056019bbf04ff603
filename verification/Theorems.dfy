/** What every run of the proxy guarantees. */
module Theorems {
  import opened Http
  import opened Freshness
  import opened Client
  import opened Revalidation
  import opened System
  import opened Provenance
  import opened Runs
  import opened Steps
  import CacheControl
  import Caching
  import Database
  import Etag
  import Ingestion
  import Vary

  predicate FromCache(k: Kind) {
    k.Hit? || k.StaleHit? || k.Revalidated?
  }

  lemma ReplyFacts(c: Config, actions: seq<Action>, i: nat)
    requires Sane(c) && IsRun(c, actions) && i < |After(c, actions).replies|
    ensures ReplyOk(c, After(c, actions).log, After(c, actions).replies[i])
    ensures LogOk(c, After(c, actions).log, After(c, actions).now)
  {
    hide ReplyOk, Owned, FilesOk, StoreOk, TasksOk, CleanersOk, LogOk;
    RunKeepsInv(c, actions);
  }

  /** Field k of a refreshed response: the last later answer that names it decides, else the origin. */
  function FieldOf(log: seq<Event>, origin: nat, later: seq<nat>, k: string): seq<string>
    requires origin < |log| && forall i :: 0 <= i < |later| ==> later[i] < |log|
  {
    var n := LastNaming(Updates(log, later), k);
    if k == "Content-Length" || n == 0 then Values(log[origin].resp.headers, k)
    else Values(log[later[n - 1]].resp.headers, k)
  }

  /** The reply is answer number origin: its whole body, and its fields as updated by the later 304 answers. */
  ghost predicate IsAnswer(c: Config, log: seq<Event>, reply: Reply, origin: nat, later: seq<nat>) {
    && origin < reply.heard <= |log|
    && log[origin].key == reply.key && log[origin].resp.status == OK && Storable(c, log[origin])
    && reply.resp.status == OK
    && reply.resp.body == log[origin].resp.body
    && Chain(log, reply.heard, reply.key, origin, later)
    && (forall k :: k != "Age" ==> Values(reply.resp.headers, k) == FieldOf(log, origin, later, k))
  }

  lemma MergedField(log: seq<Event>, origin: nat, later: seq<nat>, k: string)
    requires origin < |log| && forall i :: 0 <= i < |later| ==> later[i] < |log|
    ensures Values(MergeAll(log[origin].resp.headers, Updates(log, later)), k) == FieldOf(log, origin, later, k)
  {
    hide MergeAll;
    MergeAllIsRightBiased(log[origin].resp.headers, Updates(log, later), k);
  }

  lemma AgeOnly(c: Config, r: CachedResponse, body: Bytes, at: int, k: string)
    requires k != "Age"
    ensures Values(Rendered(c, r, OK, body, at).headers, k) == Values(r.headers, k)
  {
  }

  lemma ExplainedIsAnswer(c: Config, log: seq<Event>, reply: Reply, origin: nat, later: seq<nat>)
    requires Injective(c.platform.hash) && reply.from.Some?
    requires Explains(c, log, reply.heard, reply.key, reply.from.value, origin, later)
    requires reply.from.value.contentHash == c.platform.hash(reply.resp.body)
    requires reply.resp == Rendered(c, reply.from.value, OK, reply.resp.body, reply.at)
    ensures IsAnswer(c, log, reply, origin, later)
  {
    hide MergeAll, Vary.Extract, CreatedBy, FieldOf, Updates, Rendered, Caching.IsCacheable;
    Caching.OnlyOkIsKept(c.platform, log[origin].resp.status, log[origin].resp.headers, c.isPrivate);
    forall k | k != "Age"
      ensures Values(reply.resp.headers, k) == FieldOf(log, origin, later, k)
    {
      AgeOnly(c, reply.from.value, reply.resp.body, reply.at, k);
      MergedField(log, origin, later, k);
    }
    assert reply.resp.status == OK by { RenderedStatus(c, reply.from.value, reply.resp.body, reply.at); }
  }

  lemma RenderedStatus(c: Config, r: CachedResponse, body: Bytes, at: int)
    ensures Rendered(c, r, OK, body, at).status == OK
  {
  }

  /** Cache transparency. In every run, whatever is served as a hit, a stale hit or revalidated has the complete
      body of an earlier 200 answer for the same key that was not refused storage; each of its fields but Age is
      the one of that answer or of the last of the later 304 answers for the key that named it. */
  lemma CacheTransparency(c: Config, actions: seq<Action>, i: nat) returns (origin: nat, later: seq<nat>)
    requires Sane(c) && Injective(c.platform.hash) && IsRun(c, actions)
    requires i < |After(c, actions).replies| && FromCache(After(c, actions).replies[i].kind)
    ensures IsAnswer(c, After(c, actions).log, After(c, actions).replies[i], origin, later)
  {
    hide Explains, IsAnswer, Reusable, AlmostSame, Vary.Matches, LogOk, NamesTag, TagDiscipline, IsRun, After, Rendered;
    ReplyFacts(c, actions, i);
    var s := After(c, actions);
    var reply := s.replies[i];
    origin, later :| Explains(c, s.log, reply.heard, reply.key, reply.from.value, origin, later);
    ExplainedIsAnswer(c, s.log, reply, origin, later);
  }

  /** The listed names that do not mean a field the proxy adds or strips itself. */
  function ClientsOwn(names: set<string>): set<string> {
    set n | n in names && Vary.Canonical(n) !in OWN_FIELDS
  }

  /** How the request of a reply from the store relates to the one its answer was fetched for. */
  ghost predicate FitsVary(e: Event, reply: Reply) {
    var names := Vary.NameSet(e.resp.headers);
    && "*" !in names
    && Vary.Agree(e.asked, reply.asked, names)
    && Vary.Agree(e.client, reply.original, names - OWN_FIELDS)
    && (Vary.SpelledOut(names) ==> Vary.AgreeOnFields(e.client, reply.original, ClientsOwn(names)))
    && (reply.kind.Hit? ==>
          forall n :: n in names ==>
            (Vary.Said(e.client, n) == Vary.Said(reply.original, n) <==>
             Vary.Said(e.asked, n) == Vary.Said(e.client, n)))
  }

  /** A hit or stale hit was stored for a request that, as it went upstream, says the same under every spelling the
      stored answer's Vary lists, and never "*". If each name is listed in its canonical spelling too, the two clients
      agree on every field that Vary means, except those the proxy adds or strips; and for a fresh hit they agree
      under a listed name exactly when the first request went upstream with that field as its client sent it. */
  lemma HitsAgreeOnVary(c: Config, actions: seq<Action>, i: nat) returns (origin: nat, later: seq<nat>)
    requires Sane(c) && IsRun(c, actions) && i < |After(c, actions).replies|
    requires After(c, actions).replies[i].kind.Hit? || After(c, actions).replies[i].kind.StaleHit?
    ensures var s := After(c, actions);
            var reply := s.replies[i];
            && reply.from.Some? && Explains(c, s.log, reply.heard, reply.key, reply.from.value, origin, later)
            && FitsVary(s.log[origin], reply)
  {
    hide Storable, MergeAll, Vary.Extract, CreatedBy, Reusable, Vary.Matches, NamesTag, TagDiscipline, IsRun, After,
         Rendered, Vary.NameSet, Vary.Said, Vary.Canonical;
    ReplyFacts(c, actions, i);
    var s := After(c, actions);
    var reply := s.replies[i];
    origin, later :| Explains(c, s.log, reply.heard, reply.key, reply.from.value, origin, later);
    var e := s.log[origin];
    assert Recorded(c, e, s.now);
    Vary.MatchesIsKernel(e.asked, reply.asked, e.resp.headers);
  }

  /** A fresh hit that no 304 has confirmed since it was stored had permission to be stored: answers kept without
      permission are served only when upstream is in trouble. */
  lemma HitsWerePermitted(c: Config, actions: seq<Action>, i: nat, origin: nat)
    requires Sane(c) && IsRun(c, actions) && i < |After(c, actions).replies|
    requires After(c, actions).replies[i].kind.Hit?
    requires var s := After(c, actions);
             var reply := s.replies[i];
             reply.from.Some? && Explains(c, s.log, reply.heard, reply.key, reply.from.value, origin, [])
    ensures var e := After(c, actions).log[origin];
            Caching.IsCacheable(c.platform, e.resp.status, e.resp.headers, c.isPrivate) == Caching.Verdict(true, true)
  {
    hide MergeAll, Vary.Extract, CreatedBy, AlmostSame, Vary.Matches, NamesTag, TagDiscipline, IsRun, After, Rendered,
         LogOk, Caching.IsCacheable;
    ReplyFacts(c, actions, i);
    var s := After(c, actions);
    var reply := s.replies[i];
    var e := s.log[origin];
    UnrefreshedHeaders(s.log, origin);
    PermittedIfFresh(c, e, reply.from.value, reply.at);
  }

  /** A fresh hit was good when it was served: no no-cache, no bare must-revalidate, and a lifetime above its age. */
  lemma HitsWereGood(c: Config, actions: seq<Action>, i: nat)
    requires Sane(c) && IsRun(c, actions) && i < |After(c, actions).replies|
    requires After(c, actions).replies[i].kind.Hit?
    ensures var reply := After(c, actions).replies[i];
            reply.from.Some? && StillGood(c.platform, reply.from.value.headers, reply.from.value.created, reply.at)
  {
    hide Explained, Confirmed, Rendered, Reusable, StillGood, AlmostSame, Vary.Matches, LogOk, NamesTag, TagDiscipline,
         IsRun, After, DateDiscipline;
    ReplyFacts(c, actions, i);
    ReusableExactly(c.platform, After(c, actions).replies[i].from.value, After(c, actions).replies[i].at);
  }

  /** A revalidated reply is about the response that a 304 for its key chose, out of a list of responses from before:
      the first whose tag matches, unless an earlier comparison panics, and only if no tag settles it the first with
      the same Last-Modified. It has that response's body and its fields under those of the 304. */
  lemma RevalidatedWasChosen(c: Config, actions: seq<Action>, i: nat)
    returns (ev: nat, value: CachedResponses, n: nat)
    requires Sane(c) && IsRun(c, actions) && i < |After(c, actions).replies|
    requires After(c, actions).replies[i].kind.Revalidated?
    ensures var s := After(c, actions);
            var reply := s.replies[i];
            && reply.from.Some?
            && ConfirmedBy(c, s.log, reply.heard, reply.key, reply.from.value, ev, value, n)
            && reply.from.value.contentHash == c.platform.hash(reply.resp.body)
  {
    hide Explained, ConfirmedBy, Rendered, Reusable, AlmostSame, Vary.Matches, LogOk, NamesTag, TagDiscipline, IsRun,
         After, DateDiscipline;
    ReplyFacts(c, actions, i);
    var s := After(c, actions);
    var reply := s.replies[i];
    ev, value, n :| ConfirmedBy(c, s.log, reply.heard, reply.key, reply.from.value, ev, value, n);
  }

  /** Every reply from the store tells its age: the whole seconds since the response was created. */
  lemma AgeIsTold(c: Config, actions: seq<Action>, i: nat)
    requires Sane(c) && IsRun(c, actions) && i < |After(c, actions).replies|
    requires FromCache(After(c, actions).replies[i].kind)
    ensures var reply := After(c, actions).replies[i];
            && reply.from.Some?
            && var elapsed := reply.at - reply.from.value.created;
               0 <= elapsed <= 0x7FFF_FFFF_FFFF_FFFF ==>
                 Values(reply.resp.headers, "Age") == [c.platform.formatSeconds(elapsed / 1_000_000_000)]
  {
    hide Explained, Confirmed, Rendered, Reusable, AlmostSame, Vary.Matches, LogOk, NamesTag, TagDiscipline, IsRun,
         After, DateDiscipline;
    ReplyFacts(c, actions, i);
    var reply := After(c, actions).replies[i];
    RenderedAge(c, reply.from.value, reply.resp.body, reply.at);
  }

  lemma RenderedAge(c: Config, r: CachedResponse, body: Bytes, at: int)
    ensures var elapsed := at - r.created;
            0 <= elapsed <= 0x7FFF_FFFF_FFFF_FFFF ==>
              Values(Rendered(c, r, OK, body, at).headers, "Age") ==
              [c.platform.formatSeconds(elapsed / 1_000_000_000)]
  {
  }

  lemma UnrefreshedHeaders(log: seq<Event>, origin: nat)
    requires origin < |log|
    ensures MergeAll(log[origin].resp.headers, Updates(log, [])) == log[origin].resp.headers
  {
  }

  lemma PermittedIfFresh(c: Config, e: Event, r: CachedResponse, at: int)
    requires Storable(c, e) && r.headers == e.resp.headers && r.created <= at && Reusable(c.platform, r, at)
    ensures Caching.IsCacheable(c.platform, e.resp.status, e.resp.headers, c.isPrivate) == Caching.Verdict(true, true)
  {
    hide IsFresh, Caching.IsCacheable;
    var v := Caching.IsCacheable(c.platform, e.resp.status, e.resp.headers, c.isPrivate);
    if v == Caching.Verdict(false, false) {
      Caching.UnpermittedIsNeverFresh(c.platform, e.resp.status, e.resp.headers, c.isPrivate, r.created, at);
    }
    CacheableIsExplicit(c.platform, e.resp.status, e.resp.headers, c.isPrivate);
  }

  lemma CacheableIsExplicit(p: Platform, status: int, h: Headers, isPrivate: bool)
    ensures Caching.IsCacheable(p, status, h, isPrivate) != Caching.Verdict(true, false)
  {
  }

  /** If upstream answers 304 only to conditional requests, so does the proxy. */
  lemma NoStray304(c: Config, actions: seq<Action>, i: nat)
    requires Sane(c) && IsRun(c, actions) && i < |After(c, actions).replies|
    requires ConditionalOnly(After(c, actions).log)
    ensures After(c, actions).replies[i].resp.status == NOT_MODIFIED ==>
            Conditional(After(c, actions).replies[i].original)
  {
    hide Explained, Rendered, Reusable, AlmostSame, Vary.Matches, LogOk, NamesTag, TagDiscipline, IsRun, After,
         ConditionalOnly;
    ReplyFacts(c, actions, i);
  }

  /** If tags are well formed and a 304 names a tag that was sent, then every 304 that Do returns, passed through or
      merely relayed, names a tag the client sent, never only one the cache added. */
  lemma NotModifiedIsOwn(c: Config, actions: seq<Action>, i: nat)
    requires Sane(c) && IsRun(c, actions) && i < |After(c, actions).replies|
    requires After(c, actions).replies[i].resp.status == NOT_MODIFIED && TagDiscipline(After(c, actions).log)
    requires First(After(c, actions).replies[i].resp.headers, "Etag") != ""
    ensures var reply := After(c, actions).replies[i];
            exists t :: t in ClientTags(reply.original) && Etag.WeakEqual(First(reply.resp.headers, "Etag"), t)
  {
    hide Explained, Rendered, Reusable, AlmostSame, Vary.Matches, LogOk, TagDiscipline, IsRun, After, ConditionalOnly;
    ReplyFacts(c, actions, i);
  }

  /** If in addition a 304 without a tag repeats the date it answers, then such a 304 repeats the client's date. */
  lemma NotModifiedRepeatsOwn(c: Config, actions: seq<Action>, i: nat)
    requires Sane(c) && IsRun(c, actions) && i < |After(c, actions).replies|
    requires After(c, actions).replies[i].resp.status == NOT_MODIFIED && DateDiscipline(After(c, actions).log)
    requires RepeatsDate(After(c, actions).replies[i].resp.headers)
    ensures var reply := After(c, actions).replies[i];
            First(reply.resp.headers, "Last-Modified") == First(reply.original, "If-Modified-Since")
  {
    hide Explained, Rendered, Reusable, AlmostSame, Vary.Matches, LogOk, TagDiscipline, DateDiscipline, IsRun, After,
         ConditionalOnly;
    ReplyFacts(c, actions, i);
  }

  /* ---- The store ---- */

  lemma StoredFacts(c: Config, actions: seq<Action>, key: Key)
    requires Sane(c) && IsRun(c, actions) && key in After(c, actions).store.items
    ensures var s := After(c, actions);
            Legitimate(c, s.log, |s.log|, key, s.store.items[key].value) && LogOk(c, s.log, s.now)
  {
    hide Legitimate, Owned, FilesOk, TasksOk, CleanersOk, LogOk, RepliesOk, IsRun, After;
    RunKeepsInv(c, actions);
  }

  /** One stored response per request class: under a uniform "*"-free Vary no request matches two stored responses. */
  lemma AtMostOneMatch(c: Config, actions: seq<Action>, key: Key, req: Headers, i: nat, j: nat)
    requires Sane(c) && IsRun(c, actions) && key in After(c, actions).store.items
    requires Uniform(c, After(c, actions).log, key)
    requires var value := After(c, actions).store.items[key].value;
             i < |value| && j < |value|
             && Vary.Matches(req, value[i].vary) && Vary.Matches(req, value[j].vary)
    ensures i == j
  {
    hide Vary.Matches, Vary.Extract, Storable, LogOk, IsRun, After, Uniform, MergeAll, CreatedBy;
    StoredFacts(c, actions, key);
    var s := After(c, actions);
    var value := s.store.items[key].value;
    var origin: nat, later: seq<nat> :| Explains(c, s.log, |s.log|, key, value[i], origin, later);
    MatchesItsOwn(c, s.log, key, value[i], req, origin);
    MatchesItsOwn(c, s.log, key, value[j], req, origin);
  }

  lemma InsertedMatches(c: Config, log: seq<Event>, key: Key, value: CachedResponses, req: Headers, event: nat, n: nat)
    requires Legitimate(c, log, |log|, key, value) && Uniform(c, log, key)
    requires event < |log| && log[event].key == key && Storable(c, log[event])
    requires n < |value| && value[n].vary == Vary.Extract(req, log[event].resp.headers)
    ensures forall i :: 0 <= i < |value| ==> (Vary.Matches(req, value[i].vary) <==> i == n)
  {
    hide Vary.Matches, Vary.Extract, Storable, Uniform, Explained;
    forall i | 0 <= i < |value|
      ensures Vary.Matches(req, value[i].vary) <==> i == n
    {
      MatchesItsOwn(c, log, key, value[i], req, event);
    }
  }

  /** The list an ingestion writes, and where its new response is. */
  lemma IngestedList(c: Config, log: seq<Event>, now: int, t: Task, entry: Entry) returns (n: nat)
    requires LogOk(c, log, now) && TaskOk(c, log, now, t, entry) && t.phase.Settled?
    requires Uniform(c, log, t.key)
    ensures t.phase.source < |log|
    ensures var r := ToStore(c, t, log[t.phase.source], t.phase.tee.copied, now);
            var value := if entry.version != 0 then Insert(t.headers, entry.value, r) else [r];
            && n < |value| && value[n] == r
            && forall i :: 0 <= i < |value| ==> (Vary.Matches(t.headers, value[i].vary) <==> i == n)
  {
    hide LogOk, Legitimate, Vary.Matches, Storable, Uniform, Explained, AlmostSame, EstimatedCreation, Vary.Extract,
         Insert, EntryOk;
    ToStoreOk(c, log, now, t, entry);
    var r := ToStore(c, t, log[t.phase.source], t.phase.tee.copied, now);
    n := 0;
    var value := [r];
    if entry.version != 0 {
      n := InsertByIndex(t.headers, entry.value, r);
      value := Insert(t.headers, entry.value, r);
    }
    InsertedMatches(c, log, t.key, value, t.headers, t.phase.source, n);
  }

  /** After a committed ingestion its request matches exactly the new response. */
  lemma CommittedIngestMatches(c: Config, actions: seq<Action>, id: nat) returns (n: nat)
    requires Sane(c) && IsRun(c, actions) && Enabled(c, After(c, actions), CommitIngest(id))
    requires var s := After(c, actions);
             var t := s.tasks[id];
             Uniform(c, s.log, t.key) && Database.Accepts(s.store, t.key, s.heap[t.entry].version)
    ensures var s := After(c, actions);
            var t := s.tasks[id];
            var items := DoCommitIngest(c, s, id).store.items;
            && t.key in items && n < |items[t.key].value|
            && items[t.key].value[n] == ToStore(c, t, s.log[t.phase.source], t.phase.tee.copied, s.now)
            && forall i :: 0 <= i < |items[t.key].value| ==>
                 (Vary.Matches(t.headers, items[t.key].value[i].vary) <==> i == n)
  {
    hide Owned, FilesOk, StoreOk, TaskOk, CleanersOk, LogOk, RepliesOk, IsRun, After, Uniform, Vary.Matches, Insert,
         ToStore;
    RunKeepsInv(c, actions);
    var s := After(c, actions);
    var t := s.tasks[id];
    assert TaskOk(c, s.log, s.now, t, s.heap[t.entry]);
    n := IngestedList(c, s.log, s.now, t, s.heap[t.entry]);
  }

  /** The stored headers of any reachable state: status 200, a Date that parses, no hop-by-hop field, and a
      creation instant in the past. The "should not happen" branches of the program do not happen. */
  lemma StoredHeadersAreClean(c: Config, actions: seq<Action>, key: Key, i: nat)
    requires Sane(c) && IsRun(c, actions) && key in After(c, actions).store.items
    requires i < |After(c, actions).store.items[key].value|
    ensures var r := After(c, actions).store.items[key].value[i];
            && r.status == OK
            && DateOf(c.platform, r.headers).Some?
            && r.headers.Keys !! HOP_BY_HOP
            && r.created <= After(c, actions).now
  {
    hide LogOk, Explained, Uniform, IsRun, After;
    StoredFacts(c, actions, key);
    var s := After(c, actions);
    var r := s.store.items[key].value[i];
    StoredStatus(c, s.log, |s.log|, key, r);
    CreatedInPast(c, s.log, s.now, |s.log|, key, r);
    CleanHeaders(c, s.log, s.now, key, r);
  }

  lemma {:induction false} CleanHeaders(c: Config, log: seq<Event>, now: int, key: Key, r: CachedResponse)
    requires LogOk(c, log, now) && Explained(c, log, |log|, key, r)
    ensures DateOf(c.platform, r.headers).Some? && r.headers.Keys !! HOP_BY_HOP
  {
    hide Storable, MergeAll, Vary.Extract, CreatedBy, DateOf;
    var origin: nat, later: seq<nat> :| Explains(c, log, |log|, key, r, origin, later);
    var updates := Updates(log, later);
    LoggedIsClean(c, log, now, origin);
    forall i | 0 <= i < |updates|
      ensures CleanHeader(c, updates[i])
    {
      LoggedIsClean(c, log, now, later[i]);
    }
    MergedIsClean(c, log[origin].resp.headers, updates);
  }

  ghost predicate CleanHeader(c: Config, h: Headers) {
    DateOf(c.platform, h).Some? && h.Keys !! HOP_BY_HOP
  }

  lemma LoggedIsClean(c: Config, log: seq<Event>, now: int, i: nat)
    requires LogOk(c, log, now) && i < |log|
    ensures CleanHeader(c, log[i].resp.headers)
  {
    hide AlmostSame;
    assert Recorded(c, log[i], now);
  }

  lemma {:induction false} MergedIsClean(c: Config, h: Headers, updates: seq<Headers>)
    requires CleanHeader(c, h) && forall i :: 0 <= i < |updates| ==> CleanHeader(c, updates[i])
    ensures CleanHeader(c, MergeAll(h, updates))
  {
    if updates != [] {
      MergedIsClean(c, h, updates[..|updates| - 1]);
    }
  }

  /** In every reachable state, a stored response comes from an answer with status 200, all of whose numbers can be
      read, that is not partial, does not say no-store, and, in a shared cache, neither says private nor carries
      credentials that nothing lets in. */
  lemma StoredWasAllowed(c: Config, actions: seq<Action>, key: Key, i: nat) returns (origin: nat, later: seq<nat>)
    requires Sane(c) && IsRun(c, actions) && key in After(c, actions).store.items
    requires i < |After(c, actions).store.items[key].value|
    ensures var s := After(c, actions);
            && Explains(c, s.log, |s.log|, key, s.store.items[key].value[i], origin, later)
            && Allowed(s.log[origin].resp, c.isPrivate)
  {
    hide LogOk, Explains, Uniform, IsRun, After, Allowed;
    StoredFacts(c, actions, key);
    var s := After(c, actions);
    var r := s.store.items[key].value[i];
    origin, later :| Explains(c, s.log, |s.log|, key, r, origin, later);
    ExplainedWasAllowed(c, s.log, |s.log|, key, r, origin, later);
  }

  /** The text of an answer allows it to be stored. */
  ghost predicate Allowed(resp: Response, isPrivate: bool) {
    var lines := Values(resp.headers, "Cache-Control");
    var es := CacheControl.Counting(lines);
    && resp.status == 200 && CacheControl.AllCount(lines)
    && "Range" !in resp.headers && "Content-Range" !in resp.headers
    && !CacheControl.Bare(es, "no-store")
    && (!isPrivate ==>
          && CacheControl.FirstSaying(es, "private").None?
          && ("Authorization" in resp.headers ==> Caching.LetIn(es)))
  }

  lemma ExplainedWasAllowed(
      c: Config, log: seq<Event>, bound: nat, key: Key, r: CachedResponse, origin: nat, later: seq<nat>)
    requires Explains(c, log, bound, key, r, origin, later)
    ensures Allowed(log[origin].resp, c.isPrivate)
  {
    hide MergeAll, Vary.Extract, CreatedBy, Caching.Refused;
    Caching.RefusedExactly(c.platform, log[origin].resp.status, log[origin].resp.headers, c.isPrivate);
  }

  /** Closing a body publishes it exactly if the copy is accepted and renamed; the response is stored next exactly if
      the file could also be closed, and otherwise the entry goes back. */
  lemma ClosesExactly(c: Config, s: State, id: nat, probe: Ingestion.Step, renameOk: bool, closeOk: bool)
    requires Enabled(c, s, CloseBody(id, probe, renameOk, closeOk))
    ensures var s' := Apply(c, s, CloseBody(id, probe, renameOk, closeOk));
            var tee := s.tasks[id].phase.tee;
            var published := Ingestion.Accepted(tee, c.quotaHigh, probe) && renameOk;
            && s'.files == (if published then s.files[c.platform.hash(tee.copied) := tee.copied] else s.files)
            && (id in s'.tasks <==> published && closeOk)
            && (id in s'.tasks ==> s'.tasks[id].phase == Settled(s.tasks[id].phase.source, tee) && s'.pool == s.pool)
            && (id !in s'.tasks ==> s'.pool == s.pool + multiset{s.tasks[id].entry})
  {
    hide Ingestion.Accepted;
  }

  /* ---- The pool ---- */

  /** Pool discipline, in every run: no entry is in the pool twice, none is held by two tasks, and none is in the
      pool while a request or an open ingestion still holds it. */
  lemma PoolDiscipline(c: Config, actions: seq<Action>)
    requires Sane(c) && IsRun(c, actions)
    ensures var s := After(c, actions);
            && (forall e :: s.pool[e] <= 1)
            && (forall i :: i in s.tasks ==> s.tasks[i].entry !in s.pool)
            && (forall i, j :: i in s.tasks && j in s.tasks && i != j ==> s.tasks[i].entry != s.tasks[j].entry)
  {
    hide FilesOk, StoreOk, TasksOk, CleanersOk, LogOk, RepliesOk, IsRun, After;
    RunKeepsInv(c, actions);
  }
}
