/** Every action keeps the invariant of Runs. */
module Steps {
  import opened Http
  import opened Freshness
  import opened Client
  import opened Revalidation
  import opened System
  import opened Provenance
  import opened Runs
  import Caching
  import Database
  import Etag
  import Ingestion
  import Vary

  /* ---- Putting a step together ---- */

  /** What one task's step has to show: its own new phase, the store, the files, and a reply if there is one. */
  lemma StepTogether(c: Config, s: State, s': State, id: nat)
    requires Inv(c, s) && Owned(s') && s.log <= s'.log && s.now <= s'.now
    requires LogOk(c, s'.log, s'.now) && FilesOk(c, s'.files)
    requires s'.store == s.store || StoreOk(c, s'.log, s'.store)
    requires s'.cleaners == s.cleaners
    requires OnlyTask(s, s', id)
    requires id in s'.tasks ==>
               s'.tasks[id].entry in s'.heap
               && TaskOk(c, s'.log, s'.now, s'.tasks[id], s'.heap[s'.tasks[id].entry])
    requires s'.replies == s.replies
             || (exists r :: s'.replies == s.replies + [r] && ReplyOk(c, s'.log, r))
    ensures Inv(c, s')
  {
    hide Owned, LogOk, FilesOk, StoreOk, TaskOk, ReplyOk, OnlyTask, CleanersOk, TasksOk;
    PastGrows(c, s, s');
    OthersGrow(c, s, s', id);
  }

  lemma OnlyHeap(s: State, s': State, id: nat)
    requires Owned(s) && id in s.tasks
    requires s'.tasks == s.tasks - {id} || (id in s'.tasks && s'.tasks == s.tasks[id := s'.tasks[id]])
    requires forall e :: e in s.heap && e != s.tasks[id].entry ==> e in s'.heap && s'.heap[e] == s.heap[e]
    ensures OnlyTask(s, s', id)
  {
  }

  lemma {:induction false} CreatedInPast(c: Config, log: seq<Event>, now: int, bound: nat, key: Key, r: CachedResponse)
    requires LogOk(c, log, now) && Explained(c, log, bound, key, r)
    ensures r.created <= now
  {
    hide Storable, MergeAll, Vary.Extract, EstimatedCreation, AlmostSame;
    var origin: nat, later: seq<nat> :| Explains(c, log, bound, key, r, origin, later);
    var last := if later == [] then origin else later[|later| - 1];
    assert last < |log|;
    CreationNotLate(c, log[last]);
  }

  lemma CreationNotLate(c: Config, e: Event)
    ensures CreatedBy(c, e) <= e.received
  {
  }

  /* ---- Arrive, Lookup ---- */

  lemma ArriveKeeps(c: Config, s: State, id: nat, key: Key, headers: Headers, entry: nat)
    requires Inv(c, s) && Enabled(c, s, Arrive(id, key, headers, entry))
    ensures Inv(c, DoArrive(s, id, key, headers, entry))
  {
    hide Exclusive, LogOk, FilesOk, StoreOk, CleanersOk, RepliesOk, EntryOk, TaskOk;
    var s' := DoArrive(s, id, key, headers, entry);
    ArriveOwned(s, id, key, headers, entry);
    ArrivedOk(c, s.log, s.now, s'.tasks[id], s'.heap[entry]);
    assert OnlyTask(s, s', id);
    StepTogether(c, s, s', id);
  }

  lemma ArrivedOk(c: Config, log: seq<Event>, now: int, t: Task, entry: Entry)
    requires t.phase.Arrived? && t.headers == t.original
    ensures TaskOk(c, log, now, t, entry)
  {
  }

  lemma LookupKeeps(c: Config, s: State, id: nat)
    requires Inv(c, s) && Enabled(c, s, Lookup(id))
    ensures Inv(c, DoLookup(s, id))
  {
    hide Exclusive, LogOk, FilesOk, Legitimate, CleanersOk, RepliesOk, ReplyOk;
    var s' := DoLookup(s, id);
    var t, t' := s.tasks[id], s'.tasks[id];
    var got := s'.heap[t.entry];
    OwnedStep(c, s, Lookup(id));
    OnlyHeap(s, s', id);
    if got.version != 0 {
      ReadIsPast(c, s.log, s.now, t.key, got.value);
    }
    StepTogether(c, s, s', id);
  }

  lemma ReadIsPast(c: Config, log: seq<Event>, now: int, key: Key, value: CachedResponses)
    requires LogOk(c, log, now) && Legitimate(c, log, |log|, key, value)
    ensures NoneNewer(value, now)
  {
    hide LogOk, Explained;
    forall i | 0 <= i < |value|
      ensures value[i].created <= now
    {
      CreatedInPast(c, log, now, |log|, key, value[i]);
    }
  }

  /* ---- Serving from the store ---- */

  /** What is served is in the entry and matches the request. */
  lemma ServedIsStored(
      p: Platform, req: Headers, value: CachedResponses, force: bool, at: int, view: set<CachedResponse>)
    returns (n: nat)
    requires Serve(p, req, value, force, at, view).Some?
    ensures n < |value| && value[n] == Serve(p, req, value, force, at, view).value
    ensures Vary.Matches(req, value[n].vary) && Usable(p, value[n], force, at, view)
  {
    hide StoredDate, Usable, Vary.Matches, Serve;
    n := ServeIsFirstEligible(p, req, value, force, at, view);
  }

  /** A stored response always has status 200. */
  lemma StoredStatus(c: Config, log: seq<Event>, bound: nat, key: Key, r: CachedResponse)
    requires Explained(c, log, bound, key, r)
    ensures r.status == OK
  {
    hide MergeAll, Vary.Extract, CreatedBy;
    var origin: nat, later: seq<nat> :| Explains(c, log, bound, key, r, origin, later);
    Caching.OnlyOkIsKept(c.platform, log[origin].resp.status, log[origin].resp.headers, c.isPrivate);
  }

  lemma HitReplyOk(c: Config, s: State, id: nat, at: int, view: set<CachedResponse>)
    requires Inv(c, s) && Enabled(c, s, TryServe(id, at, view))
    requires s.heap[s.tasks[id].entry].version != 0
    requires Serve(c.platform, s.tasks[id].headers, s.heap[s.tasks[id].entry].value, false, at, view).Some?
    ensures var r := Serve(c.platform, s.tasks[id].headers, s.heap[s.tasks[id].entry].value, false, at, view).value;
            r.contentHash in s.files
            && ReplyOk(c, s.log, FromStore(c, s, s.tasks[id], Hit, r, r.status, s.files[r.contentHash], at))
  {
    hide Serve, Explained, LogOk, Vary.Matches, Reusable, AlmostSame, Uniform, Conditional, Exclusive, RepliesOk,
         StoreOk, CleanersOk;
    var t := s.tasks[id];
    var entry := s.heap[t.entry];
    assert TaskOk(c, s.log, s.now, t, entry);
    var n := ServedIsStored(c.platform, t.headers, entry.value, false, at, view);
    var r := entry.value[n];
    StoredStatus(c, s.log, |s.log|, t.key, r);
    assert r.created <= at;
    assert Rendered(c, r, r.status, s.files[r.contentHash], at).status == OK;
  }

  lemma SentOk(c: Config, log: seq<Event>, now: int, t: Task, entry: Entry)
    requires TaskOk(c, log, now, t, entry) && t.phase.Looked?
    ensures var cond := if entry.version == 0 then Conditioned(t.headers, false, false)
                        else AddConditional(c.platform, t.headers, entry.value);
            TaskOk(c, log, now, t.(headers := cond.headers, phase := Sent(cond.has, cond.was)), entry)
  {
    hide Legitimate, Conditional, AddConditional;
    ConditionalTouches(c.platform, t.headers, entry.value);
  }

  lemma TryServeKeeps(c: Config, s: State, id: nat, at: int, view: set<CachedResponse>)
    requires Inv(c, s) && Enabled(c, s, TryServe(id, at, view))
    ensures Inv(c, DoTryServe(c, s, id, at, view))
  {
    hide Exclusive, LogOk, FilesOk, StoreOk, CleanersOk, RepliesOk, ReplyOk, TaskOk, Serve, AddConditional, FromStore;
    var s' := DoTryServe(c, s, id, at, view);
    var t := s.tasks[id];
    var entry := s.heap[t.entry];
    assert TaskOk(c, s.log, s.now, t, entry);
    OwnedStep(c, s, TryServe(id, at, view));
    OnlyHeap(s, s', id);
    if entry.version != 0 && Serve(c.platform, t.headers, entry.value, false, at, view).Some? {
      HitReplyOk(c, s, id, at, view);
    } else {
      SentOk(c, s.log, s.now, t, entry);
    }
    StepTogether(c, s, s', id);
  }

  /* ---- A round of forwarding ends ---- */

  lemma StrippedSays(h: Headers)
    ensures Conditional(RemoveHopByHop(h)) <==> Conditional(h)
    ensures AlmostSame(RemoveHopByHop(h), h)
  {
  }

  lemma AlmostSameTrans(a: Headers, b: Headers, c: Headers)
    requires AlmostSame(a, b) && AlmostSame(b, c)
    ensures AlmostSame(a, c)
  {
  }

  lemma ReceivedIsRecorded(c: Config, raw: Response, now: int)
    requires Sane(c)
    ensures DateOf(c.platform, Received(c.platform, raw, now).headers).Some?
    ensures Received(c.platform, raw, now).headers.Keys !! HOP_BY_HOP
  {
    var h := RemoveHopByHop(raw.headers);
    assert "Date" !in HOP_BY_HOP;
    assert First(h["Date" := [c.platform.formatTime(now)]], "Date") == c.platform.formatTime(now);
  }

  /** What a task becomes when its round has been answered. */
  lemma HeardOk(c: Config, s: State, id: nat, raw: Answer, requested: int, received: int, direct: bool)
    requires Inv(c, s) && Enabled(c, s, Hear(id, raw, requested, received, direct))
    ensures var s' := DoHear(c, s, id, raw, requested, received, direct);
            && id in s'.tasks && s'.tasks[id].entry == s.tasks[id].entry
            && TaskOk(c, s'.log, s'.now, s'.tasks[id], s.heap[s.tasks[id].entry])
            && AlmostSame(s'.tasks[id].headers, s.tasks[id].original)
  {
    hide Exclusive, LogOk, FilesOk, StoreOk, CleanersOk, RepliesOk, Legitimate, Received, AlmostSame, PhaseOk,
         RemoveHopByHop;
    var s' := DoHear(c, s, id, raw, requested, received, direct);
    var t, t' := s.tasks[id], s'.tasks[id];
    var entry := s.heap[t.entry];
    assert TaskOk(c, s.log, s.now, t, entry);
    StrippedSays(t.headers);
    if t'.headers != t.headers {
      AlmostSameTrans(t'.headers, t.headers, t.original);
    }
    if entry.version != 0 {
      LegitimateGrows(c, s.log, |s.log|, s'.log, Horizon(s'.log, t'), t.key, entry.value);
    }
    HeardPhaseOk(c, s, id, raw, requested, received, direct);
  }

  lemma HeardPhaseOk(c: Config, s: State, id: nat, raw: Answer, requested: int, received: int, direct: bool)
    requires Enabled(c, s, Hear(id, raw, requested, received, direct))
    requires PhaseOk(c, s.log, s.now, s.tasks[id], s.heap[s.tasks[id].entry])
    ensures var s' := DoHear(c, s, id, raw, requested, received, direct);
            PhaseOk(c, s'.log, s'.now, s'.tasks[id], s.heap[s.tasks[id].entry])
  {
    hide Received, Conditional, RemoveHopByHop, AddConditional;
    StrippedSays(s.tasks[id].headers);
    StrippedSays(s.tasks[id].original);
  }

  lemma HearKeeps(c: Config, s: State, id: nat, raw: Answer, requested: int, received: int, direct: bool)
    requires Sane(c) && Inv(c, s) && Enabled(c, s, Hear(id, raw, requested, received, direct))
    ensures Inv(c, DoHear(c, s, id, raw, requested, received, direct))
  {
    hide Exclusive, FilesOk, StoreOk, CleanersOk, RepliesOk, ReplyOk, TaskOk, Received, AlmostSame, RemoveHopByHop;
    var s' := DoHear(c, s, id, raw, requested, received, direct);
    OwnedStep(c, s, Hear(id, raw, requested, received, direct));
    OnlyHeap(s, s', id);
    HeardOk(c, s, id, raw, requested, received, direct);
    if raw.Got? {
      ReceivedIsRecorded(c, raw.resp, s.now);
      assert Recorded(c, s'.log[|s.log|], s'.now);
    }
    StepTogether(c, s, s', id);
  }

  /* ---- Deciding ---- */

  /** The answer is a 304 to a request that validators were added to. */
  predicate To304(t: Task, ans: Answer) {
    t.phase.Answered? && t.phase.has && ans.Got? && ans.resp.status == NOT_MODIFIED
  }

  /** Why each verdict is given. */
  ghost predicate Justified(c: Config, s: State, id: nat, v: Verdict, at: int, view: set<CachedResponse>)
    requires Deciding(s, id)
  {
    var t := s.tasks[id];
    var entry := s.heap[t.entry];
    var ans := Heard(s, t.phase.event);
    match v
    case Stale(r) =>
      && entry.version != 0 && Serve(c.platform, t.headers, entry.value, true, at, view) == Some(r)
      && (ans.Lost? || ans.resp.status >= 500 || (t.phase.Answered? && ans.resp.status == 429))
    case GiveUp =>
      && (ans.Lost? || ans.resp.status >= 500)
      && (entry.version == 0 || Serve(c.platform, t.headers, entry.value, true, at, view) == None)
    case Crash => To304(t, ans) && FindValidated(entry.value, ans.resp.headers).Panics?
    case Revalidate(i) => To304(t, ans) && FindValidated(entry.value, ans.resp.headers) == At(i)
    case PassThrough => To304(t, ans) && t.phase.was && FindValidated(entry.value, ans.resp.headers).Nowhere?
    case Retry => To304(t, ans) && !t.phase.was && FindValidated(entry.value, ans.resp.headers).Nowhere?
    case Refuse =>
      && ans.Got? && (t.phase.Answered? && ans.resp.status == NOT_MODIFIED ==> !t.phase.has)
      && Caching.Refused(c.platform, ans.resp.status, ans.resp.headers, c.isPrivate)
    case Ingest => ans.Got? && !Caching.Refused(c.platform, ans.resp.status, ans.resp.headers, c.isPrivate)
  }

  lemma VerdictJustified(c: Config, s: State, id: nat, at: int, view: set<CachedResponse>)
    requires Deciding(s, id) && Openable(s, view)
    ensures Justified(c, s, id, VerdictOf(c, s, id, at, view), at, view)
  {
    hide Serve, FindValidated, Caching.Refused;
  }

  lemma StaleReplyOk(c: Config, s: State, id: nat, r: CachedResponse, at: int, view: set<CachedResponse>)
    requires Inv(c, s) && Deciding(s, id) && Openable(s, view)
    requires Justified(c, s, id, Stale(r), at, view)
    ensures r.contentHash in s.files
            && ReplyOk(c, s.log, FromStore(c, s, s.tasks[id], StaleHit, r, r.status, s.files[r.contentHash], at))
  {
    hide Serve, Explained, LogOk, Vary.Matches, Reusable, AlmostSame, Uniform, Conditional, Exclusive, RepliesOk,
         StoreOk, CleanersOk, PhaseOk;
    var t := s.tasks[id];
    var entry := s.heap[t.entry];
    assert TaskOk(c, s.log, s.now, t, entry);
    var n := ServedIsStored(c.platform, t.headers, entry.value, true, at, view);
    StoredStatus(c, s.log, Horizon(s.log, t), t.key, r);
    ExplainedGrows(c, s.log, Horizon(s.log, t), s.log, |s.log|, t.key, r);
  }

  /** Replies made of what upstream said, or of nothing, hide no stray 304. */
  lemma PlainReplyOk(
      c: Config, s: State, id: nat, v: Verdict, kind: Kind, resp: Response, at: int, view: set<CachedResponse>)
    requires Inv(c, s) && Deciding(s, id) && Justified(c, s, id, v, at, view)
    requires kind.Miss? || kind.UpstreamTrouble? || kind.Panicked? || (kind.PassedThrough? && v.PassThrough?)
    requires resp == NO_RESPONSE || (Heard(s, s.tasks[id].phase.event) == Got(resp)
                                     && (v.GiveUp? || v.PassThrough? || v.Refuse? || v.Ingest?))
    ensures ReplyOk(c, s.log, FromUpstream(s, s.tasks[id], kind, resp, at))
  {
    hide Serve, Legitimate, LogOk, AlmostSame, Conditional, Exclusive, RepliesOk, StoreOk, CleanersOk, Vary.Matches,
         Caching.Refused, FindValidated, NamesTag, TagDiscipline, DateDiscipline, RepeatsDate, ClientTags,
         RemoveHopByHop, Reusable, Explained, Asking, Rendered;
    assert TaskOk(c, s.log, s.now, s.tasks[id], s.heap[s.tasks[id].entry]);
    if v.Ingest? && resp != NO_RESPONSE {
      Caching.OnlyOkIsKept(c.platform, resp.status, resp.headers, c.isPrivate);
    }
    if resp != NO_RESPONSE {
      StrippedSays(s.tasks[id].original);
      if v.PassThrough? {
        PassedThroughTag(c, s, id, at, view);
        PassedThroughDate(c, s, id, at, view);
      } else if v.Refuse? && resp.status == NOT_MODIFIED {
        RelayedTag(c, s, id);
        RelayedDate(c, s, id);
      }
    }
  }

  lemma {:induction false} StoredWellTagged(c: Config, log: seq<Event>, bound: nat, key: Key, r: CachedResponse)
    requires TagDiscipline(log) && Explained(c, log, bound, key, r)
    ensures WellTagged(r.headers)
  {
    hide Storable, MergeAll, Vary.Extract, CreatedBy, TagDiscipline, WellTagged, Values, LastNaming;
    var origin: nat, later: seq<nat> :| Explains(c, log, bound, key, r, origin, later);
    var updates := Updates(log, later);
    MergeAllIsRightBiased(log[origin].resp.headers, updates, "Etag");
    var n := LastNaming(updates, "Etag");
    if n == 0 {
      LoggedWellTagged(log, origin);
      SameTags(r.headers, log[origin].resp.headers);
    } else {
      LoggedWellTagged(log, later[n - 1]);
      NamedValues(updates[n - 1], "Etag");
      SameTags(r.headers, log[later[n - 1]].resp.headers);
    }
  }

  lemma LoggedWellTagged(log: seq<Event>, i: nat)
    requires TagDiscipline(log) && i < |log|
    ensures WellTagged(log[i].resp.headers)
  {
    hide WellTagged, NamesTag, ClientTags;
  }

  lemma NamedValues(h: Headers, k: string)
    requires k in h
    ensures Values(h, k) == h[k]
  {
  }

  lemma SameTags(a: Headers, b: Headers)
    requires WellTagged(b) && Values(a, "Etag") == Values(b, "Etag")
    ensures WellTagged(a)
  {
  }

  /** A 304 that is passed through names one of the client's own tags. */
  lemma PassedThroughTag(c: Config, s: State, id: nat, at: int, view: set<CachedResponse>)
    requires Inv(c, s) && Deciding(s, id) && Justified(c, s, id, PassThrough, at, view)
    ensures var resp := Heard(s, s.tasks[id].phase.event).resp;
            TagDiscipline(s.log) && First(resp.headers, "Etag") != "" ==>
              NamesTag(ClientTags(s.tasks[id].original), First(resp.headers, "Etag"))
  {
    hide LogOk, AlmostSame, Conditional, Exclusive, RepliesOk, StoreOk, CleanersOk, FindValidated, AddConditional,
         Explained, Uniform, WellTagged, Etag.WellFormed, Etag.WeakEqual, RemoveHopByHop, ClientTags;
    var t := s.tasks[id];
    var entry := s.heap[t.entry];
    var event := t.phase.event.value;
    var resp := s.log[event].resp;
    assert TaskOk(c, s.log, s.now, t, entry);
    if TagDiscipline(s.log) && First(resp.headers, "Etag") != "" {
      forall i | 0 <= i < |entry.value|
        ensures WellTagged(entry.value[i].headers)
      {
        StoredWellTagged(c, s.log, event, t.key, entry.value[i]);
      }
      StrippedTags(Asking(c, t, entry));
      FirstTag(resp.headers);
      assert NamesTag(ClientTags(Asking(c, t, entry)), First(resp.headers, "Etag"));
      PassedThroughNamesClient(c.platform, t.original, entry.value, resp.headers);
    }
  }

  /** A 304 to a request that carried the client's validators alone names one of them. */
  lemma RelayedTag(c: Config, s: State, id: nat)
    requires Deciding(s, id) && s.tasks[id].phase.event.Some?
    requires s.log[s.tasks[id].phase.event.value].sent == RemoveHopByHop(s.tasks[id].original)
    ensures var resp := Heard(s, s.tasks[id].phase.event).resp;
            resp.status == NOT_MODIFIED && TagDiscipline(s.log) && First(resp.headers, "Etag") != "" ==>
              NamesTag(ClientTags(s.tasks[id].original), First(resp.headers, "Etag"))
  {
    hide RemoveHopByHop, ClientTags, WellTagged;
    StrippedTags(s.tasks[id].original);
  }

  /** A stored response has one Last-Modified at most. */
  lemma {:induction false} StoredSingleDate(c: Config, log: seq<Event>, bound: nat, key: Key, r: CachedResponse)
    requires DateDiscipline(log) && Explained(c, log, bound, key, r)
    ensures |Values(r.headers, "Last-Modified")| <= 1
  {
    hide Storable, MergeAll, Vary.Extract, CreatedBy, DateDiscipline, Values, LastNaming;
    var origin: nat, later: seq<nat> :| Explains(c, log, bound, key, r, origin, later);
    var updates := Updates(log, later);
    MergeAllIsRightBiased(log[origin].resp.headers, updates, "Last-Modified");
    var n := LastNaming(updates, "Last-Modified");
    if n == 0 {
      LoggedSingleDate(log, origin);
    } else {
      LoggedSingleDate(log, later[n - 1]);
      NamedValues(updates[n - 1], "Last-Modified");
    }
  }

  lemma LoggedSingleDate(log: seq<Event>, i: nat)
    requires DateDiscipline(log) && i < |log|
    ensures |Values(log[i].resp.headers, "Last-Modified")| <= 1
  {
    hide RepeatsDate, First, Values;
  }

  lemma LoggedDate(log: seq<Event>, i: nat)
    requires DateDiscipline(log) && i < |log| && log[i].resp.status == NOT_MODIFIED && RepeatsDate(log[i].resp.headers)
    ensures First(log[i].resp.headers, "Last-Modified") == First(log[i].sent, "If-Modified-Since")
  {
    hide RepeatsDate, First, Values;
  }

  lemma StrippedDate(h: Headers)
    ensures First(RemoveHopByHop(h), "If-Modified-Since") == First(h, "If-Modified-Since")
  {
  }

  /** A 304 that is passed through and names no tag repeats the client's own date. */
  lemma PassedThroughDate(c: Config, s: State, id: nat, at: int, view: set<CachedResponse>)
    requires Inv(c, s) && Deciding(s, id) && Justified(c, s, id, PassThrough, at, view)
    ensures var resp := Heard(s, s.tasks[id].phase.event).resp;
            DateDiscipline(s.log) && RepeatsDate(resp.headers) ==>
              First(resp.headers, "Last-Modified") == First(s.tasks[id].original, "If-Modified-Since")
  {
    hide LogOk, AlmostSame, Conditional, Exclusive, RepliesOk, StoreOk, CleanersOk, FindValidated, AddConditional,
         Explained, Uniform, DateDiscipline, RemoveHopByHop, First, Values;
    var t := s.tasks[id];
    var entry := s.heap[t.entry];
    var event := t.phase.event.value;
    var resp := s.log[event].resp;
    assert TaskOk(c, s.log, s.now, t, entry);
    if DateDiscipline(s.log) && RepeatsDate(resp.headers) {
      forall i | 0 <= i < |entry.value|
        ensures |Values(entry.value[i].headers, "Last-Modified")| <= 1
      {
        StoredSingleDate(c, s.log, event, t.key, entry.value[i]);
      }
      LoggedDate(s.log, event);
      StrippedDate(Asking(c, t, entry));
      PassedThroughRepeatsClient(c.platform, t.original, entry.value, resp.headers);
    }
  }

  /** So does one to a request that carried the client's validators alone. */
  lemma RelayedDate(c: Config, s: State, id: nat)
    requires Deciding(s, id) && s.tasks[id].phase.event.Some?
    requires s.log[s.tasks[id].phase.event.value].sent == RemoveHopByHop(s.tasks[id].original)
    ensures var resp := Heard(s, s.tasks[id].phase.event).resp;
            resp.status == NOT_MODIFIED && DateDiscipline(s.log) && RepeatsDate(resp.headers) ==>
              First(resp.headers, "Last-Modified") == First(s.tasks[id].original, "If-Modified-Since")
  {
    hide RemoveHopByHop, DateDiscipline, RepeatsDate;
    var event := s.tasks[id].phase.event.value;
    if s.log[event].resp.status == NOT_MODIFIED && DateDiscipline(s.log) && RepeatsDate(s.log[event].resp.headers) {
      LoggedDate(s.log, event);
      StrippedDate(s.tasks[id].original);
    }
  }

  lemma StrippedTags(h: Headers)
    ensures ClientTags(RemoveHopByHop(h)) == ClientTags(h)
  {
    assert Values(RemoveHopByHop(h), "If-None-Match") == Values(h, "If-None-Match");
  }

  lemma FirstTag(h: Headers)
    requires WellTagged(h) && First(h, "Etag") != ""
    ensures Etag.WellFormed(First(h, "Etag"))
  {
    assert First(h, "Etag") in Values(h, "Etag");
  }

  /** The task after a verdict that does not end it. */
  lemma EnactedTaskOk(c: Config, s: State, id: nat, v: Verdict, at: int, view: set<CachedResponse>, tempOk: bool)
    requires Inv(c, s) && Deciding(s, id) && Fits(s, id, v) && Justified(c, s, id, v, at, view)
    requires v.Retry? || v.Revalidate? || (v.Ingest? && tempOk)
    ensures var s' := Enact(c, s, id, v, at, tempOk);
            id in s'.tasks && s'.tasks[id].entry in s'.heap
            && TaskOk(c, s.log, s.now, s'.tasks[id], s'.heap[s'.tasks[id].entry])
  {
    hide Serve, Legitimate, AlmostSame, Conditional, Exclusive, RepliesOk, StoreOk, CleanersOk, Rendered, Refreshed,
         TaskOk, Caching.Refused, FromUpstream, Chosen, FindValidated, TagDecides;
    var t := s.tasks[id];
    var entry := s.heap[t.entry];
    assert TaskOk(c, s.log, s.now, t, entry);
    match v
    case Retry => RetryingOk(c, s.log, s.now, t, entry);
    case Revalidate(i) =>
      assert Recorded(c, s.log[t.phase.event.value], s.now);
      FindValidatedExactly(entry.value, s.log[t.phase.event.value].resp.headers);
      SavingOk(c, s.log, s.now, t, entry, i);
    case Ingest => CopyingOk(c, s.log, s.now, t, entry);
  }

  lemma RetryingOk(c: Config, log: seq<Event>, now: int, t: Task, entry: Entry)
    requires TaskOk(c, log, now, t, entry) && t.phase.Answered? && t.phase.has && !t.phase.was
    ensures TaskOk(c, log, now, t.(phase := Retrying), entry)
  {
    hide Legitimate, AlmostSame, Conditional;
    LegitimateGrows(c, log, Horizon(log, t), log, |log|, t.key, entry.value);
  }

  lemma SavingOk(c: Config, log: seq<Event>, now: int, t: Task, entry: Entry, i: nat)
    requires TaskOk(c, log, now, t, entry) && t.phase.Answered? && t.phase.has && t.phase.event.Some?
    requires i < |entry.value| && log[t.phase.event.value].resp.status == NOT_MODIFIED
    requires Chosen(entry.value, log[t.phase.event.value].resp.headers, i)
    requires DateOf(c.platform, log[t.phase.event.value].resp.headers).Some?
    ensures var e := log[t.phase.event.value];
            var r := Refreshed(c.platform, entry.value[i], e.resp.headers, e.requested, e.received, now);
            TaskOk(c, log, now, t.(phase := Saving(i)), entry.(value := entry.value[i := r]))
  {
    hide Legitimate, AlmostSame, Conditional, Refreshed, Confirmed, Chosen;
    RefreshLegitimate(c, log, t.phase.event.value, t.key, entry.value, i, now);
    RefreshConfirmed(c, log, t.phase.event.value, t.key, entry.value, i, now);
  }

  lemma CopyingOk(c: Config, log: seq<Event>, now: int, t: Task, entry: Entry)
    requires TaskOk(c, log, now, t, entry) && (t.phase.Answered? || t.phase.Reanswered?) && t.phase.event.Some?
    requires Storable(c, log[t.phase.event.value])
    ensures var e := t.phase.event.value;
            TaskOk(c, log, now, t.(phase := Copying(e, Ingestion.Open(log[e].resp.body))), entry)
  {
    hide Legitimate, AlmostSame, Conditional, Storable;
    if entry.version != 0 {
      LegitimateGrows(c, log, Horizon(log, t), log, |log|, t.key, entry.value);
    }
  }

  lemma DecideKeeps(c: Config, s: State, id: nat, at: int, view: set<CachedResponse>, tempOk: bool)
    requires Inv(c, s) && Enabled(c, s, Decide(id, at, view, tempOk))
    ensures Inv(c, Apply(c, s, Decide(id, at, view, tempOk)))
  {
    hide Exclusive, LogOk, FilesOk, StoreOk, CleanersOk, RepliesOk, ReplyOk, TaskOk, TasksOk, FromStore, VerdictOf,
         Justified, Refreshed, Inv;
    var v := VerdictOf(c, s, id, at, view);
    VerdictJustified(c, s, id, at, view);
    EnactKeeps(c, s, id, v, at, view, tempOk);
  }

  lemma EnactKeeps(c: Config, s: State, id: nat, v: Verdict, at: int, view: set<CachedResponse>, tempOk: bool)
    requires Inv(c, s) && Deciding(s, id) && Fits(s, id, v) && Justified(c, s, id, v, at, view) && Openable(s, view)
    ensures Inv(c, Enact(c, s, id, v, at, tempOk))
  {
    hide Exclusive, LogOk, FilesOk, StoreOk, CleanersOk, RepliesOk, ReplyOk, TaskOk, FromStore, Justified, Refreshed;
    var s' := Enact(c, s, id, v, at, tempOk);
    EnactMoves(c, s, id, v, at, tempOk);
    MovesKeepOwned(s, s', id);
    OnlyHeap(s, s', id);
    var ans := Heard(s, s.tasks[id].phase.event);
    match v {
      case Stale(r) => StaleReplyOk(c, s, id, r, at, view);
      case GiveUp => PlainReplyOk(c, s, id, v, UpstreamTrouble, if ans.Lost? then NO_RESPONSE else ans.resp, at, view);
      case Crash => PlainReplyOk(c, s, id, v, Panicked, NO_RESPONSE, at, view);
      case PassThrough =>
        PlainReplyOk(c, s, id, v, PassedThrough, if ans.Lost? then NO_RESPONSE else ans.resp, at, view);
      case Refuse => PlainReplyOk(c, s, id, v, Miss, if ans.Lost? then NO_RESPONSE else ans.resp, at, view);
      case Ingest =>
        PlainReplyOk(c, s, id, v, Miss, if ans.Lost? then NO_RESPONSE else ans.resp, at, view);
        if tempOk {
          EnactedTaskOk(c, s, id, v, at, view, tempOk);
        }
      case _ => EnactedTaskOk(c, s, id, v, at, view, tempOk);
    }
    StepTogether(c, s, s', id);
  }

  /* ---- Committing a refresh and serving it ---- */

  lemma SavedOk(
      c: Config, log: seq<Event>, store: Database.Store<CachedResponses>, key: Key, version: nat,
      value: CachedResponses)
    requires StoreOk(c, log, store) && Legitimate(c, log, |log|, key, value)
    ensures StoreOk(c, log, Database.Saved(store, key, version, value))
    ensures StoreOk(c, log, Database.Deleted(store, key, version))
  {
    hide Legitimate, Database.Sound;
    Database.SoundKept(store, key, version, value);
  }

  lemma SavedTaskOk(c: Config, log: seq<Event>, now: int, t: Task, entry: Entry)
    requires TaskOk(c, log, now, t, entry) && t.phase.Saving?
    ensures TaskOk(c, log, now, t.(phase := Reopening(t.phase.i)), entry)
    ensures Legitimate(c, log, |log|, t.key, entry.value)
  {
    hide Legitimate, AlmostSame, Confirmed;
  }

  lemma CommitRefreshKeeps(c: Config, s: State, id: nat)
    requires Inv(c, s) && Enabled(c, s, CommitRefresh(id))
    ensures Inv(c, DoCommitRefresh(s, id))
  {
    hide Exclusive, LogOk, FilesOk, StoreOk, CleanersOk, RepliesOk, ReplyOk, Legitimate, Database.Saved, TaskOk;
    var s' := DoCommitRefresh(s, id);
    var t := s.tasks[id];
    var entry := s.heap[t.entry];
    assert TaskOk(c, s.log, s.now, t, entry);
    SavedTaskOk(c, s.log, s.now, t, entry);
    SavedOk(c, s.log, s.store, t.key, entry.version, entry.value);
    OwnedStep(c, s, CommitRefresh(id));
    OnlyHeap(s, s', id);
    StepTogether(c, s, s', id);
  }

  lemma RevalidatedReplyOk(c: Config, s: State, id: nat)
    requires Inv(c, s) && Enabled(c, s, Reopen(id))
    requires s.heap[s.tasks[id].entry].value[s.tasks[id].phase.i].contentHash in s.files
    ensures var r := s.heap[s.tasks[id].entry].value[s.tasks[id].phase.i];
            ReplyOk(c, s.log, FromStore(c, s, s.tasks[id], Revalidated, r, OK, s.files[r.contentHash], s.now))
  {
    hide Explained, LogOk, Vary.Matches, Reusable, AlmostSame, Uniform, Conditional, Exclusive, RepliesOk, StoreOk,
         CleanersOk;
    assert TaskOk(c, s.log, s.now, s.tasks[id], s.heap[s.tasks[id].entry]);
  }

  lemma ReopenKeeps(c: Config, s: State, id: nat)
    requires Inv(c, s) && Enabled(c, s, Reopen(id))
    ensures Inv(c, DoReopen(c, s, id))
  {
    hide Exclusive, LogOk, FilesOk, StoreOk, CleanersOk, RepliesOk, TaskOk, FromStore, Explained, AlmostSame,
         Conditional;
    var s' := DoReopen(c, s, id);
    OwnedStep(c, s, Reopen(id));
    OnlyHeap(s, s', id);
    if s.heap[s.tasks[id].entry].value[s.tasks[id].phase.i].contentHash in s.files {
      RevalidatedReplyOk(c, s, id);
    } else {
      assert ReplyOk(c, s.log, FromUpstream(s, s.tasks[id], Panicked, NO_RESPONSE, s.now));
    }
    StepTogether(c, s, s', id);
  }

  /* ---- Ingestion ---- */

  lemma ReadBodyKeeps(c: Config, s: State, id: nat, step: Ingestion.Step)
    requires Inv(c, s) && Enabled(c, s, ReadBody(id, step))
    ensures Inv(c, DoReadBody(s, id, step))
  {
    hide Exclusive, LogOk, FilesOk, StoreOk, CleanersOk, RepliesOk, ReplyOk, Legitimate, AlmostSame, Storable,
         Ingestion.Intact;
    var s' := DoReadBody(s, id, step);
    assert TaskOk(c, s.log, s.now, s.tasks[id], s.heap[s.tasks[id].entry]);
    Ingestion.ReadKeepsIntact(s.tasks[id].phase.tee, step);
    OwnedStep(c, s, ReadBody(id, step));
    OnlyHeap(s, s', id);
    StepTogether(c, s, s', id);
  }

  lemma AcceptedIsWhole(t: Ingestion.Tee, quotaHigh: nat, probe: Ingestion.Step)
    requires Ingestion.Intact(t) && Ingestion.Possible(t, probe) && Ingestion.Accepted(t, quotaHigh, probe)
    ensures t.copied == t.source
  {
    assert t.source[..|t.source|] == t.source;
  }

  /** A task that has published what it copied. */
  lemma SettledOk(c: Config, log: seq<Event>, now: int, t: Task, entry: Entry, probe: Ingestion.Step)
    requires TaskOk(c, log, now, t, entry) && t.phase.Copying? && Ingestion.Possible(t.phase.tee, probe)
    requires Ingestion.Accepted(t.phase.tee, c.quotaHigh, probe)
    ensures TaskOk(c, log, now, t.(phase := Settled(t.phase.source, t.phase.tee)), entry)
  {
    hide Legitimate, AlmostSame, Storable, Ingestion.Intact, Ingestion.Accepted, Ingestion.Possible;
    AcceptedIsWhole(t.phase.tee, c.quotaHigh, probe);
  }

  lemma PublishedOk(c: Config, files: map<string, Bytes>, body: Bytes)
    requires FilesOk(c, files)
    ensures FilesOk(c, files[c.platform.hash(body) := body])
  {
  }

  lemma CloseBodyKeeps(c: Config, s: State, id: nat, probe: Ingestion.Step, renameOk: bool, closeOk: bool)
    requires Inv(c, s) && Enabled(c, s, CloseBody(id, probe, renameOk, closeOk))
    ensures Inv(c, DoCloseBody(c, s, id, probe, renameOk, closeOk))
  {
    hide Exclusive, LogOk, FilesOk, StoreOk, CleanersOk, RepliesOk, TaskOk, ReplyOk, Ingestion.Accepted,
         Ingestion.Possible;
    var s' := DoCloseBody(c, s, id, probe, renameOk, closeOk);
    var t := s.tasks[id];
    assert TaskOk(c, s.log, s.now, t, s.heap[t.entry]);
    if Ingestion.Accepted(t.phase.tee, c.quotaHigh, probe) {
      SettledOk(c, s.log, s.now, t, s.heap[t.entry], probe);
      PublishedOk(c, s.files, t.phase.tee.copied);
    }
    OwnedStep(c, s, CloseBody(id, probe, renameOk, closeOk));
    OnlyHeap(s, s', id);
    StepTogether(c, s, s', id);
  }

  /** What onIngest writes is explained by the answer it was read from. */
  lemma ToStoreOk(c: Config, log: seq<Event>, now: int, t: Task, entry: Entry)
    requires LogOk(c, log, now) && TaskOk(c, log, now, t, entry) && t.phase.Settled?
    ensures t.phase.source < |log|
    ensures var r := ToStore(c, t, log[t.phase.source], t.phase.tee.copied, now);
            && Explained(c, log, |log|, t.key, r)
            && Legitimate(c, log, |log|, t.key, [r])
            && (entry.version != 0 ==> Legitimate(c, log, |log|, t.key, Insert(t.headers, entry.value, r)))
  {
    hide Legitimate, Explained, AlmostSame, Storable, Vary.Extract, EstimatedCreation, Insert, Conditional;
    var e := log[t.phase.source];
    var r := ToStore(c, t, e, t.phase.tee.copied, now);
    assert Recorded(c, e, now);
    CreationIgnoresClock(c, e, now);
    NewExplained(c, log, t.phase.source, t.key, r);
    OneLegitimate(c, log, t.key, r);
    if entry.version != 0 {
      InsertLegitimate(c, log, t.key, entry.value, t.headers, t.phase.source, r);
    }
  }

  lemma CommitIngestKeeps(c: Config, s: State, id: nat)
    requires Inv(c, s) && Enabled(c, s, CommitIngest(id))
    ensures Inv(c, DoCommitIngest(c, s, id))
  {
    hide Exclusive, LogOk, FilesOk, StoreOk, CleanersOk, RepliesOk, ReplyOk, Legitimate, TaskOk, Database.Saved,
         ToStore, Insert, Explained;
    var s' := DoCommitIngest(c, s, id);
    var t := s.tasks[id];
    var entry := s.heap[t.entry];
    assert TaskOk(c, s.log, s.now, t, entry);
    ToStoreOk(c, s.log, s.now, t, entry);
    var r := ToStore(c, t, s.log[t.phase.source], t.phase.tee.copied, s.now);
    var value := if entry.version != 0 then Insert(t.headers, entry.value, r) else [r];
    SavedOk(c, s.log, s.store, t.key, entry.version, value);
    OwnedStep(c, s, CommitIngest(id));
    OnlyHeap(s, s', id);
    StepTogether(c, s, s', id);
  }

  /* ---- Pruning, cleaning, time ---- */

  lemma CleanWriteKeeps(c: Config, s: State, id: nat, keep: set<nat>)
    requires Inv(c, s) && Enabled(c, s, CleanWrite(id, keep))
    ensures Inv(c, DoCleanWrite(s, id, keep))
  {
    hide Exclusive, LogOk, FilesOk, StoreOk, RepliesOk, Legitimate, TaskOk, Database.Saved, Database.Deleted, Kept;
    var (key, item) := s.cleaners[id];
    assert Legitimate(c, s.log, |s.log|, key, item.value);
    KeptLegitimate(c, s.log, |s.log|, key, item.value, keep);
    SavedOk(c, s.log, s.store, key, item.version, Kept(item.value, keep));
  }

  lemma CleanReadKeeps(c: Config, s: State, id: nat, key: Key)
    requires Inv(c, s) && key in s.store.items
    ensures Inv(c, s.(cleaners := s.cleaners[id := (key, s.store.items[key])]))
  {
    hide Exclusive, LogOk, FilesOk, RepliesOk, Legitimate, TaskOk;
  }

  lemma TickKeeps(c: Config, s: State, d: nat)
    requires Inv(c, s)
    ensures Inv(c, s.(now := s.now + d))
  {
    hide Exclusive, FilesOk, StoreOk, RepliesOk, ReplyOk, Legitimate, TaskOk, AlmostSame;
    var s' := s.(now := s.now + d);
    forall i | i in s.tasks
      ensures TaskOk(c, s.log, s'.now, s.tasks[i], s.heap[s.tasks[i].entry])
    {
      TaskGrows(c, s.log, s.now, s.log, s'.now, s.tasks[i], s.heap[s.tasks[i].entry]);
    }
  }

  lemma RemoveFileKeeps(c: Config, s: State, hash: string)
    requires Inv(c, s)
    ensures Inv(c, s.(files := s.files - {hash}))
  {
    hide Exclusive, LogOk, StoreOk, RepliesOk, TaskOk, Legitimate;
  }

  /* ---- All actions, all runs ---- */

  lemma StepKeepsInv(c: Config, s: State, a: Action)
    requires Sane(c) && Inv(c, s) && Enabled(c, s, a)
    ensures Inv(c, Apply(c, s, a))
  {
    hide Inv, DoArrive, DoLookup, DoTryServe, DoHear, Enact, VerdictOf, DoCommitRefresh, DoReopen, DoReadBody,
         DoCloseBody, DoCommitIngest, DoCleanWrite;
    match a
    case Arrive(id, key, headers, entry) => ArriveKeeps(c, s, id, key, headers, entry);
    case Lookup(id) => LookupKeeps(c, s, id);
    case TryServe(id, at, view) => TryServeKeeps(c, s, id, at, view);
    case Hear(id, raw, requested, received, direct) => HearKeeps(c, s, id, raw, requested, received, direct);
    case Decide(id, at, view, tempOk) => DecideKeeps(c, s, id, at, view, tempOk);
    case CommitRefresh(id) => CommitRefreshKeeps(c, s, id);
    case Reopen(id) => ReopenKeeps(c, s, id);
    case ReadBody(id, step) => ReadBodyKeeps(c, s, id, step);
    case CloseBody(id, probe, renameOk, closeOk) => CloseBodyKeeps(c, s, id, probe, renameOk, closeOk);
    case CommitIngest(id) => CommitIngestKeeps(c, s, id);
    case RemoveFile(hash) => RemoveFileKeeps(c, s, hash);
    case CleanRead(id, key) => CleanReadKeeps(c, s, id, key);
    case CleanWrite(id, keep) => CleanWriteKeeps(c, s, id, keep);
    case Tick(d) => TickKeeps(c, s, d);
  }

  lemma {:induction false} RunKeepsInv(c: Config, actions: seq<Action>)
    requires Sane(c) && IsRun(c, actions)
    ensures Inv(c, After(c, actions))
    decreases |actions|
  {
    hide Inv, Apply, Enabled;
    if actions != [] {
      var n := |actions| - 1;
      RunKeepsInv(c, actions[..n]);
      StepKeepsInv(c, After(c, actions[..n]), actions[n]);
    } else {
      InitialInv(c);
    }
  }

  lemma InitialInv(c: Config)
    ensures Inv(c, INITIAL)
  {
  }
}
