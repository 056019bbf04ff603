/** The cache has an effect: an answer that may be reused is stored and serves the next matching request. */
module Effect {
  import opened Http
  import opened Freshness
  import opened Client
  import opened Revalidation
  import opened System
  import opened Provenance
  import opened Runs
  import opened Steps
  import opened Pool
  import opened Proxy
  import CacheControl
  import Caching
  import Database
  import Ingestion
  import Vary

  /* ---- A request that finds nothing, fetches and stores ---- */

  /** A request, with the answer upstream gives to it. */
  datatype Fetch = Fetch(id: nat, key: Key, req: Headers, entry: nat, raw: Response)

  predicate Starts(s: State, f: Fetch) {
    f.id !in s.tasks && (f.entry in s.pool <==> f.entry in s.heap)
  }

  /** Nothing but this task, its entry and the pool has changed. */
  ghost predicate Busy(s: State, s': State, f: Fetch, phase: Phase, headers: Headers) {
    && s' == s.(heap := s'.heap, pool := s'.pool, tasks := s'.tasks)
    && f.id in s'.tasks && s'.tasks[f.id] == Task(f.key, f.req, headers, f.entry, phase)
    && f.entry in s'.heap
  }

  lemma Looks(c: Config, s: State, f: Fetch)
    requires Starts(s, f)
    ensures var acts := [Arrive(f.id, f.key, f.req, f.entry), Lookup(f.id)];
            && CanRun(c, s, acts)
            && var s' := RunFrom(c, s, acts);
               && Busy(s, s', f, Looked(s.now), f.req)
               && FoundIn(s, f.key, s'.heap[f.entry])
  {
    hide CanRun, RunFrom;
    var arrive, lookup := Arrive(f.id, f.key, f.req, f.entry), Lookup(f.id);
    OneStep(c, s, arrive);
    var s1 := Apply(c, s, arrive);
    assert Busy(s, s1, f, Arrived, f.req);
    OneStep(c, s1, lookup);
    Chained(c, s, [arrive], [lookup]);
    assert [arrive] + [lookup] == [arrive, lookup];
  }

  /** The answer as Do hears it. */
  function Heads(c: Config, s: State, f: Fetch): Response {
    Received(c.platform, f.raw, s.now)
  }

  /** The request as it goes upstream: with the validators of what is stored under its key, without hop-by-hop
      fields. */
  function Outgoing(c: Config, s: State, f: Fetch): Headers {
    RemoveHopByHop(
      if f.key in s.store.items then AddConditional(c.platform, f.req, s.store.items[f.key].value).headers else f.req)
  }

  function EventOf(c: Config, s: State, f: Fetch): Event {
    Event(f.key, f.req, Outgoing(c, s, f), Outgoing(c, s, f), Heads(c, s, f), s.now, s.now)
  }

  /** The steps of asking upstream, once the store has nothing to offer. */
  function Fetching(s: State, f: Fetch, tempOk: bool): seq<Action> {
    [TryServe(f.id, s.now, {}), Hear(f.id, Got(f.raw), s.now, s.now, true), Decide(f.id, s.now, {}, tempOk)]
  }

  /** What is stored is not usable or not seen: the request goes upstream, and the answer is to be stored. Without a
      temporary file the task is over at once. */
  lemma Fetches(c: Config, s: State, s1: State, f: Fetch, tempOk: bool)
    requires Busy(s, s1, f, Looked(s.now), f.req) && FoundIn(s, f.key, s1.heap[f.entry]) && Database.Sound(s.store)
    requires !Caching.Refused(c.platform, Heads(c, s, f).status, Heads(c, s, f).headers, c.isPrivate)
    ensures CanRun(c, s1, Fetching(s, f, tempOk))
    ensures var s' := RunFrom(c, s1, Fetching(s, f, tempOk));
            var copying := Copying(|s.log|, Ingestion.Open(Heads(c, s, f).body));
            && s' == s1.(tasks := s'.tasks, log := s.log + [EventOf(c, s, f)], replies := s'.replies)
            && (tempOk ==>
                  && f.id in s'.tasks
                  && s'.tasks[f.id] == Task(f.key, f.req, Outgoing(c, s, f), f.entry, copying))
            && (!tempOk ==> s'.tasks == s1.tasks - {f.id})
  {
    hide CanRun, RunFrom, Received, RemoveHopByHop, Caching.Refused, Serve, AddConditional, FindValidated;
    var serve, hear := TryServe(f.id, s.now, {}), Hear(f.id, Got(f.raw), s.now, s.now, true);
    var decide := Decide(f.id, s.now, {}, tempOk);
    Caching.OnlyOkIsKept(c.platform, Heads(c, s, f).status, Heads(c, s, f).headers, c.isPrivate);
    MissStep(c, s1, f.id);
    OneStep(c, s1, serve);
    var s2 := Apply(c, s1, serve);
    OneStep(c, s2, hear);
    var s3 := Apply(c, s2, hear);
    assert Heard(s3, s3.tasks[f.id].phase.event) == Got(Heads(c, s, f));
    DecideStep(c, s3, f.id, tempOk);
    OneStep(c, s3, decide);
    Chained(c, s2, [hear], [decide]);
    Chained(c, s1, [serve], [hear] + [decide]);
    assert [serve] + ([hear] + [decide]) == [serve, hear, decide];
    assert s3.tasks - {f.id} == s1.tasks - {f.id};
  }

  /** The response that ends up in the store. */
  function StoredBy(c: Config, s: State, f: Fetch): CachedResponse {
    ToStore(c, Task(f.key, f.req, Outgoing(c, s, f), f.entry, Arrived), EventOf(c, s, f), f.raw.body, s.now)
  }

  /** The list it ends up in. */
  function Filled(c: Config, s: State, f: Fetch): CachedResponses {
    if f.key in s.store.items then Insert(Outgoing(c, s, f), s.store.items[f.key].value, StoredBy(c, s, f))
    else [StoredBy(c, s, f)]
  }

  /** One read that takes everything, and the probe at the end of file. */
  function ReadAll(f: Fetch): Ingestion.Step {
    Ingestion.Step(|f.raw.body|, Ingestion.Eof, |f.raw.body|, false)
  }

  const AT_END := Ingestion.Step(0, Ingestion.Eof, 0, false)

  lemma ReadsWhole(c: Config, f: Fetch)
    requires |f.raw.body| <= c.quotaHigh / 2
    ensures var tee := Ingestion.Open(f.raw.body);
            && Ingestion.Possible(tee, ReadAll(f))
            && var read := Ingestion.Read(tee, ReadAll(f));
               read.copied == f.raw.body && Ingestion.Possible(read, AT_END)
                       && Ingestion.Accepted(read, c.quotaHigh, AT_END)
  {
    assert [] + f.raw.body[0..|f.raw.body|] == f.raw.body;
  }

  /** The body is read to its end and closed: file and entry are there. */
  lemma Stores(c: Config, s: State, f: Fetch, source: nat, headers: Headers)
    requires f.id in s.tasks && f.entry in s.heap && source < |s.log| && |f.raw.body| <= c.quotaHigh / 2
    requires s.tasks[f.id] == Task(f.key, f.req, headers, f.entry, Copying(source, Ingestion.Open(f.raw.body)))
    ensures var acts := [ReadBody(f.id, ReadAll(f)), CloseBody(f.id, AT_END, true, true), CommitIngest(f.id)];
            && CanRun(c, s, acts)
            && var s' := RunFrom(c, s, acts);
               var r := ToStore(c, Task(f.key, f.req, headers, f.entry, Arrived), s.log[source], f.raw.body, s.now);
               var entry := s.heap[f.entry];
               && s' == s.(store := s'.store, files := s'.files, heap := s'.heap,
                           tasks := s.tasks - {f.id}, pool := s.pool + multiset{f.entry})
               && f.entry in s'.heap
               && s'.files == s.files[c.platform.hash(f.raw.body) := f.raw.body]
               && s'.store == Database.Saved(s.store, f.key, entry.version,
                                             if entry.version != 0 then Insert(headers, entry.value, r) else [r])
  {
    hide CanRun, RunFrom, Ingestion.Read, Ingestion.Possible, Ingestion.Accepted, Database.Saved, EstimatedCreation,
         Vary.Extract, Insert;
    var read, close, commit := ReadBody(f.id, ReadAll(f)), CloseBody(f.id, AT_END, true, true), CommitIngest(f.id);
    ReadsWhole(c, f);
    OneStep(c, s, read);
    var s1 := Apply(c, s, read);
    OneStep(c, s1, close);
    var s2 := Apply(c, s1, close);
    assert s2.tasks - {f.id} == s.tasks - {f.id};
    OneStep(c, s2, commit);
    Chained(c, s1, [close], [commit]);
    Chained(c, s, [read], [close] + [commit]);
    assert [read] + ([close] + [commit]) == [read, close, commit];
  }

  /* ---- The next request ---- */

  lemma OnlyCandidate(p: Platform, req: Headers, r: CachedResponse)
    requires Vary.Matches(req, r.vary) && StoredDate(p, r) >= ZERO_TIME
    ensures MostRecent(p, Candidates(req, [r])) == [r]
  {
    hide Vary.Matches, StoredDate;
    assert [r][1..] == [];
    assert [r] + [] == [r];
    assert Candidates(req, []) == [] && Candidates(req, [r]) == [r];
    assert MaxDate(p, []) == ZERO_TIME && MaxDate(p, [r]) == StoredDate(p, r);
    assert DatedAt(p, [], StoredDate(p, r)) == [] && DatedAt(p, [r], StoredDate(p, r)) == [r];
  }

  /** A reusable response among the most recent candidates is served without asking upstream. */
  lemma Serves(c: Config, s: State, f: Fetch, r: CachedResponse)
    requires Starts(s, f) && f.key in s.store.items && s.store.items[f.key].version != 0
    requires r in MostRecent(c.platform, Candidates(f.req, s.store.items[f.key].value))
    requires r.contentHash in s.files && StillGood(c.platform, r.headers, r.created, s.now)
    ensures var acts := [Arrive(f.id, f.key, f.req, f.entry), Lookup(f.id)] + [TryServe(f.id, s.now, {r})];
            && CanRun(c, s, acts)
            && var s' := RunFrom(c, s, acts);
               && s'.log == s.log
               && var resp := Rendered(c, r, r.status, s.files[r.contentHash], s.now);
                  s'.replies == s.replies + [Reply(f.key, f.req, f.req, Hit, resp, Some(r), s.now, |s.log|)]
  {
    hide CanRun, RunFrom, Reusable, StillGood, MostRecent, Candidates, Rendered, Apply, Enabled;
    ReusableExactly(c.platform, r, s.now);
    var begin := [Arrive(f.id, f.key, f.req, f.entry), Lookup(f.id)];
    var serve := TryServe(f.id, s.now, {r});
    Looks(c, s, f);
    var s1 := RunFrom(c, s, begin);
    HitStep(c, s1, f.id, s.now, r);
    OneStep(c, s1, serve);
    Chained(c, s, begin, [serve]);
  }

  /** The steps of a request that is answered from upstream and stored, its body being read to the end. */
  function Filling(s: State, f: Fetch): seq<Action> {
    [Arrive(f.id, f.key, f.req, f.entry), Lookup(f.id)]
    + Fetching(s, f, true)
    + [ReadBody(f.id, ReadAll(f)), CloseBody(f.id, AT_END, true, true), CommitIngest(f.id)]
  }

  /** The answer may be stored and is small enough. */
  predicate Keepable(c: Config, s: State, f: Fetch) {
    && !Caching.Refused(c.platform, Heads(c, s, f).status, Heads(c, s, f).headers, c.isPrivate)
    && |f.raw.body| <= c.quotaHigh / 2
  }

  lemma HeadsKeep(c: Config, s: State, f: Fetch)
    ensures Heads(c, s, f).status == f.raw.status && Heads(c, s, f).body == f.raw.body
  {
  }

  /** An answer that may be kept and is read to its end is stored under its key, whatever was stored there before. */
  lemma Fills(c: Config, s: State, f: Fetch)
    requires Starts(s, f) && Keepable(c, s, f) && Database.Sound(s.store)
    ensures CanRun(c, s, Filling(s, f))
    ensures var s' := RunFrom(c, s, Filling(s, f));
            && Starts(s', f) && s'.now == s.now && s'.log == s.log + [EventOf(c, s, f)]
            && s'.files == s.files[c.platform.hash(f.raw.body) := f.raw.body]
            && f.key in s'.store.items && s'.store.items[f.key].value == Filled(c, s, f)
            && s'.store.items[f.key].version != 0
            && Database.Sound(s'.store) && (forall k :: k != f.key && k in s.store.items ==> k in s'.store.items)
  {
    hide CanRun, RunFrom, Received, RemoveHopByHop, Caching.Refused, ToStore, ReadAll, Apply, Enabled, AddConditional,
         Insert;
    HeadsKeep(c, s, f);
    var look := [Arrive(f.id, f.key, f.req, f.entry), Lookup(f.id)];
    var fetch := Fetching(s, f, true);
    var store := [ReadBody(f.id, ReadAll(f)), CloseBody(f.id, AT_END, true, true), CommitIngest(f.id)];
    Looks(c, s, f);
    var s1 := RunFrom(c, s, look);
    Fetches(c, s, s1, f, true);
    var s2 := RunFrom(c, s1, fetch);
    Stores(c, s2, f, |s.log|, Outgoing(c, s, f));
    Chained(c, s, look, fetch);
    Chained(c, s, look + fetch, store);
    if f.key in s.store.items {
      Database.SoundKept(s.store, f.key, s.store.items[f.key].version, Filled(c, s, f));
    } else {
      Database.SoundKept(s.store, f.key, 0, Filled(c, s, f));
    }
  }

  /** The steps of a request that is a hit. */
  function Hitting(s: State, f: Fetch, r: CachedResponse): seq<Action> {
    [Arrive(f.id, f.key, f.req, f.entry), Lookup(f.id)] + [TryServe(f.id, s.now, {r})]
  }

  /** The last reply is a hit for this request with this body. */
  ghost predicate HitLast(s: State, f: Fetch, body: Bytes) {
    && s.replies != []
    && var reply := s.replies[|s.replies| - 1];
       && reply.kind.Hit? && reply.key == f.key && reply.original == f.req
       && reply.resp.status == OK && reply.resp.body == body
  }

  /** From any reachable state, a request whose answer may be kept and is read to its end is stored; and after any
      further steps of anybody that leave the response stored, fresh and with its file, a request that has it among
      its most recent candidates is a hit: the same body, and not one more question to upstream. */
  lemma StoredThenServed(c: Config, trace: seq<Action>, f: Fetch, between: seq<Action>, g: Fetch)
    returns (more: seq<Action>)
    requires Sane(c) && Injective(c.platform.hash) && IsRun(c, trace)
    requires Starts(After(c, trace), f) && Keepable(c, After(c, trace), f)
    requires CanRun(c, After(c, trace), Filling(After(c, trace), f) + between)
    requires var s := After(c, trace);
             var r := StoredBy(c, s, f);
             var later := RunFrom(c, s, Filling(s, f) + between);
             && Starts(later, g) && g.key == f.key && f.key in later.store.items && r.contentHash in later.files
             && r in MostRecent(c.platform, Candidates(g.req, later.store.items[f.key].value))
             && StillGood(c.platform, r.headers, r.created, later.now)
    ensures var s := After(c, trace);
            var later := RunFrom(c, s, Filling(s, f) + between);
            && CanRun(c, later, more)
            && RunFrom(c, later, more).log == later.log
            && HitLast(RunFrom(c, later, more), g, f.raw.body)
  {
    hide CanRun, RunFrom, Keepable, StillGood, Filling, Starts, MostRecent, Candidates, StoredBy, IsRun, After, Inv,
         Sane, Injective;
    var s := After(c, trace);
    var r := StoredBy(c, s, f);
    var later := RunFrom(c, s, Filling(s, f) + between);
    Continued(c, trace, Filling(s, f) + between);
    RunKeepsInv(c, trace + (Filling(s, f) + between));
    KeptIsOk(c, s, f);
    StoredBody(c, later, f.raw.body);
    StoredVersion(c, later, f.key);
    Serves(c, later, g, r);
    more := Hitting(later, g, r);
  }

  /** A file's name is the hash of its content. */
  lemma StoredBody(c: Config, s: State, body: Bytes)
    requires Inv(c, s) && Injective(c.platform.hash)
    ensures c.platform.hash(body) in s.files ==> s.files[c.platform.hash(body)] == body
  {
    hide Owned, LogOk, StoreOk, TasksOk, CleanersOk, RepliesOk;
  }

  lemma StoredVersion(c: Config, s: State, key: Key)
    requires Inv(c, s) && key in s.store.items
    ensures s.store.items[key].version != 0
  {
    hide Owned, LogOk, FilesOk, TasksOk, CleanersOk, RepliesOk, Legitimate;
  }

  lemma KeptIsOk(c: Config, s: State, f: Fetch)
    requires Keepable(c, s, f)
    ensures StoredBy(c, s, f).status == OK && StoredBy(c, s, f).contentHash == c.platform.hash(f.raw.body)
  {
    hide Received, Caching.Refused;
    Caching.OnlyOkIsKept(c.platform, Heads(c, s, f).status, Heads(c, s, f).headers, c.isPrivate);
  }

  /** For a key that was not stored nothing is left to ask: if only time passes, every request that matches the stored
      Vary values while the response is fresh is a hit. */
  lemma StoredThenServedLater(c: Config, trace: seq<Action>, f: Fetch, d: nat, again: Headers)
    returns (more: seq<Action>)
    requires Sane(c) && Injective(c.platform.hash) && IsRun(c, trace)
    requires Starts(After(c, trace), f) && Keepable(c, After(c, trace), f) && f.key !in After(c, trace).store.items
    requires var s := After(c, trace);
             var r := StoredBy(c, s, f);
             && StillGood(c.platform, r.headers, r.created, s.now + d)
             && StoredDate(c.platform, r) >= ZERO_TIME && Vary.Matches(again, r.vary)
    ensures var s := After(c, trace);
            && CanRun(c, s, more)
            && RunFrom(c, s, more).log == s.log + [EventOf(c, s, f)]
            && HitLast(RunFrom(c, s, more), f.(req := again), f.raw.body)
  {
    hide CanRun, RunFrom, Keepable, StillGood, Filling, EventOf, StoredBy, IsRun, After, Inv, Sane, Injective,
         MostRecent, Candidates, Vary.Matches, StoredDate, HitLast;
    var s := After(c, trace);
    var r := StoredBy(c, s, f);
    RunKeepsInv(c, trace);
    SoundStore(c, s);
    Fills(c, s, f);
    var s1 := RunFrom(c, s, Filling(s, f));
    Ticks(c, s1, d);
    Chained(c, s, Filling(s, f), [Tick(d)]);
    KeptIsOk(c, s, f);
    OnlyCandidate(c.platform, again, r);
    more := StoredThenServed(c, trace, f, [Tick(d)], f.(req := again));
    Chained(c, s, Filling(s, f) + [Tick(d)], more);
    more := Filling(s, f) + [Tick(d)] + more;
  }

  lemma SoundStore(c: Config, s: State)
    requires Inv(c, s)
    ensures Database.Sound(s.store)
  {
    hide Owned, LogOk, FilesOk, TasksOk, CleanersOk, RepliesOk, Legitimate;
  }

  lemma Ticks(c: Config, s: State, d: nat)
    ensures CanRun(c, s, [Tick(d)]) && RunFrom(c, s, [Tick(d)]) == s.(now := s.now + d)
  {
    OneStep(c, s, Tick(d));
  }

  /* ---- Two keys, one file ---- */

  lemma FilledHolds(c: Config, s: State, f: Fetch)
    ensures StoredBy(c, s, f) in Filled(c, s, f)
  {
    hide Outgoing, StoredBy, Insert;
    if f.key in s.store.items {
      var n := InsertByIndex(Outgoing(c, s, f), s.store.items[f.key].value, StoredBy(c, s, f));
      assert Filled(c, s, f)[n] == StoredBy(c, s, f);
    }
  }

  /** Removing a key: its entry is read and deleted, then its file. */
  function Removing(key: Key, hash: string): seq<Action> {
    [CleanRead(0, key), CleanWrite(0, {}), RemoveFile(hash)]
  }

  lemma {:induction false} NoneKept(value: CachedResponses)
    ensures Kept(value, {}) == []
  {
    if value != [] {
      NoneKept(value[..|value| - 1]);
    }
  }

  lemma Removes(c: Config, s: State, key: Key, hash: string)
    requires key in s.store.items
    ensures CanRun(c, s, Removing(key, hash))
    ensures var s' := RunFrom(c, s, Removing(key, hash));
            && hash !in s'.files
            && (forall k :: k != key && k in s.store.items ==>
                  k in s'.store.items && s'.store.items[k] == s.store.items[k])
  {
    hide CanRun, RunFrom, Kept, Database.Saved;
    var read, write, remove := CleanRead(0, key), CleanWrite(0, {}), RemoveFile(hash);
    OneStep(c, s, read);
    var s1 := Apply(c, s, read);
    NoneKept(s.store.items[key].value);
    OneStep(c, s1, write);
    var s2 := Apply(c, s1, write);
    OneStep(c, s2, remove);
    Chained(c, s1, [write], [remove]);
    Chained(c, s, [read], [write] + [remove]);
    assert [read] + ([write] + [remove]) == [read, write, remove];
  }

  /** From any reachable state: two keys are answered with the same body, one is removed, and the other is left with a
      stored response that has no file. */
  lemma RemovalLeavesNoFile(c: Config, trace: seq<Action>, f: Fetch, g: Fetch) returns (acts: seq<Action>)
    requires Sane(c) && IsRun(c, trace) && f.key != g.key && f.raw.body == g.raw.body
    requires Starts(After(c, trace), f) && Keepable(c, After(c, trace), f)
    requires var s1 := RunFilled(c, After(c, trace), f); Starts(s1, g) && Keepable(c, s1, g)
    ensures CanRun(c, After(c, trace), acts)
    ensures var s' := RunFrom(c, After(c, trace), acts);
            && g.key in s'.store.items
            && exists r :: r in s'.store.items[g.key].value && r.contentHash !in s'.files
  {
    hide CanRun, RunFrom, IsRun, After, Inv, Filling, Keepable, StoredBy, Filled, Removing, EventOf;
    var s := After(c, trace);
    RunKeepsInv(c, trace);
    SoundStore(c, s);
    Fills(c, s, f);
    var s1 := RunFilled(c, s, f);
    Fills(c, s1, g);
    var s2 := RunFrom(c, s1, Filling(s1, g));
    FilledHolds(c, s1, g);
    KeptIsOk(c, s1, g);
    var hash := c.platform.hash(g.raw.body);
    Removes(c, s2, f.key, hash);
    Chained(c, s, Filling(s, f), Filling(s1, g));
    Chained(c, s, Filling(s, f) + Filling(s1, g), Removing(f.key, hash));
    acts := Filling(s, f) + Filling(s1, g) + Removing(f.key, hash);
    assert StoredBy(c, s1, g) in RunFrom(c, s, acts).store.items[g.key].value;
  }

  /** The state once a request has been answered and stored. */
  ghost function RunFilled(c: Config, s: State, f: Fetch): State {
    if CanRun(c, s, Filling(s, f)) then RunFrom(c, s, Filling(s, f)) else s
  }

  /* ---- Losing an entry ---- */

  /** From any reachable state: an answer that is to be stored and gets no temporary file takes the entry with it. */
  lemma EntryIsLost(c: Config, trace: seq<Action>, f: Fetch)
    requires Sane(c) && IsRun(c, trace) && Starts(After(c, trace), f) && Keepable(c, After(c, trace), f)
    ensures var s := After(c, trace);
            var acts := [Arrive(f.id, f.key, f.req, f.entry), Lookup(f.id)] + Fetching(s, f, false);
            && CanRun(c, s, acts)
            && var s' := RunFrom(c, s, acts);
               f.entry in s'.heap && f.entry !in s'.pool && !HeldBy(s', f.entry)
  {
    hide CanRun, RunFrom, Received, IsRun, After, Sane, Inv, Fetching, Apply, Enabled, Caching.Refused, EventOf,
         Outgoing;
    var s := After(c, trace);
    var look := [Arrive(f.id, f.key, f.req, f.entry), Lookup(f.id)];
    RunKeepsInv(c, trace);
    SoundStore(c, s);
    Looks(c, s, f);
    var s1 := RunFrom(c, s, look);
    Continued(c, trace, look);
    OwnedInRuns(c, trace + look);
    Fetches(c, s, s1, f, false);
    Chained(c, s, look, Fetching(s, f, false));
  }

  /* ---- An instance ---- */

  function Spelled(b: Bytes): string {
    seq(|b|, i requires 0 <= i < |b| => b[i] as char)
  }

  lemma SpelledIsInjective()
    ensures Injective(Spelled)
  {
    forall a, b | Spelled(a) == Spelled(b)
      ensures a == b
    {
      assert |a| == |Spelled(a)| == |b|;
      forall i | 0 <= i < |a|
        ensures a[i] == b[i]
      {
        assert a[i] as char == Spelled(a)[i] == Spelled(b)[i] == b[i] as char;
        assert a[i] as char as int == a[i] as int && b[i] as char as int == b[i] as int;
      }
    }
  }

  /** A platform on which the text "e" is one minute after every other date. */
  const SMALL := Config(
    Platform(text => Some(if text == "e" then 60 * SECOND else 0), t => "d", n => "0", Spelled), false, 10)

  /** A response that says nothing about caching but when it expires, a minute from its Date. */
  predicate Expiring(h: Headers) {
    && Values(h, "Date") == ["d"] && Values(h, "Expires") == ["e"] && h.Keys !! HOP_BY_HOP
    && h.Keys !! {"Cache-Control", "Age", "Range", "Content-Range", "Authorization"}
  }

  /** The first request ever, answered with two bytes. */
  function Greeting(h: Headers, req: Headers): Fetch {
    Fetch(0, "GET+http://host/", req, 0, Response(OK, h, [104, 105]))
  }

  lemma GreetingArrives(h: Headers, req: Headers)
    requires Expiring(h)
    ensures Heads(SMALL, INITIAL, Greeting(h, req)) == Greeting(h, req).raw
  {
    assert RemoveHopByHop(h) == h;
  }

  lemma NoDirectives()
    ensures CacheControl.Read([]) == CacheControl.Reading(CacheControl.NO_DIRECTIVES, true)
  {
    assert CacheControl.Tokens([]) == [];
  }

  lemma ExpiringIsKept(h: Headers)
    requires Expiring(h)
    ensures Values(h, "Cache-Control") == [] && First(h, "Date") == "d"
    ensures Caching.IsCacheable(SMALL.platform, OK, h, false) == Caching.Verdict(true, true)
    ensures EstimatedCreation(SMALL.platform, h, 0, 0, 0) == 0
    ensures Lifetime(SMALL.platform, h, CacheControl.NO_DIRECTIVES) == 60 * SECOND
  {
    hide CacheControl.Read;
    NoDirectives();
    assert First(h, "Expires") == "e" && First(h, "Age") == "";
  }

  lemma GreetingIsKept(h: Headers, req: Headers)
    requires Expiring(h)
    ensures Keepable(SMALL, INITIAL, Greeting(h, req))
    ensures var r := StoredBy(SMALL, INITIAL, Greeting(h, req));
            StillGood(SMALL.platform, r.headers, r.created, 0) && StoredDate(SMALL.platform, r) >= ZERO_TIME
            && r.vary == Vary.Extract(RemoveHopByHop(req), h)
  {
    hide CacheControl.Read, Received, Caching.IsCacheable, EstimatedCreation, Lifetime, Vary.Extract, RemoveHopByHop,
         StillGood;
    GreetingArrives(h, req);
    NoDirectives();
    ExpiringIsKept(h);
    ReusableExactly(SMALL.platform, StoredBy(SMALL, INITIAL, Greeting(h, req)), 0);
  }

  lemma NoActions(c: Config)
    ensures IsRun(c, []) && After(c, []) == INITIAL
  {
  }

  /** The answer to one client is a hit for another: one question to upstream, two replies. */
  ghost predicate SharedAnswer(trace: seq<Action>, req: Headers, h: Headers, again: Headers) {
    && Sane(SMALL) && Injective(SMALL.platform.hash) && IsRun(SMALL, trace)
    && var s := After(SMALL, trace);
       && |s.log| == 1 && s.log[0].client == req && s.log[0].resp.headers == h
       && HitLast(s, Greeting(h, again), [104, 105])
  }

  /** Every request that matches what was stored shares the answer. */
  lemma AnswerIsShared(h: Headers, req: Headers, again: Headers) returns (trace: seq<Action>)
    requires Expiring(h) && Vary.Matches(again, Vary.Extract(RemoveHopByHop(req), h))
    ensures SharedAnswer(trace, req, h, again)
  {
    hide IsRun, After, CanRun, RunFrom, Keepable, StillGood, StoredDate, Vary.Matches, StoredBy, Injective, HitLast,
         Expiring, Vary.Extract, RemoveHopByHop, Received;
    var f := Greeting(h, req);
    SpelledIsInjective();
    GreetingIsKept(h, req);
    GreetingArrives(h, req);
    NoActions(SMALL);
    trace := StoredThenServedLater(SMALL, [], f, 0, again);
    Continued(SMALL, [], trace);
    assert [] + trace == trace;
    assert f.(req := again) == Greeting(h, again);
  }

  /** The premises can be met: there are runs with hits for the theorems about them to speak of. */
  lemma HitsHappen() returns (c: Config, trace: seq<Action>, i: nat)
    ensures Sane(c) && Injective(c.platform.hash) && IsRun(c, trace)
    ensures i < |After(c, trace).replies| && After(c, trace).replies[i].kind.Hit?
  {
    hide IsRun, After, Injective, Vary.Matches, Vary.Extract, RemoveHopByHop;
    c := SMALL;
    assert Expiring(PLAIN);
    AnyMatches(PLAIN, RemoveHopByHop(map[]), map[]);
    trace := AnswerIsShared(PLAIN, map[], map[]);
    i := |After(c, trace).replies| - 1;
  }

  const PLAIN: Headers := map["Date" := ["d"], "Expires" := ["e"]]

  /** Without a Vary field every request matches. */
  lemma AnyMatches(h: Headers, req: Headers, again: Headers)
    requires "Vary" !in h
    ensures Vary.Matches(again, Vary.Extract(req, h))
  {
    assert Vary.Names(h) == [];
    Vary.MatchesIsKernel(req, again, h);
  }

  /** A run that loses an entry: the first request ever, without a temporary file. */
  lemma EntriesGetLost() returns (trace: seq<Action>)
    ensures Sane(SMALL) && IsRun(SMALL, trace) && !Accounted(After(SMALL, trace))
  {
    hide IsRun, After, CanRun, RunFrom, Keepable, HeldBy, StillGood, StoredBy, StoredDate;
    var f := Greeting(PLAIN, map[]);
    assert Expiring(PLAIN);
    GreetingIsKept(PLAIN, map[]);
    NoActions(SMALL);
    EntryIsLost(SMALL, [], f);
    trace := [Arrive(f.id, f.key, f.req, f.entry), Lookup(f.id)] + Fetching(INITIAL, f, false);
    Continued(SMALL, [], trace);
    assert [] + trace == trace;
  }
}
