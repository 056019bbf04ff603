/** The invariant of every run of the proxy. */
module Runs {
  import opened Http
  import opened Client
  import opened Revalidation
  import opened System
  import opened Provenance
  import Database
  import Etag
  import Ingestion
  import Vary

  /* ---- Runs in sequence ---- */

  lemma Extend(c: Config, trace: seq<Action>, a: Action)
    requires IsRun(c, trace) && Enabled(c, After(c, trace), a)
    ensures IsRun(c, trace + [a]) && After(c, trace + [a]) == Apply(c, After(c, trace), a)
  {
    hide Enabled, Apply;
    assert (trace + [a])[..|trace|] == trace;
  }

  lemma {:induction false} Chained(c: Config, s: State, a: seq<Action>, b: seq<Action>)
    requires CanRun(c, s, a) && CanRun(c, RunFrom(c, s, a), b)
    ensures CanRun(c, s, a + b) && RunFrom(c, s, a + b) == RunFrom(c, RunFrom(c, s, a), b)
    decreases |a|
  {
    hide Enabled, Apply;
    if a == [] {
      assert a + b == b;
    } else {
      assert (a + b)[0] == a[0] && (a + b)[1..] == a[1..] + b;
      Chained(c, Apply(c, s, a[0]), a[1..], b);
    }
  }

  lemma OneStep(c: Config, s: State, a: Action)
    requires Enabled(c, s, a)
    ensures CanRun(c, s, [a]) && RunFrom(c, s, [a]) == Apply(c, s, a)
  {
    hide Enabled, Apply;
    assert [a][1..] == [];
    assert CanRun(c, Apply(c, s, a), [a][1..]);
  }

  /** Continuing a run gives a run. */
  lemma {:induction false} Continued(c: Config, trace: seq<Action>, more: seq<Action>)
    requires IsRun(c, trace) && CanRun(c, After(c, trace), more)
    ensures IsRun(c, trace + more) && After(c, trace + more) == RunFrom(c, After(c, trace), more)
    decreases |more|
  {
    hide Enabled, Apply;
    if more == [] {
      assert trace + more == trace;
    } else {
      Extend(c, trace, more[0]);
      Continued(c, trace + [more[0]], more[1..]);
      assert trace + [more[0]] + more[1..] == trace + more;
    }
  }

  /* ---- Who owns a pooled entry ---- */

  /** No entry is in the pool twice, held by two tasks, or held and in the pool. */
  ghost predicate Exclusive(tasks: map<nat, Task>, pool: multiset<nat>, entries: set<nat>) {
    && (forall e :: e in pool ==> pool[e] == 1 && e in entries)
    && (forall i :: i in tasks ==> tasks[i].entry in entries && tasks[i].entry !in pool)
    && (forall i, j :: i in tasks && j in tasks && tasks[i].entry == tasks[j].entry ==> i == j)
  }

  ghost predicate Owned(s: State) {
    Exclusive(s.tasks, s.pool, s.heap.Keys)
  }

  lemma Acquire(tasks: map<nat, Task>, pool: multiset<nat>, entries: set<nat>, id: nat, t: Task)
    requires Exclusive(tasks, pool, entries) && id !in tasks && (t.entry in pool <==> t.entry in entries)
    ensures Exclusive(tasks[id := t], pool - multiset{t.entry}, entries + {t.entry})
  {
  }

  lemma Release(tasks: map<nat, Task>, pool: multiset<nat>, entries: set<nat>, id: nat)
    requires Exclusive(tasks, pool, entries) && id in tasks
    ensures Exclusive(tasks - {id}, pool + multiset{tasks[id].entry}, entries)
    ensures Exclusive(tasks - {id}, pool, entries)
  {
  }

  lemma Keep(tasks: map<nat, Task>, pool: multiset<nat>, entries: set<nat>, id: nat, t: Task)
    requires Exclusive(tasks, pool, entries) && id in tasks && t.entry == tasks[id].entry
    ensures Exclusive(tasks[id := t], pool, entries)
  {
  }

  /** A step by one task: it keeps its entry, gives it back, or loses it. */
  ghost predicate Moves(s: State, s': State, id: nat) {
    && id in s.tasks && s'.heap.Keys == s.heap.Keys
    && (if id in s'.tasks
        then s'.tasks[id].entry == s.tasks[id].entry && s'.tasks == s.tasks[id := s'.tasks[id]] && s'.pool == s.pool
        else s'.tasks == s.tasks - {id} && (s'.pool == s.pool || s'.pool == s.pool + multiset{s.tasks[id].entry}))
  }

  lemma MovesKeepOwned(s: State, s': State, id: nat)
    requires Owned(s) && Moves(s, s', id)
    ensures Owned(s')
  {
    hide Exclusive;
    Release(s.tasks, s.pool, s.heap.Keys, id);
    if id in s'.tasks {
      Keep(s.tasks, s.pool, s.heap.Keys, id, s'.tasks[id]);
    }
  }

  lemma ArriveOwned(s: State, id: nat, key: Key, headers: Headers, entry: nat)
    requires Owned(s) && id !in s.tasks && (entry in s.pool <==> entry in s.heap)
    ensures Owned(DoArrive(s, id, key, headers, entry))
  {
    hide Exclusive;
    var s' := DoArrive(s, id, key, headers, entry);
    Acquire(s.tasks, s.pool, s.heap.Keys, id, s'.tasks[id]);
    assert s'.heap.Keys == s.heap.Keys + {entry};
  }

  lemma EnactMoves(c: Config, s: State, id: nat, v: Verdict, at: int, tempOk: bool)
    requires Deciding(s, id) && Fits(s, id, v)
    ensures Moves(s, Enact(c, s, id, v, at, tempOk), id)
  {
    hide Rendered, Refreshed;
  }

  lemma TaskMoves(c: Config, s: State, a: Action)
    requires Enabled(c, s, a) && !a.Arrive? && !a.RemoveFile? && !a.CleanRead? && !a.CleanWrite? && !a.Tick?
    ensures Moves(s, Apply(c, s, a), a.id)
  {
    hide Serve, AddConditional, RemoveHopByHop, ToStore, Insert, Rendered, Received, Enact, VerdictOf;
    if a.Decide? {
      EnactMoves(c, s, a.id, VerdictOf(c, s, a.id, a.at, a.view), a.at, a.tempOk);
    }
  }

  /** Pooled entries are never shared, never returned twice, and not returned while in use. */
  lemma OwnedStep(c: Config, s: State, a: Action)
    requires Owned(s) && Enabled(c, s, a)
    ensures Owned(Apply(c, s, a))
  {
    hide Exclusive, Moves;
    match a
    case Arrive(id, key, headers, entry) => ArriveOwned(s, id, key, headers, entry);
    case RemoveFile(_) =>
    case CleanRead(_, _) =>
    case CleanWrite(_, _) =>
    case Tick(_) =>
    case _ =>
      TaskMoves(c, s, a);
      MovesKeepOwned(s, Apply(c, s, a), a.id);
  }

  /* ---- What the tasks, the store and the replies are made of ---- */

  /** A version read from the store vouches for the value beside it; with version zero the value is leftover. */
  ghost predicate EntryOk(c: Config, log: seq<Event>, bound: nat, key: Key, entry: Entry) {
    entry.version != 0 ==> Legitimate(c, log, bound, key, entry.value)
  }

  /** The answer at this index was given to this task. */
  predicate Answers(log: seq<Event>, i: nat, t: Task) {
    i < |log| && log[i].key == t.key && log[i].asked == t.headers
  }

  /** Validators come from a read entry, and without them the request is as conditional as the client made it. */
  predicate Validated(t: Task, entry: Entry, has: bool, was: bool) {
    if has then entry.version != 0 && (was <==> Conditional(t.original))
    else Conditional(t.headers) <==> Conditional(t.original)
  }

  /** The client's request with the validators of the entry added. */
  function Asking(c: Config, t: Task, entry: Entry): Headers {
    AddConditional(c.platform, t.original, entry.value).headers
  }

  /** The copy belongs to a storable answer and has been faithful so far. */
  ghost predicate Copies(c: Config, log: seq<Event>, t: Task, source: nat, tee: Ingestion.Tee) {
    Answers(log, source, t) && Storable(c, log[source]) && tee.source == log[source].resp.body && Ingestion.Intact(tee)
  }

  ghost predicate PhaseOk(c: Config, log: seq<Event>, now: int, t: Task, entry: Entry) {
    match t.phase
    case Arrived => t.headers == t.original
    case Looked(since) =>
      since <= now && t.headers == t.original && (entry.version != 0 ==> NoneNewer(entry.value, since))
    case Sent(has, was) => Validated(t, entry, has, was) && t.headers == if has then Asking(c, t, entry) else t.original
    case Answered(has, was, event) =>
      && Validated(t, entry, has, was)
      && (event.Some? ==> Answers(log, event.value, t)
                          && log[event.value].sent == RemoveHopByHop(if has then Asking(c, t, entry) else t.original)
                          && (Conditional(log[event.value].sent) ==> has || Conditional(t.original)))
    case Saving(i) =>
      entry.version != 0 && i < |entry.value| && Confirmed(c, log, |log|, t.key, entry.value[i])
    case Reopening(i) =>
      entry.version != 0 && i < |entry.value| && Confirmed(c, log, |log|, t.key, entry.value[i])
    case Retrying => !Conditional(t.original)
    case Reanswered(event) =>
      event.Some? ==> Answers(log, event.value, t) && !Conditional(t.original)
                      && log[event.value].sent == RemoveHopByHop(t.original)
    case Copying(source, tee) => Copies(c, log, t, source, tee)
    case Settled(source, tee) => Copies(c, log, t, source, tee) && tee.copied == tee.source
  }

  ghost predicate NoneNewer(value: CachedResponses, at: int) {
    forall i :: 0 <= i < |value| ==> value[i].created <= at
  }

  /** Everything in the entry was known before the answer the task has just heard. */
  function Horizon(log: seq<Event>, t: Task): nat {
    if t.phase.Answered? && t.phase.event.Some? && t.phase.event.value <= |log| then t.phase.event.value else |log|
  }

  ghost predicate TaskOk(c: Config, log: seq<Event>, now: int, t: Task, entry: Entry) {
    && AlmostSame(t.headers, t.original)
    && (t.phase.Arrived? || EntryOk(c, log, Horizon(log, t), t.key, entry))
    && PhaseOk(c, log, now, t, entry)
  }

  ghost predicate FilesOk(c: Config, files: map<string, Bytes>) {
    forall h :: h in files ==> h == c.platform.hash(files[h])
  }

  ghost predicate StoreOk(c: Config, log: seq<Event>, store: Database.Store<CachedResponses>) {
    Database.Sound(store) && forall k :: k in store.items ==> Legitimate(c, log, |log|, k, store.items[k].value)
  }

  /** Upstream answers 304 only to conditional requests. */
  ghost predicate ConditionalOnly(log: seq<Event>) {
    forall i :: 0 <= i < |log| && log[i].resp.status == NOT_MODIFIED ==> Conditional(log[i].sent)
  }

  /** Entity tags are well formed, one per response, and a 304 with one names a tag that was sent. */
  ghost predicate TagDiscipline(log: seq<Event>) {
    forall i :: 0 <= i < |log| ==>
      WellTagged(log[i].resp.headers)
      && (log[i].resp.status == NOT_MODIFIED && First(log[i].resp.headers, "Etag") != "" ==>
            NamesTag(ClientTags(log[i].sent), First(log[i].resp.headers, "Etag")))
  }

  /** There is one Last-Modified per response, and a 304 without a tag repeats the date it answers. */
  ghost predicate DateDiscipline(log: seq<Event>) {
    forall i :: 0 <= i < |log| ==>
      |Values(log[i].resp.headers, "Last-Modified")| <= 1
      && (log[i].resp.status == NOT_MODIFIED && RepeatsDate(log[i].resp.headers) ==>
            First(log[i].resp.headers, "Last-Modified") == First(log[i].sent, "If-Modified-Since"))
  }

  /** Validated by date only. */
  predicate RepeatsDate(h: Headers) {
    First(h, "Etag") == "" && First(h, "Last-Modified") != ""
  }

  ghost predicate NamesTag(tags: seq<string>, etag: string) {
    exists t :: t in tags && Etag.WeakEqual(etag, t)
  }

  ghost predicate ReplyOk(c: Config, log: seq<Event>, reply: Reply) {
    && (reply.kind.Hit? || reply.kind.StaleHit? || reply.kind.Revalidated? <==> reply.from.Some?)
    && (reply.from.Some? ==>
          var r := reply.from.value;
          && reply.heard <= |log| && Explained(c, log, reply.heard, reply.key, r)
          && r.contentHash == c.platform.hash(reply.resp.body)
          && reply.resp == Rendered(c, r, OK, reply.resp.body, reply.at))
    && (reply.kind.Revalidated? ==> Confirmed(c, log, reply.heard, reply.key, reply.from.value))
    && (reply.kind.Hit? ==>
          reply.asked == reply.original && reply.from.value.created <= reply.at
          && Reusable(c.platform, reply.from.value, reply.at))
    && (reply.kind.Hit? || reply.kind.StaleHit? ==>
          AlmostSame(reply.asked, reply.original) && Vary.Matches(reply.asked, reply.from.value.vary))
    && (reply.resp.status == NOT_MODIFIED && ConditionalOnly(log) ==> Conditional(reply.original))
    && (reply.resp.status == NOT_MODIFIED && TagDiscipline(log) && First(reply.resp.headers, "Etag") != "" ==>
          NamesTag(ClientTags(reply.original), First(reply.resp.headers, "Etag")))
    && (reply.resp.status == NOT_MODIFIED && DateDiscipline(log) && RepeatsDate(reply.resp.headers) ==>
          First(reply.resp.headers, "Last-Modified") == First(reply.original, "If-Modified-Since"))
  }

  ghost predicate TasksOk(c: Config, s: State) {
    forall i :: i in s.tasks ==>
      s.tasks[i].entry in s.heap && TaskOk(c, s.log, s.now, s.tasks[i], s.heap[s.tasks[i].entry])
  }

  ghost predicate CleanersOk(c: Config, s: State) {
    forall i :: i in s.cleaners ==> Legitimate(c, s.log, |s.log|, s.cleaners[i].0, s.cleaners[i].1.value)
  }

  ghost predicate RepliesOk(c: Config, log: seq<Event>, replies: seq<Reply>) {
    forall i :: 0 <= i < |replies| ==> ReplyOk(c, log, replies[i])
  }

  ghost predicate Inv(c: Config, s: State) {
    && Owned(s)
    && LogOk(c, s.log, s.now)
    && FilesOk(c, s.files)
    && StoreOk(c, s.log, s.store)
    && TasksOk(c, s)
    && CleanersOk(c, s)
    && RepliesOk(c, s.log, s.replies)
  }

  /* ---- Growth ---- */

  lemma PhaseGrows(c: Config, log: seq<Event>, now: int, log': seq<Event>, now': int, t: Task, entry: Entry)
    requires PhaseOk(c, log, now, t, entry) && log <= log' && now <= now'
    ensures PhaseOk(c, log', now', t, entry)
  {
    hide Storable, Conditional, Ingestion.Intact, Asking, RemoveHopByHop, Confirmed;
    assert forall i :: 0 <= i < |log| ==> log'[i] == log[i];
    if t.phase.Saving? || t.phase.Reopening? {
      ConfirmedGrows(c, log, |log|, log', |log'|, t.key, entry.value[t.phase.i]);
    }
  }

  lemma TaskGrows(c: Config, log: seq<Event>, now: int, log': seq<Event>, now': int, t: Task, entry: Entry)
    requires TaskOk(c, log, now, t, entry) && log <= log' && now <= now'
    ensures TaskOk(c, log', now', t, entry)
  {
    hide PhaseOk, Legitimate, AlmostSame;
    PhaseGrows(c, log, now, log', now', t, entry);
    if !t.phase.Arrived? && entry.version != 0 {
      LegitimateGrows(c, log, Horizon(log, t), log', Horizon(log, t), t.key, entry.value);
      LegitimateGrows(c, log, Horizon(log, t), log', Horizon(log', t), t.key, entry.value);
    }
  }

  lemma ReplyGrows(c: Config, log: seq<Event>, log': seq<Event>, reply: Reply)
    requires ReplyOk(c, log, reply) && log <= log'
    ensures ReplyOk(c, log', reply)
  {
    hide Explained, Confirmed, Rendered, Reusable, AlmostSame, Vary.Matches, Conditional, NamesTag, WellTagged,
         ClientTags, RepeatsDate, First, Values;
    if reply.from.Some? {
      ExplainedGrows(c, log, reply.heard, log', reply.heard, reply.key, reply.from.value);
    }
    if reply.kind.Revalidated? {
      ConfirmedGrows(c, log, reply.heard, log', reply.heard, reply.key, reply.from.value);
    }
    assert forall i :: 0 <= i < |log| ==> log'[i] == log[i];
  }

  /** The parts of the invariant that only speak of the past survive any growth of log and clock. */
  lemma PastGrows(c: Config, s: State, s': State)
    requires Inv(c, s) && s.log <= s'.log && s.now <= s'.now
    ensures s'.store == s.store ==> StoreOk(c, s'.log, s'.store)
    ensures s'.cleaners == s.cleaners ==> CleanersOk(c, s')
    ensures RepliesOk(c, s'.log, s.replies)
  {
    hide Legitimate, ReplyOk, Owned, LogOk, TasksOk;
    forall k | k in s.store.items
      ensures Legitimate(c, s'.log, |s'.log|, k, s.store.items[k].value)
    {
      LegitimateGrows(c, s.log, |s.log|, s'.log, |s'.log|, k, s.store.items[k].value);
    }
    forall i | i in s.cleaners
      ensures Legitimate(c, s'.log, |s'.log|, s.cleaners[i].0, s.cleaners[i].1.value)
    {
      LegitimateGrows(c, s.log, |s.log|, s'.log, |s'.log|, s.cleaners[i].0, s.cleaners[i].1.value);
    }
    forall i | 0 <= i < |s.replies|
      ensures ReplyOk(c, s'.log, s.replies[i])
    {
      ReplyGrows(c, s.log, s'.log, s.replies[i]);
    }
  }

  /** A step of task id leaves the other tasks as they are. */
  ghost predicate OnlyTask(s: State, s': State, id: nat) {
    forall j :: j in s'.tasks && j != id ==>
      j in s.tasks && s'.tasks[j] == s.tasks[j]
      && s.tasks[j].entry in s.heap && s.tasks[j].entry in s'.heap
      && s'.heap[s.tasks[j].entry] == s.heap[s.tasks[j].entry]
  }

  lemma OthersGrow(c: Config, s: State, s': State, id: nat)
    requires TasksOk(c, s) && s.log <= s'.log && s.now <= s'.now && OnlyTask(s, s', id)
    requires id in s'.tasks ==>
               s'.tasks[id].entry in s'.heap
               && TaskOk(c, s'.log, s'.now, s'.tasks[id], s'.heap[s'.tasks[id].entry])
    ensures TasksOk(c, s')
  {
    hide TaskOk;
    forall j | j in s'.tasks && j != id
      ensures s'.tasks[j].entry in s'.heap
              && TaskOk(c, s'.log, s'.now, s'.tasks[j], s'.heap[s'.tasks[j].entry])
    {
      TaskGrows(c, s.log, s.now, s'.log, s'.now, s.tasks[j], s.heap[s.tasks[j].entry]);
    }
  }
}
