/** The whole proxy as a state machine: concurrent requests, body readers, the cleaner and the clock
    take atomic steps in any order. A run is any sequence of enabled actions. */
module System {
  import opened Http
  import opened Freshness
  import opened Client
  import opened Revalidation
  import Caching
  import Database
  import Ingestion
  import Vary

  type Key = Database.Key

  datatype Config = Config(platform: Platform, isPrivate: bool, quotaHigh: nat)

  datatype Response = Response(status: int, headers: Headers, body: Bytes)

  /** What a round of forwarding yields. */
  datatype Answer = Lost | Got(resp: Response)

  /* ---- The decisions of Do after a round of forwarding ---- */

  datatype Entry = Entry(value: CachedResponses, version: nat)

  datatype Verdict =
    | Stale(from: CachedResponse)  // upstream is in trouble, a stored response stands in
    | GiveUp                       // upstream is in trouble and nothing is stored
    | Revalidate(i: nat)           // a 304 that names stored response i
    | PassThrough                  // a 304 for the client's own condition
    | Retry                        // a 304 nobody can use
    | Refuse                       // not to be stored
    | Ingest                       // to be stored while it is read
    | Crash                        // a slice expression out of range

  function StandIn(
      c: Config, headers: Headers, entry: Entry, at: int, view: set<CachedResponse>): (r: Option<CachedResponse>)
    ensures r.Some? ==> r.value in view
  {
    if entry.version == 0 then None else Serve(c.platform, headers, entry.value, true, at, view)
  }

  function Conclude(c: Config, resp: Response): Verdict {
    if Caching.Refused(c.platform, resp.status, resp.headers, c.isPrivate) then Refuse else Ingest
  }

  predicate InTrouble(ans: Answer) {
    ans.Lost? || ans.resp.status >= 500
  }

  function AfterAnswer(
      c: Config, ans: Answer, has: bool, was: bool, headers: Headers, entry: Entry, at: int, view: set<CachedResponse>)
    : (v: Verdict)
    ensures v.Stale? ==> v.from in view
    ensures v.Revalidate? ==> v.i < |entry.value|
    ensures v.Revalidate? || v.PassThrough? || v.Refuse? || v.Ingest? ==> ans.Got?
  {
    var standIn := StandIn(c, headers, entry, at, view);
    if InTrouble(ans) then (if standIn.Some? then Stale(standIn.value) else GiveUp)
    else if ans.resp.status == TOO_MANY_REQUESTS && standIn.Some? then Stale(standIn.value)
    else if has && ans.resp.status == NOT_MODIFIED then
      match FindValidated(entry.value, ans.resp.headers)
      case At(i) => Revalidate(i)
      case Panics => Crash
      case Nowhere => if was then PassThrough else Retry
    else Conclude(c, ans.resp)
  }

  function AfterRetry(
      c: Config, ans: Answer, headers: Headers, entry: Entry, at: int, view: set<CachedResponse>): (v: Verdict)
    ensures v.Stale? ==> v.from in view
    ensures v.Stale? || v.GiveUp? || v.Refuse? || v.Ingest?
    ensures v.Refuse? || v.Ingest? ==> ans.Got?
  {
    var standIn := StandIn(c, headers, entry, at, view);
    if InTrouble(ans) then (if standIn.Some? then Stale(standIn.value) else GiveUp)
    else Conclude(c, ans.resp)
  }

  /** What forwardRequest makes of a raw upstream response. */
  function Received(p: Platform, raw: Response, now: int): Response {
    var h := RemoveHopByHop(raw.headers);
    raw.(headers := if DateOf(p, h).Some? then h else h["Date" := [p.formatTime(now)]])
  }

  /* ---- State ---- */

  /** One upstream answer: the client's request, the request object then, what upstream was sent, and when. */
  datatype Event = Event(
    key: Key,
    client: Headers,
    asked: Headers,
    sent: Headers,
    resp: Response,
    requested: int,
    received: int
  )

  datatype Phase =
    | Arrived
    | Looked(since: int)
    | Sent(has: bool, was: bool)
    | Answered(has: bool, was: bool, event: Option<nat>)
    | Saving(i: nat)
    | Reopening(i: nat)
    | Retrying
    | Reanswered(event: Option<nat>)
    | Copying(source: nat, tee: Ingestion.Tee)  // replied; the client reads the body while it is copied
    | Settled(source: nat, tee: Ingestion.Tee)  // the file is published, onIngest has still to run

  /** A request in flight, until its body is closed; headers is the request object Do keeps changing. */
  datatype Task = Task(key: Key, original: Headers, headers: Headers, entry: nat, phase: Phase)

  datatype Kind = Hit | StaleHit | Revalidated | Miss | PassedThrough | UpstreamTrouble | Panicked

  datatype Reply = Reply(
    key: Key,
    original: Headers,
    asked: Headers,
    kind: Kind,
    resp: Response,
    from: Option<CachedResponse>,
    at: int,
    heard: nat  // how many upstream answers there had been
  )

  datatype State = State(
    store: Database.Store<CachedResponses>,
    files: map<string, Bytes>,
    now: int,
    heap: map<nat, Entry>,
    pool: multiset<nat>,
    tasks: map<nat, Task>,
    cleaners: map<nat, (Key, Database.Item<CachedResponses>)>,
    log: seq<Event>,
    replies: seq<Reply>
  )

  const INITIAL := State(Database.Store(map[], 0), map[], ZERO_TIME, map[], multiset{}, map[], map[], [], [])

  /* ---- Actions ---- */

  datatype Action =
    | Arrive(id: nat, key: Key, headers: Headers, entry: nat)
    | Lookup(id: nat)
    | TryServe(id: nat, at: int, view: set<CachedResponse>)
    | Hear(id: nat, raw: Answer, requested: int, received: int, direct: bool)
    | Decide(id: nat, at: int, view: set<CachedResponse>, tempOk: bool)
    | CommitRefresh(id: nat)
    | Reopen(id: nat)
    | ReadBody(id: nat, step: Ingestion.Step)
    | CloseBody(id: nat, probe: Ingestion.Step, renameOk: bool, closeOk: bool)
    | CommitIngest(id: nat)
    | RemoveFile(hash: string)
    | CleanRead(id: nat, key: Key)
    | CleanWrite(id: nat, keep: set<nat>)
    | Tick(d: nat)

  predicate Live(s: State, id: nat) {
    id in s.tasks && s.tasks[id].entry in s.heap
  }

  /** The stored responses a step may find open. Opening is tried response by response, so a response that was missed
      just before its file appeared is left out of the view. */
  predicate Openable(s: State, view: set<CachedResponse>) {
    forall r :: r in view ==> r.contentHash in s.files
  }

  predicate Enabled(c: Config, s: State, a: Action) {
    match a
    case Arrive(id, _, _, entry) =>
      id !in s.tasks && (entry in s.pool <==> entry in s.heap)
    case Lookup(id) => Live(s, id) && s.tasks[id].phase.Arrived?
    case TryServe(id, at, view) =>
      && Live(s, id) && s.tasks[id].phase.Looked? && Openable(s, view)
      && s.tasks[id].phase.since <= at <= s.now
    case Hear(id, _, requested, received, _) =>
      Live(s, id) && (s.tasks[id].phase.Sent? || s.tasks[id].phase.Retrying?) && requested <= received <= s.now
    case Decide(id, at, view, _) => Deciding(s, id) && Openable(s, view) && at <= s.now
    case CommitRefresh(id) => Live(s, id) && s.tasks[id].phase.Saving?
    case Reopen(id) =>
      Live(s, id) && s.tasks[id].phase.Reopening? && s.tasks[id].phase.i < |s.heap[s.tasks[id].entry].value|
    case ReadBody(id, step) =>
      Live(s, id) && s.tasks[id].phase.Copying? && Ingestion.Possible(s.tasks[id].phase.tee, step)
    case CloseBody(id, probe, _, _) =>
      Live(s, id) && s.tasks[id].phase.Copying? && Ingestion.Possible(s.tasks[id].phase.tee, probe)
    case CommitIngest(id) =>
      Live(s, id) && s.tasks[id].phase.Settled? && s.tasks[id].phase.source < |s.log|
    case RemoveFile(_) => true
    case CleanRead(_, key) => key in s.store.items
    case CleanWrite(id, _) => id in s.cleaners
    case Tick(_) => true
  }

  /* ---- Effects ---- */

  /** The task ends and its entry goes back to the pool. */
  function Ended(s: State, id: nat): State
    requires id in s.tasks
  {
    s.(tasks := s.tasks - {id}, pool := s.pool + multiset{s.tasks[id].entry})
  }

  function Replied(s: State, reply: Reply): State {
    s.(replies := s.replies + [reply])
  }

  /** Do returns without an ingestion. */
  function Returned(s: State, id: nat, reply: Reply): State
    requires id in s.tasks
  {
    Replied(Ended(s, id), reply)
  }

  function InPhase(s: State, id: nat, phase: Phase): State
    requires id in s.tasks
  {
    s.(tasks := s.tasks[id := s.tasks[id].(phase := phase)])
  }

  /** A stored response as it is sent, with its Age. */
  function Rendered(c: Config, r: CachedResponse, status: int, body: Bytes, at: int): Response {
    Response(status, r.headers["Age" := [c.platform.formatSeconds(CurrentAge(r.created, at) / SECOND)]], body)
  }

  function FromStore(
      c: Config, s: State, req: Task, kind: Kind, r: CachedResponse, status: int, body: Bytes, at: int): Reply
  {
    Reply(req.key, req.original, req.headers, kind, Rendered(c, r, status, body, at), Some(r), at, |s.log|)
  }

  function FromUpstream(s: State, req: Task, kind: Kind, resp: Response, at: int): Reply {
    Reply(req.key, req.original, req.headers, kind, resp, None, at, |s.log|)
  }

  const NO_RESPONSE := Response(0, map[], [])

  function Heard(s: State, event: Option<nat>): Answer
    requires event.Some? ==> event.value < |s.log|
  {
    if event.None? then Lost else Got(s.log[event.value].resp)
  }

  function DoArrive(s: State, id: nat, key: Key, headers: Headers, entry: nat): State {
    s.(heap := if entry in s.heap then s.heap else s.heap[entry := Entry([], 0)],
       pool := s.pool - multiset{entry},
       tasks := s.tasks[id := Task(key, headers, headers, entry, Arrived)])
  }

  /** A missing key resets the version and leaves the old value in place. */
  function DoLookup(s: State, id: nat): State
    requires Live(s, id) && s.tasks[id].phase.Arrived?
  {
    var req := s.tasks[id];
    var got :=
      if req.key in s.store.items then Entry(s.store.items[req.key].value, s.store.items[req.key].version)
      else s.heap[req.entry].(version := 0);
    s.(heap := s.heap[req.entry := got], tasks := s.tasks[id := req.(phase := Looked(s.now))])
  }

  function DoTryServe(c: Config, s: State, id: nat, at: int, view: set<CachedResponse>): State
    requires Live(s, id) && s.tasks[id].phase.Looked? && Openable(s, view)
  {
    var req := s.tasks[id];
    var entry := s.heap[req.entry];
    var found :=
      if entry.version == 0 then None else Serve(c.platform, req.headers, entry.value, false, at, view);
    if found.Some? then
      var r := found.value;
      Returned(s, id, FromStore(c, s, req, Hit, r, r.status, s.files[r.contentHash], at))
    else
      var cond := if entry.version == 0 then Conditioned(req.headers, false, false)
                  else AddConditional(c.platform, req.headers, entry.value);
      s.(tasks := s.tasks[id := req.(headers := cond.headers, phase := Sent(cond.has, cond.was))])
  }

  /** A round of forwarding ends. Only a direct attempt strips the request object itself; the retry sends the
      original. */
  function DoHear(c: Config, s: State, id: nat, raw: Answer, requested: int, received: int, direct: bool): State
    requires Live(s, id) && (s.tasks[id].phase.Sent? || s.tasks[id].phase.Retrying?)
  {
    var req := s.tasks[id];
    var first := req.phase.Sent?;
    var outgoing := if first then req.headers else req.original;
    var kept := if first && direct then RemoveHopByHop(req.headers) else req.headers;
    var event := if raw.Lost? then None else Some(|s.log|);
    var phase := if first then Answered(req.phase.has, req.phase.was, event) else Reanswered(event);
    s.(log := if raw.Lost? then s.log
              else s.log + [Event(req.key, req.original, kept, RemoveHopByHop(outgoing),
                                  Received(c.platform, raw.resp, s.now), requested, received)],
       tasks := s.tasks[id := req.(headers := kept, phase := phase)])
  }

  /** A round has ended for this task. */
  predicate Deciding(s: State, id: nat) {
    && Live(s, id) && (s.tasks[id].phase.Answered? || s.tasks[id].phase.Reanswered?)
    && (s.tasks[id].phase.event.Some? ==> s.tasks[id].phase.event.value < |s.log|)
  }

  predicate Fits(s: State, id: nat, v: Verdict)
    requires Deciding(s, id)
  {
    && (v.Stale? ==> v.from.contentHash in s.files)
    && (v.Revalidate? ==> v.i < |s.heap[s.tasks[id].entry].value|)
    && (v.Revalidate? || v.Ingest? ==> s.tasks[id].phase.event.Some?)
  }

  function VerdictOf(c: Config, s: State, id: nat, at: int, view: set<CachedResponse>): (v: Verdict)
    requires Deciding(s, id) && Openable(s, view)
    ensures Fits(s, id, v)
  {
    var req := s.tasks[id];
    var entry := s.heap[req.entry];
    var ans := Heard(s, req.phase.event);
    if req.phase.Answered? then AfterAnswer(c, ans, req.phase.has, req.phase.was, req.headers, entry, at, view)
    else AfterRetry(c, ans, req.headers, entry, at, view)
  }

  function Enact(c: Config, s: State, id: nat, v: Verdict, at: int, tempOk: bool): State
    requires Deciding(s, id) && Fits(s, id, v)
  {
    var req := s.tasks[id];
    var ans := Heard(s, req.phase.event);
    var resp := if ans.Lost? then NO_RESPONSE else ans.resp;
    match v
    case Stale(r) => Returned(s, id, FromStore(c, s, req, StaleHit, r, r.status, s.files[r.contentHash], at))
    case GiveUp => Returned(s, id, FromUpstream(s, req, UpstreamTrouble, resp, at))
    case Crash => Returned(s, id, FromUpstream(s, req, Panicked, NO_RESPONSE, at))
    case PassThrough => Returned(s, id, FromUpstream(s, req, PassedThrough, resp, at))
    case Refuse => Returned(s, id, FromUpstream(s, req, Miss, resp, at))
    case Retry => InPhase(s, id, Retrying)
    case Revalidate(i) =>
      var entry := s.heap[req.entry];
      var e := s.log[req.phase.event.value];
      var r := Refreshed(c.platform, entry.value[i], e.resp.headers, e.requested, e.received, s.now);
      InPhase(s, id, Saving(i)).(heap := s.heap[req.entry := entry.(value := entry.value[i := r])])
    case Ingest =>
      // without a temporary file the body is not copied, and the entry is never given back
      var s1 := if tempOk then InPhase(s, id, Copying(req.phase.event.value, Ingestion.Open(resp.body)))
                else s.(tasks := s.tasks - {id});
      Replied(s1, FromUpstream(s, req, Miss, resp, at))
  }

  /** The refreshed entry is saved; a conflict is only logged. */
  function DoCommitRefresh(s: State, id: nat): State
    requires Live(s, id) && s.tasks[id].phase.Saving?
  {
    var req := s.tasks[id];
    var entry := s.heap[req.entry];
    InPhase(s, id, Reopening(req.phase.i)).(store := Database.Saved(s.store, req.key, entry.version, entry.value))
  }

  /** A revalidated response whose file is gone is a panic. */
  function DoReopen(c: Config, s: State, id: nat): State
    requires Live(s, id) && s.tasks[id].phase.Reopening?
    requires s.tasks[id].phase.i < |s.heap[s.tasks[id].entry].value|
  {
    var req := s.tasks[id];
    var r := s.heap[req.entry].value[req.phase.i];
    if r.contentHash in s.files
    then Returned(s, id, FromStore(c, s, req, Revalidated, r, OK, s.files[r.contentHash], s.now))
    else Returned(s, id, FromUpstream(s, req, Panicked, NO_RESPONSE, s.now))
  }

  function DoReadBody(s: State, id: nat, step: Ingestion.Step): State
    requires Live(s, id) && s.tasks[id].phase.Copying? && Ingestion.Possible(s.tasks[id].phase.tee, step)
  {
    var phase := s.tasks[id].phase;
    InPhase(s, id, Copying(phase.source, Ingestion.Read(phase.tee, step)))
  }

  /** The close callback up to onIngest; everything but a published file ends the ingestion here. */
  function DoCloseBody(c: Config, s: State, id: nat, probe: Ingestion.Step, renameOk: bool, closeOk: bool): State
    requires Live(s, id) && s.tasks[id].phase.Copying?
  {
    var phase := s.tasks[id].phase;
    var publish := Ingestion.Accepted(phase.tee, c.quotaHigh, probe) && renameOk;
    var s1 := if publish && closeOk then InPhase(s, id, Settled(phase.source, phase.tee)) else Ended(s, id);
    s1.(files := if publish then s.files[c.platform.hash(phase.tee.copied) := phase.tee.copied] else s.files)
  }

  function ToStore(c: Config, req: Task, e: Event, body: Bytes, now: int): CachedResponse {
    CachedResponse(
      c.platform.hash(body),
      e.resp.status,
      e.resp.headers,
      Vary.Extract(req.headers, e.resp.headers),
      EstimatedCreation(c.platform, e.resp.headers, e.requested, e.received, now))
  }

  function DoCommitIngest(c: Config, s: State, id: nat): State
    requires Live(s, id) && s.tasks[id].phase.Settled? && s.tasks[id].phase.source < |s.log|
  {
    var req := s.tasks[id];
    var entry := s.heap[req.entry];
    var r := ToStore(c, req, s.log[req.phase.source], req.phase.tee.copied, s.now);
    var value := if entry.version != 0 then Insert(req.headers, entry.value, r) else [r];
    Ended(s, id).(
      heap := if entry.version != 0 then s.heap[req.entry := entry.(value := value)] else s.heap,
      store := Database.Saved(s.store, req.key, entry.version, value))
  }

  /** pruneDatabaseEntry, and Remove when nothing is kept: any subset of what was read may be written back. */
  function DoCleanWrite(s: State, id: nat, keep: set<nat>): State
    requires id in s.cleaners
  {
    var (key, item) := s.cleaners[id];
    var value := Kept(item.value, keep);
    s.(store := if value == [] then Database.Deleted(s.store, key, item.version)
                else Database.Saved(s.store, key, item.version, value),
       cleaners := s.cleaners - {id})
  }

  function Apply(c: Config, s: State, a: Action): State
    requires Enabled(c, s, a)
  {
    match a
    case Arrive(id, key, headers, entry) => DoArrive(s, id, key, headers, entry)
    case Lookup(id) => DoLookup(s, id)
    case TryServe(id, at, view) => DoTryServe(c, s, id, at, view)
    case Hear(id, raw, requested, received, direct) => DoHear(c, s, id, raw, requested, received, direct)
    case Decide(id, at, view, tempOk) => Enact(c, s, id, VerdictOf(c, s, id, at, view), at, tempOk)
    case CommitRefresh(id) => DoCommitRefresh(s, id)
    case Reopen(id) => DoReopen(c, s, id)
    case ReadBody(id, step) => DoReadBody(s, id, step)
    case CloseBody(id, probe, renameOk, closeOk) => DoCloseBody(c, s, id, probe, renameOk, closeOk)
    case CommitIngest(id) => DoCommitIngest(c, s, id)
    case RemoveFile(hash) => s.(files := s.files - {hash})
    case CleanRead(id, key) => s.(cleaners := s.cleaners[id := (key, s.store.items[key])])
    case CleanWrite(id, keep) => DoCleanWrite(s, id, keep)
    case Tick(d) => s.(now := s.now + d)
  }

  /** A run: every action is enabled when its turn comes. */
  predicate IsRun(c: Config, actions: seq<Action>)
    decreases |actions|, 0
  {
    actions == []
    || (IsRun(c, actions[..|actions| - 1])
        && Enabled(c, After(c, actions[..|actions| - 1]), actions[|actions| - 1]))
  }

  function After(c: Config, actions: seq<Action>): State
    requires IsRun(c, actions)
    decreases |actions|, 1
  {
    if actions == [] then INITIAL
    else Apply(c, After(c, actions[..|actions| - 1]), actions[|actions| - 1])
  }

  /* ---- Continuing from a state ---- */

  predicate CanRun(c: Config, s: State, actions: seq<Action>)
    decreases |actions|
  {
    actions == [] || (Enabled(c, s, actions[0]) && CanRun(c, Apply(c, s, actions[0]), actions[1..]))
  }

  function RunFrom(c: Config, s: State, actions: seq<Action>): State
    requires CanRun(c, s, actions)
    decreases |actions|
  {
    if actions == [] then s else RunFrom(c, Apply(c, s, actions[0]), actions[1..])
  }
}
