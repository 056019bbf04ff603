/** Client.Do as a program over shared state. Between any two of its atomic blocks other requests, body readers,
    the pruner and the cleaner may act; every block is one action of the state machine in System, so whatever is
    proved of all runs holds of this program. */
module Proxy {
  import opened Http
  import opened Freshness
  import opened Client
  import opened Revalidation
  import opened System
  import opened Provenance
  import opened Runs
  import opened Pool
  import opened ClientCode
  import Caching
  import Database
  import Ingestion
  import Vary

  /* ---- What a request can rely on while others act ---- */

  /** A step of one task keeps the clock and the past, and touches no entry but its own. */
  ghost predicate Confined(s: State, s': State, id: nat) {
    && id in s.tasks && s.now == s'.now && s.log <= s'.log
    && forall e :: e in s.heap && e != s.tasks[id].entry ==> e in s'.heap && s'.heap[e] == s.heap[e]
  }

  lemma EnactConfined(c: Config, s: State, id: nat, v: Verdict, at: int, tempOk: bool)
    requires Deciding(s, id) && Fits(s, id, v)
    ensures Confined(s, Enact(c, s, id, v, at, tempOk), id)
  {
    hide Rendered, Refreshed;
  }

  lemma TaskConfined(c: Config, s: State, a: Action)
    requires Enabled(c, s, a) && !a.Arrive? && !a.RemoveFile? && !a.CleanRead? && !a.CleanWrite? && !a.Tick?
    ensures Confined(s, Apply(c, s, a), a.id)
  {
    hide Serve, AddConditional, RemoveHopByHop, ToStore, Insert, Rendered, Received, Enact, VerdictOf, Database.Saved,
         Ingestion.Read, Ingestion.Accepted;
    if a.Decide? {
      EnactConfined(c, s, a.id, VerdictOf(c, s, a.id, a.at, a.view), a.at, a.tempOk);
    }
  }

  lemma LogStep(c: Config, s: State, a: Action)
    requires Enabled(c, s, a)
    ensures s.log <= Apply(c, s, a).log
  {
    hide DoLookup, DoTryServe, DoHear, VerdictOf, Enact, DoCommitRefresh, DoReopen, DoReadBody, DoCloseBody,
         DoCommitIngest, Kept, Database.Saved, Database.Deleted;
    if !a.Arrive? && !a.RemoveFile? && !a.CleanRead? && !a.CleanWrite? && !a.Tick? {
      TaskConfined(c, s, a);
    }
  }

  /** The history of a run only grows. */
  lemma {:induction false} LogGrows(c: Config, trace: seq<Action>, later: seq<Action>)
    requires IsRun(c, later) && trace <= later
    ensures IsRun(c, trace) && After(c, trace).log <= After(c, later).log
    decreases |later|
  {
    hide Enabled, Apply;
    if trace != later {
      var n := |later| - 1;
      assert trace <= later[..n];
      LogGrows(c, trace, later[..n]);
      LogStep(c, After(c, later[..n]), later[n]);
    }
  }

  /** Since a point in the history, this was sent upstream for the key and answered. */
  ghost predicate SentSince(log: seq<Event>, start: nat, key: Key, sent: Headers) {
    exists e :: start <= e < |log| && log[e].key == key && log[e].sent == sent
  }

  lemma SentGrows(log: seq<Event>, log': seq<Event>, start: nat, key: Key, sent: Headers)
    requires SentSince(log, start, key, sent) && log <= log'
    ensures SentSince(log', start, key, sent)
  {
    var e :| start <= e < |log| && log[e].key == key && log[e].sent == sent;
    assert log'[e] == log[e];
  }

  lemma SentSinceEarlier(log: seq<Event>, start: nat, earlier: nat, key: Key, sent: Headers)
    requires SentSince(log, start, key, sent) && earlier <= start
    ensures SentSince(log, earlier, key, sent)
  {
  }

  /** A step that this request does not take. */
  predicate ByOthers(a: Action, id: nat) {
    a.RemoveFile? || a.CleanRead? || a.CleanWrite? || a.Tick? || a.id != id
  }

  /** A step of others leaves a request and its entry alone. */
  lemma OthersLeaveAlone(c: Config, s: State, a: Action, id: nat)
    requires Owned(s) && Enabled(c, s, a) && id in s.tasks && ByOthers(a, id)
    ensures var s' := Apply(c, s, a);
            && id in s'.tasks && s'.tasks[id] == s.tasks[id]
            && s.tasks[id].entry in s'.heap && s'.heap[s.tasks[id].entry] == s.heap[s.tasks[id].entry]
            && s.now <= s'.now && s.log <= s'.log
  {
    hide DoLookup, DoTryServe, DoHear, VerdictOf, Enact, DoCommitRefresh, DoReopen, DoReadBody, DoCloseBody,
         DoCommitIngest, Kept, Database.Saved, Database.Deleted;
    if !a.Arrive? && !a.RemoveFile? && !a.CleanRead? && !a.CleanWrite? && !a.Tick? {
      hide Apply, Enabled;
      TaskMoves(c, s, a);
      TaskConfined(c, s, a);
    }
  }

  /** So does any sequence of them. */
  lemma {:induction false} AllOthersLeaveAlone(c: Config, s: State, acts: seq<Action>, id: nat)
    requires Owned(s) && CanRun(c, s, acts) && id in s.tasks && forall k :: 0 <= k < |acts| ==> ByOthers(acts[k], id)
    ensures var s' := RunFrom(c, s, acts);
            && id in s'.tasks && s'.tasks[id] == s.tasks[id]
            && s.tasks[id].entry in s'.heap && s'.heap[s.tasks[id].entry] == s.heap[s.tasks[id].entry]
            && s.now <= s'.now && s.log <= s'.log
    decreases |acts|
  {
    hide Exclusive, Enabled, Apply, ByOthers;
    assert s.tasks[id].entry in s.heap by { HoldersHaveEntries(s, id); }
    if acts != [] {
      OthersLeaveAlone(c, s, acts[0], id);
      OwnedStep(c, s, acts[0]);
      AllOthersLeaveAlone(c, Apply(c, s, acts[0]), acts[1..], id);
    }
  }

  lemma HoldersHaveEntries(s: State, id: nat)
    requires Owned(s) && id in s.tasks
    ensures s.tasks[id].entry in s.heap
  {
  }

  /* ---- Views of one response, and of none ---- */

  lemma {:induction false} OnlyOneOpens(p: Platform, rs: CachedResponses, force: bool, at: int, r: CachedResponse)
    ensures FirstUsable(p, rs, force, at, {}) == None
    ensures r in rs && (force || Reusable(p, r, at)) ==> FirstUsable(p, rs, force, at, {r}) == Some(r)
  {
    hide Reusable;
    if rs != [] {
      OnlyOneOpens(p, rs[1..], force, at, r);
      assert rs == [rs[0]] + rs[1..];
    }
  }

  /** Without a response that opens, the decision falls to the upstream answer alone. */
  lemma NoStandIn(c: Config, headers: Headers, entry: Entry, at: int)
    ensures StandIn(c, headers, entry, at, {}) == None
    ensures entry.version != 0 ==> Serve(c.platform, headers, entry.value, false, at, {}) == None
  {
    if r :| r in entry.value {
      OnlyOneOpens(c.platform, MostRecent(c.platform, Candidates(headers, entry.value)), true, at, r);
      OnlyOneOpens(c.platform, MostRecent(c.platform, Candidates(headers, entry.value)), false, at, r);
    }
  }

  /** The stored responses that could be served, in order. */
  ghost function Recent(c: Config, headers: Headers, entry: Entry): CachedResponses {
    if entry.version == 0 then [] else MostRecent(c.platform, Candidates(headers, entry.value))
  }

  /* ---- Moments of a run ---- */

  /** What a lookup of the key finds. */
  ghost predicate FoundIn(s: State, key: Key, found: Entry) {
    if key in s.store.items then found == Entry(s.store.items[key].value, s.store.items[key].version)
    else found.version == 0
  }

  ghost predicate FoundAt(c: Config, trace: seq<Action>, key: Key, found: Entry) {
    IsRun(c, trace) && FoundIn(After(c, trace), key, found)
  }

  /** At some moment since a start, the key had this entry. */
  ghost predicate Found(c: Config, trace: seq<Action>, start: nat, key: Key, found: Entry) {
    exists m :: start <= m <= |trace| && FoundAt(c, trace[..m], key, found)
  }

  lemma FoundGrows(c: Config, trace: seq<Action>, later: seq<Action>, start: nat, key: Key, found: Entry)
    requires FoundAt(c, trace, key, found) && trace <= later && start <= |trace|
    ensures Found(c, later, start, key, found)
  {
    hide FoundAt;
    assert later[..|trace|] == trace;
  }

  ghost predicate UnusableIn(c: Config, s: State, r: CachedResponse, force: bool) {
    !(force || StillGood(c.platform, r.headers, r.created, s.now)) || r.contentHash !in s.files
  }

  /** At some moment since a start, the response was stale or its file was missing. */
  ghost predicate Unusable(c: Config, trace: seq<Action>, start: nat, r: CachedResponse, force: bool) {
    exists m :: start <= m <= |trace| && UnusableAt(c, trace[..m], r, force)
  }

  ghost predicate UnusableAt(c: Config, trace: seq<Action>, r: CachedResponse, force: bool) {
    IsRun(c, trace) && UnusableIn(c, After(c, trace), r, force)
  }

  lemma UnusableGrows(
      c: Config, trace: seq<Action>, later: seq<Action>, start: nat, earlier: nat, r: CachedResponse, force: bool)
    requires Unusable(c, trace, start, r, force) && trace <= later && earlier <= start
    ensures Unusable(c, later, earlier, r, force)
  {
    hide UnusableAt;
    var m :| start <= m <= |trace| && UnusableAt(c, trace[..m], r, force);
    assert later[..m] == trace[..m];
  }

  /* ---- The program ---- */

  /** A round of forwarding settles on the first answer that is not an error. */
  predicate FirstAnswer(answers: seq<Answer>, attempts: nat) {
    && 0 < attempts <= |answers|
    && (forall j :: 0 <= j < attempts - 1 ==> answers[j].Lost?)
    && (answers[attempts - 1].Lost? ==> attempts == |answers|)
  }

  predicate Relays(raw: Answer, status: int, body: Bytes) {
    raw.Got? && raw.resp.status == status && raw.resp.body == body
  }

  /** No answer, or a server error. */
  predicate Failing(ans: Answer) {
    ans.Lost? || 500 <= ans.resp.status
  }

  /** The reply fits the answer of the last round; a 304 is handled only in the first. */
  predicate Accounts(ans: Answer, again: bool, kind: Kind, resp: Response) {
    match kind
    case Hit => false
    case StaleHit => Failing(ans) || (!again && ans.resp.status == 429)
    case Revalidated => ans.Got? && ans.resp.status == 304 && !again && resp.status == 200
    case Panicked => ans.Got? && ans.resp.status == 304 && !again
    case PassedThrough => Relays(ans, 304, resp.body) && resp.status == 304 && !again
    case Miss => Relays(ans, resp.status, resp.body) && !Failing(ans)
    case UpstreamTrouble => Failing(ans) && (ans.Got? ==> Relays(ans, resp.status, resp.body))
  }

  /** A stored response has been looked for: upstream was in trouble, or asked for patience in the first round. */
  predicate WantsStandIn(kind: Kind, resp: Response, rounds: nat) {
    kind.StaleHit? || kind.UpstreamTrouble? || (rounds == 1 && kind.Miss? && resp.status == 429)
  }

  /** The rounds of a request: none for a hit, a second one only after a 304. */
  predicate Rounds(first: seq<Answer>, second: seq<Answer>, rounds: seq<nat>, kind: Kind, resp: Response) {
    match |rounds|
    case 0 => kind.Hit?
    case 1 => FirstAnswer(first, rounds[0]) && Accounts(first[rounds[0] - 1], false, kind, resp)
    case 2 =>
      && FirstAnswer(first, rounds[0]) && first[rounds[0] - 1].Got? && first[rounds[0] - 1].resp.status == 304
      && FirstAnswer(second, rounds[1]) && Accounts(second[rounds[1] - 1], true, kind, resp)
    case _ => false
  }

  /** The validators Do adds to a request for an entry it has read. */
  function Validators(c: Config, headers: Headers, entry: Entry): Conditioned {
    if entry.version == 0 then Conditioned(headers, false, false) else AddConditional(c.platform, headers, entry.value)
  }

  /** What becomes of the answer to the first round, and how many rounds there are. A 304 to a request with added
      validators is searched for among the stored responses: a match is served, or is a panic if its file is gone;
      without a match it is the client's if the client had a condition of its own, and a reason to ask again if not. */
  predicate FirstRound(
      has: bool, was: bool, value: CachedResponses, ans: Answer, files: map<string, Bytes>, rounds: nat, kind: Kind)
  {
    if has && ans.Got? && ans.resp.status == 304 then
      match FindValidated(value, ans.resp.headers)
      case At(i) => rounds == 1 && kind == if value[i].contentHash in files then Revalidated else Panicked
      case Panics => rounds == 1 && kind.Panicked?
      case Nowhere => if was then rounds == 1 && kind.PassedThrough? else rounds == 2
    else rounds == 1 && !kind.Revalidated? && !kind.PassedThrough? && !kind.Panicked?
  }

  /** The same as far as validation goes. */
  predicate SameValidators(a: Headers, b: Headers) {
    First(a, "Etag") == First(b, "Etag") && First(a, "Last-Modified") == First(b, "Last-Modified")
  }

  lemma SameSearch(value: CachedResponses, a: Headers, b: Headers)
    requires SameValidators(a, b)
    ensures FindValidated(value, a) == FindValidated(value, b)
  {
  }

  lemma ReceivedRelays(p: Platform, raw: Answer, now: int)
    ensures raw.Got? ==>
              var resp := Received(p, raw.resp, now);
              Relays(raw, resp.status, resp.body) && SameValidators(raw.resp.headers, resp.headers)
  {
    assert "Etag" !in HOP_BY_HOP && "Last-Modified" !in HOP_BY_HOP;
  }

  /** What the client is told about how its request was served. */
  function Notes(kind: Kind): seq<string> {
    match kind
    case Hit => ["hit"]
    case StaleHit => ["hit"]
    case Revalidated => ["revalidated"]
    case Miss => ["miss"]
    case PassedThrough => ["miss"]
    case UpstreamTrouble => []
    case Panicked => []
  }

  function Total(rounds: seq<nat>): nat {
    if rounds == [] then 0 else rounds[0] + Total(rounds[1..])
  }

  /** The answer that settles the last round. */
  function LastAnswer(first: seq<Answer>, second: seq<Answer>, rounds: seq<nat>): Answer
    requires |rounds| == 1 ==> 0 < rounds[0] <= |first|
    requires |rounds| == 2 ==> 0 < rounds[1] <= |second|
  {
    if |rounds| == 1 then first[rounds[0] - 1] else if |rounds| == 2 then second[rounds[1] - 1] else Lost
  }

  /** The position of the stored response that a 304 to the first round validates. */
  function Validated(has: bool, value: CachedResponses, ans: Answer): Match {
    if has && ans.Got? && ans.resp.status == 304 then FindValidated(value, ans.resp.headers) else Nowhere
  }

  lemma TotalOfTwo(rounds: seq<nat>)
    requires |rounds| <= 2
    ensures Total(rounds) == (if |rounds| > 0 then rounds[0] else 0) + (if |rounds| > 1 then rounds[1] else 0)
  {
    if |rounds| == 2 {
      assert rounds[1..][1..] == [];
    }
  }

  /** With n upstream caches and the origin in each round, Do makes at most 2(n + 1) attempts, none exactly for a hit.
      It notifies at most once: "hit" without a 304, "revalidated" exactly when a 304 matched a stored response whose
      file is there, and nothing exactly when it returns an upstream failure, or panics because the comparison of
      tags does or the file of the match is gone. It asks again exactly after a 304 that matched nothing and that an
      unconditional client cannot use. */
  lemma Accounting(
      has: bool, was: bool, value: CachedResponses, files: map<string, Bytes>,
      first: seq<Answer>, second: seq<Answer>, rounds: seq<nat>, kind: Kind, resp: Response)
    requires Rounds(first, second, rounds, kind, resp) && |first| == |second|
    requires rounds != [] ==> FirstRound(has, was, value, first[rounds[0] - 1], files, |rounds|, kind)
    ensures Total(rounds) <= 2 * |first|
    ensures Total(rounds) == 0 <==> kind.Hit?
    ensures |Notes(kind)| <= 1
    ensures "hit" in Notes(kind) <==> kind.Hit? || kind.StaleHit?
    ensures "miss" in Notes(kind) <==> kind.Miss? || kind.PassedThrough?
    ensures rounds != [] ==>
              var ans := first[rounds[0] - 1];
              var match_ := Validated(has, value, ans);
              var unmatched := has && ans.Got? && ans.resp.status == 304 && match_.Nowhere?;
              && ("revalidated" in Notes(kind) <==> match_.At? && value[match_.i].contentHash in files)
              && (kind.Panicked? <==> match_.Panics? || (match_.At? && value[match_.i].contentHash !in files))
              && (kind.PassedThrough? <==> unmatched && was)
              && (|rounds| == 2 <==> unmatched && !was)
              && (Notes(kind) == [] <==>
                    kind.Panicked? || (Failing(LastAnswer(first, second, rounds)) && !kind.StaleHit?))
              && (kind.StaleHit? ==>
                    Failing(LastAnswer(first, second, rounds))
                    || (|rounds| == 1 && ans.resp.status == 429))
  {
    hide Total, FindValidated;
    TotalOfTwo(rounds);
  }

  /* ---- The actions of a request, one by one ---- */

  lemma ArriveStep(c: Config, s: State, id: nat, key: Key, headers: Headers, entry: nat)
    requires id !in s.tasks && (entry in s.pool <==> entry in s.heap)
    ensures Enabled(c, s, Arrive(id, key, headers, entry))
    ensures var s' := Apply(c, s, Arrive(id, key, headers, entry));
            && s' == s.(heap := s'.heap, pool := s.pool - multiset{entry}, tasks := s'.tasks)
            && s'.heap == (if entry in s.heap then s.heap else s.heap[entry := Entry([], 0)])
            && id in s'.tasks && s'.tasks[id] == Task(key, headers, headers, entry, Arrived)
  {
  }

  lemma HitStep(c: Config, s: State, id: nat, at: int, r: CachedResponse)
    requires Live(s, id) && s.tasks[id].phase.Looked? && s.tasks[id].phase.since <= at <= s.now
    requires s.heap[s.tasks[id].entry].version != 0 && r.contentHash in s.files && Reusable(c.platform, r, at)
    requires r in MostRecent(c.platform, Candidates(s.tasks[id].headers, s.heap[s.tasks[id].entry].value))
    ensures Enabled(c, s, TryServe(id, at, {r}))
    ensures Apply(c, s, TryServe(id, at, {r})) ==
            Returned(s, id, FromStore(c, s, s.tasks[id], Hit, r, r.status, s.files[r.contentHash], at))
  {
    hide Reusable, Returned, FromStore, AddConditional, MostRecent, Candidates, FirstUsable;
    var candidates := Candidates(s.tasks[id].headers, s.heap[s.tasks[id].entry].value);
    OnlyOneOpens(c.platform, MostRecent(c.platform, candidates), false, at, r);
  }

  lemma MissStep(c: Config, s: State, id: nat)
    requires Live(s, id) && s.tasks[id].phase.Looked? && s.tasks[id].phase.since <= s.now
    ensures Enabled(c, s, TryServe(id, s.now, {}))
    ensures var t := s.tasks[id];
            var entry := s.heap[t.entry];
            var cond := if entry.version == 0 then Conditioned(t.headers, false, false)
                        else AddConditional(c.platform, t.headers, entry.value);
            Apply(c, s, TryServe(id, s.now, {})) ==
            s.(tasks := s.tasks[id := t.(headers := cond.headers, phase := Sent(cond.has, cond.was))])
  {
    hide Serve, AddConditional;
    NoStandIn(c, s.tasks[id].headers, s.heap[s.tasks[id].entry], s.now);
  }

  lemma StaleStep(c: Config, s: State, id: nat, at: int, r: CachedResponse)
    requires Deciding(s, id) && at <= s.now && s.heap[s.tasks[id].entry].version != 0 && r.contentHash in s.files
    requires r in MostRecent(c.platform, Candidates(s.tasks[id].headers, s.heap[s.tasks[id].entry].value))
    requires var ans := Heard(s, s.tasks[id].phase.event);
             InTrouble(ans) || (s.tasks[id].phase.Answered? && ans.resp.status == TOO_MANY_REQUESTS)
    ensures Enabled(c, s, Decide(id, at, {r}, true))
    ensures Apply(c, s, Decide(id, at, {r}, true)) ==
            Returned(s, id, FromStore(c, s, s.tasks[id], StaleHit, r, r.status, s.files[r.contentHash], at))
  {
    hide Returned, FromStore, MostRecent, Candidates, FirstUsable, Conclude, FindValidated;
    var candidates := Candidates(s.tasks[id].headers, s.heap[s.tasks[id].entry].value);
    OnlyOneOpens(c.platform, MostRecent(c.platform, candidates), true, at, r);
    assert VerdictOf(c, s, id, at, {r}) == Stale(r);
  }

  lemma HearStep(c: Config, s: State, id: nat, raw: Answer, requested: int, received: int, direct: bool)
    returns (t': Task)
    requires Live(s, id) && (s.tasks[id].phase.Sent? || s.tasks[id].phase.Retrying?) && requested <= received <= s.now
    ensures Enabled(c, s, Hear(id, raw, requested, received, direct))
    ensures var s' := Apply(c, s, Hear(id, raw, requested, received, direct));
            && s' == s.(log := s'.log, tasks := s.tasks[id := t'])
            && Deciding(s', id) && (raw.Got? ==> t'.phase.event == Some(|s.log|))
            && Heard(s', t'.phase.event) == (if raw.Lost? then Lost else Got(Received(c.platform, raw.resp, s.now)))
            && (raw.Got? ==>
                  var e := s'.log[t'.phase.event.value];
                  e.requested == requested && e.received == received && e.key == s.tasks[id].key
                  && var t := s.tasks[id];
                     e.sent == RemoveHopByHop(if t.phase.Sent? then t.headers else t.original))
    ensures var t := s.tasks[id];
            && t'.key == t.key && t'.original == t.original && t'.entry == t.entry
            && t'.headers == (if t.phase.Sent? && direct then RemoveHopByHop(t.headers) else t.headers)
            && if t.phase.Sent? then t'.phase.Answered? && t'.phase.has == t.phase.has && t'.phase.was == t.phase.was
               else t'.phase.Reanswered?
  {
    hide RemoveHopByHop, Received;
    t' := Apply(c, s, Hear(id, raw, requested, received, direct)).tasks[id];
  }

  /** What the answer alone decides. */
  function Judgement(c: Config, ans: Answer, phase: Phase, value: CachedResponses): (v: Verdict)
    requires phase.Answered? || phase.Reanswered?
    ensures v.GiveUp? <==> InTrouble(ans)
    ensures v.Revalidate? || v.PassThrough? || v.Retry? || v.Crash? ==>
              phase.Answered? && ans.resp.status == NOT_MODIFIED
    ensures v.Revalidate? ==> v.i < |value|
    ensures !v.Stale?
  {
    if InTrouble(ans) then GiveUp
    else if phase.Answered? && phase.has && ans.resp.status == NOT_MODIFIED then
      match FindValidated(value, ans.resp.headers)
      case At(i) => Revalidate(i)
      case Panics => Crash
      case Nowhere => if phase.was then PassThrough else Retry
    else Conclude(c, ans.resp)
  }

  /** How a reply that no stored response stands in for is classed. */
  function KindOf(v: Verdict): Kind {
    match v
    case GiveUp => UpstreamTrouble
    case Crash => Panicked
    case PassThrough => PassedThrough
    case _ => Miss
  }

  /** The first round, judged by the answer. */
  lemma JudgedRound(
      c: Config, ans: Answer, phase: Phase, value: CachedResponses, files: map<string, Bytes>, rounds: nat, kind: Kind)
    requires phase.Answered?
    requires match Judgement(c, ans, phase, value)
             case Revalidate(i) =>
               rounds == 1 && kind == if value[i].contentHash in files then Revalidated else Panicked
             case Retry => rounds == 2
             case v => rounds == 1 && kind == KindOf(v)
    ensures FirstRound(phase.has, phase.was, value, ans, files, rounds, kind)
  {
    hide FindValidated, Caching.Refused;
  }

  lemma RefreshAccounts(ans: Answer, kind: Kind, resp: Response)
    requires ans.Got? && ans.resp.status == NOT_MODIFIED
    requires kind.Panicked? || (kind.Revalidated? && resp.status == OK)
    ensures Accounts(ans, false, kind, resp)
  {
  }

  lemma StoodInRound(has: bool, was: bool, value: CachedResponses, ans: Answer, files: map<string, Bytes>)
    requires InTrouble(ans) || ans.resp.status == TOO_MANY_REQUESTS
    ensures FirstRound(has, was, value, ans, files, 1, StaleHit)
  {
  }

  /** A round is as much about the raw answer as about what Do makes of it. */
  lemma RawRound(
      raw: Answer, got: Answer, has: bool, was: bool, value: CachedResponses, files: map<string, Bytes>, rounds: nat,
      kind: Kind, resp: Response)
    requires if got.Got? then Relays(raw, got.resp.status, got.resp.body) else raw.Lost?
    requires got.Got? ==> SameValidators(raw.resp.headers, got.resp.headers)
    ensures Accounts(got, false, kind, resp) ==> Accounts(raw, false, kind, resp)
    ensures FirstRound(has, was, value, got, files, rounds, kind) ==>
            FirstRound(has, was, value, raw, files, rounds, kind)
  {
    hide FindValidated;
    if got.Got? {
      SameSearch(value, raw.resp.headers, got.resp.headers);
    }
  }

  lemma DecideStep(c: Config, s: State, id: nat, tempOk: bool)
    requires Deciding(s, id)
    ensures var t := s.tasks[id];
            var v := Judgement(c, Heard(s, t.phase.event), t.phase, s.heap[t.entry].value);
            && Fits(s, id, v)
            && Enabled(c, s, Decide(id, s.now, {}, tempOk))
            && Apply(c, s, Decide(id, s.now, {}, tempOk)) == Enact(c, s, id, v, s.now, tempOk)
  {
    hide Serve, FindValidated, Conclude, Enact;
    NoStandIn(c, s.tasks[id].headers, s.heap[s.tasks[id].entry], s.now);
    assert VerdictOf(c, s, id, s.now, {}) ==
           Judgement(c, Heard(s, s.tasks[id].phase.event), s.tasks[id].phase, s.heap[s.tasks[id].entry].value);
  }

  lemma SaveStep(c: Config, s: State, id: nat)
    requires Live(s, id) && s.tasks[id].phase.Saving?
    ensures Enabled(c, s, CommitRefresh(id)) && Apply(c, s, CommitRefresh(id)) == DoCommitRefresh(s, id)
  {
  }

  lemma ReopenStep(c: Config, s: State, id: nat)
    requires Live(s, id) && s.tasks[id].phase.Reopening? && s.tasks[id].phase.i < |s.heap[s.tasks[id].entry].value|
    ensures Enabled(c, s, Reopen(id)) && Apply(c, s, Reopen(id)) == DoReopen(c, s, id)
  {
  }

  lemma IngestStep(c: Config, s: State, id: nat)
    requires Live(s, id) && s.tasks[id].phase.Settled? && s.tasks[id].phase.source < |s.log|
    ensures Enabled(c, s, CommitIngest(id)) && Apply(c, s, CommitIngest(id)) == DoCommitIngest(c, s, id)
  {
  }

  class Proxy {
    const c: Config
    var store: Database.Store<CachedResponses>
    var files: map<string, Bytes>
    var now: int
    var heap: map<nat, Entry>
    var pool: multiset<nat>
    ghost var trace: seq<Action>

    /** The fields are those of the state that the steps so far lead to. */
    ghost predicate Valid()
      reads this
    {
      Sane(c) && IsRun(c, trace) && Shows(After(c, trace))
    }

    ghost predicate Shows(s: State)
      reads this
    {
      store == s.store && files == s.files && now == s.now && heap == s.heap && pool == s.pool
    }

    constructor (c: Config)
      requires Sane(c)
      ensures Valid() && this.c == c && trace == []
    {
      this.c, trace := c, [];
      store, files, now := Database.Store(map[], 0), map[], ZERO_TIME;
      heap, pool := map[], multiset{};
    }

    ghost function S(): State
      reads this
      requires Valid()
    {
      After(c, trace)
    }

    /** The request is in flight in this form and owns its entry. */
    ghost predicate Holds(id: nat, t: Task)
      reads this
    {
      Valid() && id in S().tasks && S().tasks[id] == t && t.entry in heap
    }

    /** The request has heard this answer. */
    ghost predicate Told(id: nat, t: Task, got: Answer, requested: int, received: int)
      reads this
    {
      && Holds(id, t) && Deciding(S(), id) && Heard(S(), t.phase.event) == got
      && (got.Got? ==> S().log[t.phase.event.value].requested == requested
                       && S().log[t.phase.event.value].received == received)
    }

    /** The last reply of the run so far. */
    ghost predicate Delivered(key: Key, original: Headers, kind: Kind, resp: Response)
      reads this
    {
      && Valid() && S().replies != []
      && var reply := S().replies[|S().replies| - 1];
         reply.key == key && reply.original == original && reply.kind == kind && reply.resp == resp
    }

    /** The responses before position k were unusable when they were tried. */
    ghost predicate Passed(trace: seq<Action>, start: nat, recent: CachedResponses, k: nat, force: bool) {
      k <= |recent| && forall j :: 0 <= j < k ==> Unusable(c, trace, start, recent[j], force)
    }

    lemma PassedGrows(
        trace: seq<Action>, later: seq<Action>, start: nat, earlier: nat, recent: CachedResponses, k: nat, force: bool)
      requires Passed(trace, start, recent, k, force) && trace <= later && earlier <= start
      ensures Passed(later, earlier, recent, k, force)
    {
      hide Unusable;
      forall j | 0 <= j < k
        ensures Unusable(c, later, earlier, recent[j], force)
      {
        UnusableGrows(c, trace, later, start, earlier, recent[j], force);
      }
    }

    lemma PassedIsUnusable(trace: seq<Action>, start: nat, recent: CachedResponses, k: nat)
      requires Passed(trace, start, recent, k, false)
      ensures (exists r :: r in recent && !Unusable(c, trace, start, r, false)) ==> k < |recent|
    {
      hide Unusable;
    }

    /** The last reply was made from the first of these responses whose file was there when tried, or from none. */
    ghost predicate FirstThere(trace: seq<Action>, start: nat, recent: CachedResponses, from: Option<CachedResponse>) {
      exists k: nat :: Passed(trace, start, recent, k, true) && from == (if k < |recent| then Some(recent[k]) else None)
    }

    /** A stored response was looked for to stand in for upstream. */
    ghost predicate StandInTried(trace: seq<Action>, start: nat, found: Entry) {
      && IsRun(c, trace) && After(c, trace).replies != []
      && var replies := After(c, trace).replies;
         var reply := replies[|replies| - 1];
         FirstThere(trace, start, Recent(c, reply.asked, found), reply.from)
    }

    lemma StandInTriedSince(trace: seq<Action>, start: nat, earlier: nat, found: Entry)
      requires StandInTried(trace, start, found) && earlier <= start
      ensures StandInTried(trace, earlier, found)
    {
      hide Passed, IsRun, After, Recent;
      var replies := After(c, trace).replies;
      var reply := replies[|replies| - 1];
      var recent := Recent(c, reply.asked, found);
      var k: nat :| Passed(trace, start, recent, k, true)
              && reply.from == (if k < |recent| then Some(recent[k]) else None);
      PassedGrows(trace, trace, start, earlier, recent, k, true);
    }

    /** The last reply has this request and no stored response. */
    ghost predicate Unserved(trace: seq<Action>, asked: Headers) {
      && IsRun(c, trace) && After(c, trace).replies != []
      && var replies := After(c, trace).replies;
         replies[|replies| - 1].asked == asked && replies[|replies| - 1].from.None?
    }

    lemma NoneThere(before: seq<Action>, trace: seq<Action>, start: nat, earlier: nat, asked: Headers, found: Entry)
      requires Passed(before, start, Recent(c, asked, found), |Recent(c, asked, found)|, true)
      requires before <= trace && earlier <= start && Unserved(trace, asked)
      ensures StandInTried(trace, earlier, found)
    {
      hide Passed, IsRun, After, Recent;
      PassedGrows(before, trace, start, earlier, Recent(c, asked, found), |Recent(c, asked, found)|, true);
    }

    /** The last reply was made from this response, fresh at that time. */
    ghost predicate ServedLast(s: State, r: CachedResponse) {
      && s.replies != []
      && var reply := s.replies[|s.replies| - 1];
         reply.from == Some(r) && StillGood(c.platform, r.headers, r.created, reply.at) && r.contentHash in s.files
    }

    /** One step of this request. */
    ghost method Did(a: Action)
      requires Valid() && Enabled(c, S(), a)
      modifies this`trace
      ensures IsRun(c, trace) && trace == old(trace) + [a]
      ensures After(c, trace) == Apply(c, old(S()), a)
    {
      hide Enabled, Apply;
      Extend(c, trace, a);
      trace := trace + [a];
    }

    /** Others act: any number of steps that this request does not take, in any order. Nothing else is known of them. */
    method Pause(ghost id: nat) returns (ghost acts: seq<Action>)
      requires Valid()
      modifies this
      ensures Valid() && CanRun(c, old(S()), acts) && trace == old(trace) + acts
      ensures forall k :: 0 <= k < |acts| ==> ByOthers(acts[k], id)
    {
      acts := [];
    }

    /** What the request can rely on after such a pause. */
    method Yield(ghost id: nat, ghost t: Task)
      requires Holds(id, t)
      modifies this
      ensures Holds(id, t)
      ensures old(trace) <= trace && old(now) <= now && old(S().log) <= S().log
      ensures heap[t.entry] == old(heap[t.entry])
    {
      hide IsRun, After, Sane, CanRun, RunFrom, Owned;
      ghost var s := S();
      ghost var was := trace;
      assert Owned(s) by { OwnedInRuns(c, trace); }
      ghost var acts := Pause(id);
      Continued(c, was, acts);
      AllOthersLeaveAlone(c, s, acts, id);
    }

    /** An entry is taken from the pool, or a new one is made. */
    method Begin(ghost id: nat, key: Key, headers: Headers, entry: nat)
      requires Valid() && id !in S().tasks && (entry in pool <==> entry in heap)
      modifies this
      ensures Holds(id, Task(key, headers, headers, entry, Arrived)) && old(trace) <= trace
    {
      hide IsRun, After, Sane, Apply, Enabled;
      ArriveStep(c, S(), id, key, headers, entry);
      Did(Arrive(id, key, headers, entry));
      if entry !in heap {
        heap := heap[entry := Entry([], 0)];
      }
      pool := pool - multiset{entry};
    }

    /** Database Get into the entry: a missing key resets only the version. */
    method Get(ghost id: nat, ghost t: Task, key: Key, entry: nat)
      requires Holds(id, t) && t.phase.Arrived? && t.key == key && t.entry == entry
      modifies this
      ensures Holds(id, t.(phase := Looked(now))) && old(trace) <= trace && now == old(now)
      ensures FoundIn(S(), key, heap[entry])
    {
      hide IsRun, After, Sane;
      Did(Lookup(id));
      if key in store.items {
        heap := heap[entry := Entry(store.items[key].value, store.items[key].version)];
      } else {
        heap := heap[entry := heap[entry].(version := 0)];
      }
    }

    /** One stored response is tried: first its freshness, then its file. */
    method Try(ghost id: nat, ghost t: Task, r: CachedResponse, force: bool) returns (found: bool, at: int)
      requires Holds(id, t)
      modifies this
      ensures Holds(id, t)
      ensures old(trace) <= trace && old(now) <= at <= now && old(S().log) <= S().log
      ensures heap[t.entry] == old(heap[t.entry])
      ensures if found then (force || StillGood(c.platform, r.headers, r.created, at)) && r.contentHash in files
              else Unusable(c, trace, |old(trace)|, r, force)
    {
      hide IsRun, After, Sane, Reusable, StillGood;
      Yield(id, t);
      at := now;
      ReusableExactly(c.platform, r, at);
      if force || Reusable(c.platform, r, at) {
        Yield(id, t);
        found := r.contentHash in files;
      } else {
        found := false;
      }
      assert trace[..|trace|] == trace;
      assert !found ==> UnusableAt(c, trace[..|trace|], r, force);
    }

    /** The loop of serveFromCachedCandidates. Every response passed over was stale or gone when it was tried. */
    method Scan(ghost id: nat, ghost t: Task, recent: CachedResponses, force: bool) returns (k: nat, at: int)
      requires Holds(id, t)
      modifies this
      ensures Holds(id, t)
      ensures old(trace) <= trace && old(now) <= at <= now && old(S().log) <= S().log
      ensures heap[t.entry] == old(heap[t.entry])
      ensures k <= |recent|
      ensures forall j :: 0 <= j < k ==> Unusable(c, trace, |old(trace)|, recent[j], force)
      ensures k < |recent| ==>
                var r := recent[k];
                (force || StillGood(c.platform, r.headers, r.created, at)) && r.contentHash in files
    {
      hide IsRun, After, Sane, StillGood, Unusable;
      k, at := 0, now;
      while k < |recent|
        invariant Holds(id, t)
        invariant old(trace) <= trace && old(now) <= at <= now && old(S().log) <= S().log
        invariant heap[t.entry] == old(heap[t.entry])
        invariant k <= |recent|
        invariant forall j :: 0 <= j < k ==> Unusable(c, trace, |old(trace)|, recent[j], force)
      {
        ghost var before := trace;
        var found;
        found, at := Try(id, t, recent[k], force);
        forall j | 0 <= j < k
          ensures Unusable(c, trace, |old(trace)|, recent[j], force)
        {
          UnusableGrows(c, before, trace, |old(trace)|, |old(trace)|, recent[j], force);
        }
        if found {
          return;
        }
        UnusableGrows(c, trace, trace, |before|, |old(trace)|, recent[k], force);
        k := k + 1;
      }
    }

    /** serveFromCache before upstream is asked: the first of the most recent candidates that is usable when tried. */
    method ServeFresh(ghost id: nat, ghost t: Task, key: Key, headers: Headers, entry: nat)
      returns (r: Option<Response>, ghost k: nat)
      requires Holds(id, t) && t.phase.Looked? && t.phase.since <= now
      requires t.key == key && t.original == headers && t.headers == headers && t.entry == entry
      modifies this
      ensures old(trace) <= trace
      ensures r.Some? ==> Delivered(key, headers, Hit, r.value)
      ensures r.None? ==> Holds(id, t) && old(now) <= now && heap[entry] == old(heap[entry])
      ensures Passed(trace, |old(trace)|, Recent(c, headers, old(heap[entry])), k, false)
      ensures var recent := Recent(c, headers, old(heap[entry]));
              if k < |recent| then r.Some? && ServedLast(S(), recent[k]) else r.None?
    {
      hide IsRun, After, Sane, Apply, Enabled, Reusable, StillGood, Unusable, MostRecent, Candidates, Rendered;
      k := 0;
      if heap[entry].version == 0 {
        return None, 0;
      }
      var candidates := SelectResponseCandidates(headers, heap[entry].value);
      var recent := SelectMostRecentCandidates(c.platform, candidates);
      var n, at := Scan(id, t, recent, false);
      k := n;
      if n == |recent| {
        return None, n;
      }
      var stored := recent[n];
      ghost var before := trace;
      ReusableExactly(c.platform, stored, at);
      HitStep(c, S(), id, at, stored);
      Did(TryServe(id, at, {stored}));
      pool := pool + multiset{entry};
      r := Some(Rendered(c, stored, stored.status, files[stored.contentHash], at));
      PassedGrows(before, trace, |old(trace)|, |old(trace)|, recent, n, false);
    }

    /** The validators of the entry are added to the request. */
    method Condition(ghost id: nat, ghost t: Task, headers: Headers, entry: nat) returns (cond: Conditioned)
      requires Holds(id, t) && t.phase.Looked? && t.phase.since <= now && t.headers == headers && t.entry == entry
      modifies this
      ensures Holds(id, t.(headers := cond.headers, phase := Sent(cond.has, cond.was)))
      ensures old(trace) <= trace && now == old(now) && heap == old(heap) && S().log == old(S().log)
      ensures cond == Validators(c, headers, heap[entry])
    {
      hide IsRun, After, Sane, Apply, Enabled, AddConditional;
      cond := Conditioned(headers, false, false);
      if heap[entry].version != 0 {
        cond := AddConditionalRequestInformation(c.platform, headers, heap[entry].value);
      }
      MissStep(c, S(), id);
      Did(TryServe(id, now, {}));
    }

    /** The loop of forwardRequestWithUpstream: the upstream caches in order, then the origin. */
    method Ask(ghost id: nat, ghost t: Task, answers: seq<Answer>)
      returns (requested: int, received: int, attempts: nat)
      requires Holds(id, t) && answers != []
      modifies this
      ensures Holds(id, t) && old(trace) <= trace && heap[t.entry] == old(heap[t.entry]) && old(S().log) <= S().log
      ensures requested <= received <= now && FirstAnswer(answers, attempts)
    {
      hide IsRun, After, Sane;
      attempts := 0;
      requested, received := now, now;
      while attempts < |answers|
        invariant Holds(id, t) && old(trace) <= trace && heap[t.entry] == old(heap[t.entry]) && old(S().log) <= S().log
        invariant attempts <= |answers| && requested <= received <= now
        invariant forall j :: 0 <= j < attempts ==> answers[j].Lost?
      {
        requested := now;
        Yield(id, t);
        received := now;
        attempts := attempts + 1;
        if answers[attempts - 1].Got? {
          break;
        }
      }
    }

    /** A round of forwarding, as the request hears of it. */
    method Forward(ghost id: nat, ghost t: Task, headers: Headers, outgoing: Headers, answers: seq<Answer>, first: bool)
      returns (got: Answer, requested: int, received: int, attempts: nat, kept: Headers, ghost t': Task)
      requires Holds(id, t) && (if first then t.phase.Sent? else t.phase.Retrying?) && t.headers == headers
      requires answers != [] && outgoing == if first then headers else t.original
      modifies this
      ensures kept == t'.headers && t'.key == t.key && t'.original == t.original && t'.entry == t.entry
      ensures kept == if first && attempts == |answers| then RemoveHopByHop(headers) else headers
      ensures Told(id, t', got, requested, received) && old(trace) <= trace && heap[t.entry] == old(heap[t.entry])
      ensures if first then t'.phase.Answered? && t'.phase.has == t.phase.has && t'.phase.was == t.phase.was
              else t'.phase.Reanswered?
      ensures FirstAnswer(answers, attempts)
      ensures var raw := answers[attempts - 1];
              if got.Got? then Relays(raw, got.resp.status, got.resp.body) else raw.Lost?
      ensures got.Got? ==> SameValidators(answers[attempts - 1].resp.headers, got.resp.headers)
      ensures got.Got? ==> SentSince(S().log, |old(S().log)|, t.key, RemoveHopByHop(outgoing))
    {
      hide IsRun, After, Sane, Apply, Enabled, RemoveHopByHop, Received;
      requested, received, attempts := Ask(id, t, answers);
      var raw, direct := answers[attempts - 1], attempts == |answers|;
      got := if raw.Lost? then Lost else Got(Received(c.platform, raw.resp, now));
      kept := if first && direct then RemoveHopByHop(headers) else headers;
      ReceivedRelays(c.platform, raw, now);
      t' := HearStep(c, S(), id, raw, requested, received, direct);
      Did(Hear(id, raw, requested, received, direct));
    }

    /** serveFromCache when upstream is in trouble or asks for patience. */
    method ServeStale(
        ghost id: nat, ghost t: Task, key: Key, headers: Headers, entry: nat, got: Answer, ghost requested: int,
        ghost received: int)
      returns (r: Option<Response>)
      requires Told(id, t, got, requested, received) && t.key == key && t.headers == headers && t.entry == entry
      requires InTrouble(got) || (t.phase.Answered? && got.resp.status == TOO_MANY_REQUESTS)
      modifies this
      ensures old(trace) <= trace
      ensures r.Some? ==> Delivered(key, t.original, StaleHit, r.value)
      ensures r.None? ==> Told(id, t, got, requested, received) && heap[entry] == old(heap[entry])
      ensures if r.Some? then StandInTried(trace, |old(trace)|, old(heap[entry]))
              else Passed(trace, |old(trace)|, Recent(c, headers, heap[entry]), |Recent(c, headers, heap[entry])|, true)
    {
      hide IsRun, After, Sane, Apply, Enabled, StillGood, Unusable, MostRecent, Candidates, Rendered, InTrouble;
      if heap[entry].version == 0 {
        return None;
      }
      var candidates := SelectResponseCandidates(headers, heap[entry].value);
      var recent := SelectMostRecentCandidates(c.platform, candidates);
      var k, at := Scan(id, t, recent, true);
      if k == |recent| {
        return None;
      }
      var stored := recent[k];
      ghost var before := trace;
      StaleStep(c, S(), id, at, stored);
      Did(Decide(id, at, {stored}, true));
      pool := pool + multiset{entry};
      r := Some(Rendered(c, stored, stored.status, files[stored.contentHash], at));
      PassedGrows(before, trace, |old(trace)|, |old(trace)|, recent, k, true);
    }

    /** Do returns what it has, and the entry goes back to the pool. */
    method Finish(ghost id: nat, ghost t: Task, entry: nat, got: Answer, v: Verdict)
      returns (resp: Response, kind: Kind)
      requires Holds(id, t) && Deciding(S(), id) && Heard(S(), t.phase.event) == got && t.entry == entry
      requires v == Judgement(c, got, t.phase, heap[entry].value)
      requires v.GiveUp? || v.Crash? || v.PassThrough? || v.Refuse?
      modifies this
      ensures old(trace) <= trace && Delivered(t.key, t.original, kind, resp)
      ensures kind == KindOf(v)
      ensures !v.Crash? && got.Got? ==> resp == got.resp
      ensures Unserved(trace, t.headers)
    {
      hide IsRun, After, Sane, Apply, Enabled, Judgement, Rendered, Refreshed;
      DecideStep(c, S(), id, true);
      Did(Decide(id, now, {}, true));
      pool := pool + multiset{entry};
      resp := if got.Lost? || v.Crash? then NO_RESPONSE else got.resp;
      kind := KindOf(v);
    }

    /** The body is handed to the client through the tee that fills the cache; the entry stays with the ingestion. */
    method StartIngestion(ghost id: nat, ghost t: Task, got: Answer, tempOk: bool) returns (resp: Response)
      requires Holds(id, t) && Deciding(S(), id) && Heard(S(), t.phase.event) == got
      requires Judgement(c, got, t.phase, heap[t.entry].value).Ingest? && got.Got?
      modifies this
      ensures old(trace) <= trace && Delivered(t.key, t.original, Miss, resp) && resp == got.resp
      ensures pool == old(pool) && Unserved(trace, t.headers)
    {
      hide IsRun, After, Sane, Apply, Enabled, Judgement, Rendered, Refreshed;
      DecideStep(c, S(), id, tempOk);
      Did(Decide(id, now, {}, tempOk));
      resp := got.resp;
    }

    /** The decision after an answer that no stored response stands in for. */
    method Judge(got: Answer, first: bool, has: bool, was: bool, value: CachedResponses, ghost phase: Phase)
      returns (v: Verdict)
      requires if first then phase.Answered? && phase.has == has && phase.was == was else phase.Reanswered?
      ensures v == Judgement(c, got, phase, value)
    {
      hide FindValidated, Caching.Refused;
      if got.Lost? || got.resp.status >= 500 {
        return GiveUp;
      }
      if first && has && got.resp.status == NOT_MODIFIED {
        var m := FindStored(value, got.resp.headers);
        match m {
          case At(i) => return Revalidate(i);
          case Panics => return Crash;
          case Nowhere =>
            if was {
              return PassThrough;
            }
            return Retry;
        }
      }
      if Caching.Refused(c.platform, got.resp.status, got.resp.headers, c.isPrivate) {
        return Refuse;
      }
      return Ingest;
    }

    /** The stored response takes over the fields of the 304, in the entry only. */
    method Refresh(ghost id: nat, ghost t: Task, entry: nat, got: Answer, requested: int, received: int, i: nat)
      requires Told(id, t, got, requested, received) && t.entry == entry
      requires Judgement(c, got, t.phase, heap[entry].value) == Revalidate(i) && got.Got? && i < |heap[entry].value|
      modifies this
      ensures Holds(id, t.(phase := Saving(i))) && old(trace) <= trace
      ensures heap[entry].version == old(heap[entry].version)
      ensures heap[entry].value == old(heap[entry].value)[
                i := Refreshed(c.platform, old(heap[entry].value[i]), got.resp.headers, requested, received, old(now))]
    {
      hide IsRun, After, Sane, Apply, Enabled, Judgement, Rendered, EstimatedCreation, Merge;
      DecideStep(c, S(), id, true);
      Did(Decide(id, now, {}, true));
      var stored := heap[entry].value[i];
      var merged := MergeHeaders(stored.headers, got.resp.headers);
      var refreshed := stored.(
        headers := merged,
        created := EstimatedCreation(c.platform, got.resp.headers, requested, received, now));
      heap := heap[entry := heap[entry].(value := heap[entry].value[i := refreshed])];
    }

    /** The refreshed entry is saved; a conflict is only logged. */
    method SaveRefreshed(ghost id: nat, ghost t: Task, key: Key, entry: nat)
      requires Holds(id, t) && t.phase.Saving? && t.key == key && t.entry == entry
      modifies this
      ensures Holds(id, t.(phase := Reopening(t.phase.i))) && old(trace) <= trace && heap == old(heap)
      ensures Database.Wrote(old(store), store, key, heap[entry].version, heap[entry].value)
    {
      hide IsRun, After, Sane, Apply, Enabled, Database.Saved, Database.Wrote;
      Database.SavedWrote(store, key, heap[entry].version, heap[entry].value);
      SaveStep(c, S(), id);
      Did(CommitRefresh(id));
      store := Database.Saved(store, key, heap[entry].version, heap[entry].value);
    }

    /** The file of a refreshed response is opened; without it Do panics. */
    method ServeRefreshed(ghost id: nat, ghost t: Task, entry: nat, i: nat) returns (resp: Response, kind: Kind)
      requires Holds(id, t) && t.phase == Reopening(i) && t.entry == entry && i < |heap[entry].value|
      modifies this
      ensures old(trace) <= trace && Delivered(t.key, t.original, kind, resp)
      ensures kind == if old(heap[entry].value[i].contentHash) in files then Revalidated else Panicked
      ensures kind.Revalidated? ==> resp.status == OK
    {
      hide IsRun, After, Sane, Apply, Enabled, CurrentAge;
      ReopenStep(c, S(), id);
      Did(Reopen(id));
      var stored := heap[entry].value[i];
      pool := pool + multiset{entry};
      if stored.contentHash in files {
        resp, kind := Rendered(c, stored, OK, files[stored.contentHash], now), Revalidated;
      } else {
        resp, kind := NO_RESPONSE, Panicked;
      }
    }

    /** refreshResponseAndServe. */
    method RefreshAndServe(
        ghost id: nat, ghost t: Task, key: Key, entry: nat, got: Answer, requested: int, received: int, i: nat)
      returns (resp: Response, kind: Kind, notes: seq<string>)
      requires Told(id, t, got, requested, received) && t.key == key && t.entry == entry
      requires Judgement(c, got, t.phase, heap[entry].value) == Revalidate(i) && got.Got? && i < |heap[entry].value|
      modifies this
      ensures old(trace) <= trace && Delivered(key, t.original, kind, resp)
      ensures kind == if old(heap[entry].value[i].contentHash) in files then Revalidated else Panicked
      ensures kind.Revalidated? ==> resp.status == OK
      ensures notes == Notes(kind)
    {
      hide IsRun, After, Sane, Judgement, Deciding, Heard, Merge, EstimatedCreation;
      Refresh(id, t, entry, got, requested, received, i);
      ghost var t1 := t.(phase := Saving(i));
      Yield(id, t1);
      SaveRefreshed(id, t1, key, entry);
      ghost var t2 := t.(phase := Reopening(i));
      Yield(id, t2);
      resp, kind := ServeRefreshed(id, t2, entry, i);
      notes := if kind.Revalidated? then ["revalidated"] else [];
    }

    /** A 304 that nobody can use is forgotten. */
    method Forget(ghost id: nat, ghost t: Task, got: Answer)
      requires Holds(id, t) && Deciding(S(), id) && Heard(S(), t.phase.event) == got
      requires Judgement(c, got, t.phase, heap[t.entry].value).Retry?
      modifies this
      ensures Holds(id, t.(phase := Retrying)) && old(trace) <= trace && heap == old(heap)
      ensures S().log == old(S().log)
    {
      hide IsRun, After, Sane, Apply, Enabled, Judgement, Rendered, Refreshed;
      DecideStep(c, S(), id, true);
      Did(Decide(id, now, {}, true));
    }

    /** The rest of Do once a round has ended and no 304 is left to handle. */
    method Deliver(
        ghost id: nat, ghost t: Task, key: Key, headers: Headers, entry: nat, got: Answer, v: Verdict, tempOk: bool)
      returns (resp: Response, kind: Kind, notes: seq<string>)
      requires Holds(id, t) && Deciding(S(), id) && Heard(S(), t.phase.event) == got && t.key == key && t.entry == entry
      requires v == Judgement(c, got, t.phase, heap[entry].value) && !v.Retry? && !v.Revalidate?
      modifies this
      ensures old(trace) <= trace && Delivered(key, t.original, kind, resp)
      ensures Accounts(got, t.phase.Reanswered?, kind, resp) && notes == Notes(kind) && kind == KindOf(v)
      ensures Unserved(trace, t.headers)
    {
      hide IsRun, After, Sane, Deciding, Heard, Judgement, Unserved;
      notes := if v.GiveUp? || v.Crash? then [] else ["miss"];
      if v.Ingest? {
        resp := StartIngestion(id, t, got, tempOk);
        kind := Miss;
      } else {
        resp, kind := Finish(id, t, entry, got, v);
      }
    }

    /** The second round, with the request as the client sent it. */
    method Again(
        ghost id: nat, ghost t: Task, key: Key, original: Headers, headers: Headers, entry: nat, answers: seq<Answer>,
        tempOk: bool)
      returns (resp: Response, kind: Kind, notes: seq<string>, attempts: nat)
      requires Holds(id, t) && t.phase.Retrying? && answers != []
      requires t.key == key && t.original == original && t.headers == headers && t.entry == entry
      modifies this
      ensures old(trace) <= trace && Delivered(key, original, kind, resp)
      ensures FirstAnswer(answers, attempts)
      ensures answers[attempts - 1].Got? ==> SentSince(S().log, |old(S().log)|, key, RemoveHopByHop(original))
      ensures FirstAnswer(answers, attempts) && Accounts(answers[attempts - 1], true, kind, resp)
              && notes == Notes(kind)
      ensures kind.StaleHit? || kind.UpstreamTrouble? ==> StandInTried(trace, |old(trace)|, old(heap[entry]))
    {
      hide IsRun, After, Sane, Deciding, Heard, Judgement, FirstAnswer, StandInTried, Unserved, Passed, Recent;
      var got, requested, received, kept;
      ghost var t';
      got, requested, received, attempts, kept, t' := Forward(id, t, headers, original, answers, false);
      ghost var start := trace;
      if InTrouble(got) {
        var r := ServeStale(id, t', key, kept, entry, got, requested, received);
        if r.Some? {
          StandInTriedSince(trace, |start|, |old(trace)|, old(heap[entry]));
          LogGrows(c, start, trace);
          return r.value, StaleHit, ["hit"], attempts;
        }
      }
      ghost var scanned := trace;
      var v := Judge(got, false, false, false, heap[entry].value, t'.phase);
      resp, kind, notes := Deliver(id, t', key, kept, entry, got, v, tempOk);
      LogGrows(c, start, trace);
      if InTrouble(got) {
        NoneThere(scanned, trace, |start|, |old(trace)|, kept, old(heap[entry]));
      }
    }

    /** The request becomes what it was, and is sent again. */
    method GoBack(
        ghost id: nat, ghost t: Task, key: Key, original: Headers, headers: Headers, entry: nat, got: Answer,
        answers: seq<Answer>, tempOk: bool)
      returns (resp: Response, kind: Kind, notes: seq<string>, attempts: nat)
      requires Holds(id, t) && Deciding(S(), id) && Heard(S(), t.phase.event) == got && answers != []
      requires t.key == key && t.original == original && t.headers == headers && t.entry == entry
      requires Judgement(c, got, t.phase, heap[entry].value).Retry?
      modifies this
      ensures old(trace) <= trace && Delivered(key, original, kind, resp)
      ensures FirstAnswer(answers, attempts)
      ensures answers[attempts - 1].Got? ==> SentSince(S().log, |old(S().log)|, key, RemoveHopByHop(original))
      ensures Accounts(answers[attempts - 1], true, kind, resp) && notes == Notes(kind)
      ensures kind.StaleHit? || kind.UpstreamTrouble? ==> StandInTried(trace, |old(trace)|, old(heap[entry]))
    {
      hide IsRun, After, Sane, Deciding, Heard, Judgement, FirstAnswer, Accounts, StandInTried, SentSince;
      Forget(id, t, got);
      ghost var back := trace;
      resp, kind, notes, attempts := Again(id, t.(phase := Retrying), key, original, headers, entry, answers, tempOk);
      if kind.StaleHit? || kind.UpstreamTrouble? {
        StandInTriedSince(trace, |back|, |old(trace)|, old(heap[entry]));
      }
    }

    /** The first answer decides, no stored response having stood in for it. */
    method Resolve(
        ghost id: nat, ghost t: Task, key: Key, original: Headers, headers: Headers, entry: nat, has: bool, was: bool,
        got: Answer, requested: int, received: int, second: seq<Answer>, tempOk: bool)
      returns (resp: Response, kind: Kind, notes: seq<string>, more: seq<nat>)
      requires Told(id, t, got, requested, received) && t.phase.Answered? && t.phase.has == has && t.phase.was == was
      requires t.key == key && t.original == original && t.headers == headers && t.entry == entry && second != []
      modifies this
      ensures old(trace) <= trace && Delivered(key, original, kind, resp)
      ensures |more| <= 1 && notes == Notes(kind)
      ensures more == [] ==> Accounts(got, false, kind, resp) && !kind.StaleHit?
      ensures more == [] && (kind.UpstreamTrouble? || kind.Miss?) ==> Unserved(trace, headers)
      ensures more != [] ==> got.Got? && got.resp.status == NOT_MODIFIED && FirstAnswer(second, more[0])
                             && Accounts(second[more[0] - 1], true, kind, resp)
      ensures more != [] && (kind.StaleHit? || kind.UpstreamTrouble?) ==>
                StandInTried(trace, |old(trace)|, old(heap[entry]))
      ensures FirstRound(has, was, old(heap[entry].value), got, files, 1 + |more|, kind)
    {
      hide IsRun, After, Sane, Deciding, Heard, Judgement, FirstAnswer, StandInTried, Unserved, FirstRound, SentSince,
           Accounts;
      more := [];
      var v := Judge(got, true, has, was, heap[entry].value, t.phase);
      if v.Revalidate? {
        resp, kind, notes := RefreshAndServe(id, t, key, entry, got, requested, received, v.i);
        RefreshAccounts(got, kind, resp);
      } else if v.Retry? {
        var attempts;
        resp, kind, notes, attempts := GoBack(id, t, key, original, headers, entry, got, second, tempOk);
        more := [attempts];
      } else {
        resp, kind, notes := Deliver(id, t, key, headers, entry, got, v, tempOk);
      }
      JudgedRound(c, got, t.phase, old(heap[entry].value), files, 1 + |more|, kind);
    }

    /** The first answer is handled. */
    method Handle(
        ghost id: nat, ghost t: Task, key: Key, original: Headers, headers: Headers, entry: nat, has: bool, was: bool,
        got: Answer, requested: int, received: int, second: seq<Answer>, tempOk: bool)
      returns (resp: Response, kind: Kind, notes: seq<string>, more: seq<nat>)
      requires Told(id, t, got, requested, received) && t.phase.Answered? && t.phase.has == has && t.phase.was == was
      requires t.key == key && t.original == original && t.headers == headers && t.entry == entry && second != []
      modifies this
      ensures old(trace) <= trace && Delivered(key, original, kind, resp)
      ensures |more| <= 1 && notes == Notes(kind)
      ensures more == [] ==> Accounts(got, false, kind, resp)
      ensures more != [] ==> got.Got? && got.resp.status == NOT_MODIFIED && FirstAnswer(second, more[0])
                             && Accounts(second[more[0] - 1], true, kind, resp)
      ensures WantsStandIn(kind, resp, 1 + |more|) ==> StandInTried(trace, |old(trace)|, old(heap[entry]))
      ensures FirstRound(has, was, old(heap[entry].value), got, files, 1 + |more|, kind)
    {
      hide IsRun, After, Sane, Deciding, Heard, FirstAnswer, StandInTried, Unserved, Passed, Recent, FirstRound;
      if InTrouble(got) || got.resp.status == TOO_MANY_REQUESTS {
        var r := ServeStale(id, t, key, headers, entry, got, requested, received);
        if r.Some? {
          StoodInRound(has, was, old(heap[entry].value), got, files);
          return r.value, StaleHit, ["hit"], [];
        }
      }
      ghost var scanned := trace;
      resp, kind, notes, more := Resolve(
        id, t, key, original, headers, entry, has, was, got, requested, received, second, tempOk);
      if more == [] && (kind.UpstreamTrouble? || (kind.Miss? && resp.status == TOO_MANY_REQUESTS)) {
        NoneThere(scanned, trace, |old(trace)|, |old(trace)|, headers, old(heap[entry]));
      } else if kind.StaleHit? || kind.UpstreamTrouble? {
        StandInTriedSince(trace, |scanned|, |old(trace)|, old(heap[entry]));
      }
    }

    /** Do after the store had nothing to offer: one round, and a second after a 304 that nobody can use. */
    method AskUpstream(
        ghost id: nat, ghost t: Task, key: Key, headers: Headers, entry: nat, first: seq<Answer>,
        second: seq<Answer>, tempOk: bool)
      returns (resp: Response, kind: Kind, notes: seq<string>, rounds: seq<nat>)
      requires Holds(id, t) && t.phase.Looked? && t.phase.since <= now && first != [] && second != []
      requires t.key == key && t.original == headers && t.headers == headers && t.entry == entry
      modifies this
      ensures old(trace) <= trace && Delivered(key, headers, kind, resp)
      ensures rounds != [] && notes == Notes(kind) && Rounds(first, second, rounds, kind, resp)
      ensures WantsStandIn(kind, resp, |rounds|) ==> StandInTried(trace, |old(trace)|, old(heap[entry]))
      ensures first[rounds[0] - 1].Got? ==>
                var sent := RemoveHopByHop(Validators(c, headers, old(heap[entry])).headers);
                SentSince(S().log, |old(S().log)|, key, sent)
      ensures var cond := Validators(c, headers, old(heap[entry]));
              FirstRound(cond.has, cond.was, old(heap[entry].value), first[rounds[0] - 1], files, |rounds|, kind)
    {
      hide IsRun, After, Sane, Deciding, Heard, AddConditional, StandInTried, FirstRound, SentSince, Accounts,
           SameValidators;
      var cond := Condition(id, t, headers, entry);
      ghost var sent := t.(headers := cond.headers, phase := Sent(cond.has, cond.was));
      var got, requested, received, attempts, kept;
      ghost var t';
      got, requested, received, attempts, kept, t' := Forward(id, sent, cond.headers, cond.headers, first, true);
      var more;
      ghost var heard := trace;
      ghost var soFar := S().log;
      resp, kind, notes, more := Handle(
        id, t', key, headers, kept, entry, cond.has, cond.was, got, requested, received, second, tempOk);
      rounds := [attempts] + more;
      LogGrows(c, heard, trace);
      if got.Got? {
        SentGrows(soFar, S().log, |old(S().log)|, key, RemoveHopByHop(cond.headers));
      }
      RawRound(first[attempts - 1], got, cond.has, cond.was, old(heap[entry].value), files, |rounds|, kind, resp);
      if WantsStandIn(kind, resp, 1 + |more|) {
        StandInTriedSince(trace, |heard|, |old(trace)|, old(heap[entry]));
      }
    }

    /** An entry is taken and the key is looked up. */
    method LookUp(ghost id: nat, key: Key, headers: Headers, entry: nat) returns (ghost t: Task)
      requires Valid() && id !in S().tasks && (entry in pool <==> entry in heap)
      modifies this
      ensures t == Task(key, headers, headers, entry, Looked(now)) && Holds(id, t) && old(trace) <= trace
      ensures FoundAt(c, trace, key, heap[entry])
    {
      hide IsRun, After, Sane;
      t := Task(key, headers, headers, entry, Arrived);
      Begin(id, key, headers, entry);
      Yield(id, t);
      Get(id, t, key, entry);
      t := t.(phase := Looked(now));
    }

    /** Client.Do for a GET or HEAD request, with the answers that each attempt of the two rounds would bring. */
    method Do(
        ghost id: nat, key: Key, headers: Headers, entry: nat, first: seq<Answer>, second: seq<Answer>, tempOk: bool)
      returns (resp: Response, kind: Kind, notes: seq<string>, rounds: seq<nat>, ghost found: Entry, ghost k: nat)
      requires Valid() && id !in S().tasks && (entry in pool <==> entry in heap) && first != [] && second != []
      modifies this
      ensures old(trace) <= trace && Delivered(key, headers, kind, resp)
      ensures notes == Notes(kind) && Rounds(first, second, rounds, kind, resp)
      ensures Found(c, trace, |old(trace)|, key, found)
      ensures Passed(trace, |old(trace)|, Recent(c, headers, found), k, false)
      ensures (exists r :: r in Recent(c, headers, found) && !Unusable(c, trace, |old(trace)|, r, false)) ==>
                rounds == []
      ensures if k < |Recent(c, headers, found)| then rounds == [] && ServedLast(S(), Recent(c, headers, found)[k])
              else rounds != []
      ensures WantsStandIn(kind, resp, |rounds|) ==> StandInTried(trace, |old(trace)|, found)
      ensures rounds != [] && first[rounds[0] - 1].Got? ==>
                SentSince(S().log, |old(S().log)|, key, RemoveHopByHop(Validators(c, headers, found).headers))
      ensures rounds != [] ==>
                var cond := Validators(c, headers, found);
                FirstRound(cond.has, cond.was, found.value, first[rounds[0] - 1], files, |rounds|, kind)
    {
      hide IsRun, After, Sane, Unusable, Recent, Accounts, Passed, ServedLast, StandInTried, FirstRound, Validators,
           SentSince, FoundAt;
      ghost var t := LookUp(id, key, headers, entry);
      found := heap[entry];
      ghost var looked := trace;
      var r;
      r, k := ServeFresh(id, t, key, headers, entry);
      if r.Some? {
        resp, kind, notes, rounds := r.value, Hit, ["hit"], [];
      } else {
        ghost var before := trace;
        ghost var soFar := S().log;
        LogGrows(c, old(trace), trace);
        resp, kind, notes, rounds := AskUpstream(id, t, key, headers, entry, first, second, tempOk);
        PassedGrows(before, trace, |looked|, |looked|, Recent(c, headers, found), k, false);
        if WantsStandIn(kind, resp, |rounds|) {
          StandInTriedSince(trace, |before|, |old(trace)|, found);
        }
        if first[rounds[0] - 1].Got? {
          SentSinceEarlier(
            S().log, |soFar|, |old(S().log)|, key, RemoveHopByHop(Validators(c, headers, found).headers));
        }
      }
      FoundGrows(c, looked, trace, |old(trace)|, key, found);
      PassedGrows(trace, trace, |looked|, |old(trace)|, Recent(c, headers, found), k, false);
      PassedIsUnusable(trace, |old(trace)|, Recent(c, headers, found), k);
    }

    /** onIngest and onCleanup of setupIngestion, once the file is published under the hash of the body. */
    method StoreIngested(
        ghost id: nat, ghost t: Task, key: Key, headers: Headers, entry: nat, resp: Response, requested: int,
        received: int, body: Bytes)
      requires Holds(id, t) && t.key == key && t.headers == headers && t.entry == entry
      requires t.phase.Settled? && t.phase.tee.copied == body && t.phase.source < |S().log|
      requires S().log[t.phase.source].resp == resp
      requires S().log[t.phase.source].requested == requested && S().log[t.phase.source].received == received
      modifies this
      ensures Valid() && trace == old(trace) + [CommitIngest(id)]
      ensures id !in S().tasks && pool == old(pool) + multiset{entry}
      ensures var created := EstimatedCreation(c.platform, resp.headers, requested, received, old(now));
              var vary := Vary.Extract(headers, resp.headers);
              var stored := CachedResponse(c.platform.hash(body), resp.status, resp.headers, vary, created);
              var value :=
                if old(heap[entry].version) == 0 then [stored] else Insert(headers, old(heap[entry].value), stored);
              Database.Wrote(old(store), store, key, old(heap[entry].version), value)
    {
      hide IsRun, After, Sane, Apply, Enabled, Vary.Extract, EstimatedCreation, Insert, Database.Saved, Database.Wrote;
      var vary := Vary.ExtractVaryHeaders(headers, resp.headers);
      var created := EstimatedCreation(c.platform, resp.headers, requested, received, now);
      var stored := CachedResponse(c.platform.hash(body), resp.status, resp.headers, vary, created);
      IngestStep(c, S(), id);
      Did(CommitIngest(id));
      var version := heap[entry].version;
      if version != 0 {
        var value := InsertResponse(headers, heap[entry].value, stored);
        heap := heap[entry := heap[entry].(value := value)];
        Database.SavedWrote(store, key, version, value);
        store := Database.Saved(store, key, version, value);
      } else {
        Database.SavedWrote(store, key, 0, [stored]);
        store := Database.Saved(store, key, 0, [stored]);
      }
      pool := pool + multiset{entry};
    }
  }
}
