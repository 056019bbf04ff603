/** What an earlier request left in a pooled entry never shows. */
module Leftovers {
  import opened Http
  import opened Client
  import opened Revalidation
  import opened System
  import opened Provenance
  import opened Runs
  import opened Steps
  import Database
  import Ingestion

  /** Two entries a task cannot tell apart: same version, and the same value if the version vouches for it. */
  predicate Alike(a: Entry, b: Entry) {
    a.version == b.version && (a.version != 0 ==> a == b)
  }

  /** Two states that differ only in leftovers: entries nobody holds, not yet looked up, or not found. */
  ghost predicate Similar(s: State, t: State) {
    && t == s.(heap := t.heap)
    && t.heap.Keys == s.heap.Keys
    && forall i :: i in s.tasks && s.tasks[i].entry in s.heap && !s.tasks[i].phase.Arrived? ==>
         Alike(s.heap[s.tasks[i].entry], t.heap[s.tasks[i].entry])
  }

  /** How a step changes two similar states: alike, but for one entry whose two versions are alike. */
  lemma SimilarStep(s: State, t: State, s': State, t': State, id: nat)
    requires Owned(s) && Similar(s, t) && id in s.tasks
    requires t' == s'.(heap := t'.heap)
    requires s'.tasks == s.tasks - {id} || (id in s'.tasks && s'.tasks == s.tasks[id := s'.tasks[id]])
    requires s'.heap.Keys == s.heap.Keys && t'.heap.Keys == t.heap.Keys
    requires forall e :: e in s.heap && e != s.tasks[id].entry ==> s'.heap[e] == s.heap[e] && t'.heap[e] == t.heap[e]
    requires id in s'.tasks ==>
               s'.tasks[id].entry == s.tasks[id].entry
               && Alike(s'.heap[s.tasks[id].entry], t'.heap[s.tasks[id].entry])
    ensures Similar(s', t')
  {
  }

  /** A verdict depends on an entry only through what its version vouches for. */
  lemma SameVerdict(c: Config, s: State, t: State, id: nat, at: int, view: set<CachedResponse>)
    requires Inv(c, s) && Similar(s, t) && Deciding(s, id) && Openable(s, view)
    ensures Deciding(t, id) && VerdictOf(c, s, id, at, view) == VerdictOf(c, t, id, at, view)
  {
    hide Exclusive, LogOk, FilesOk, StoreOk, CleanersOk, RepliesOk, Legitimate, Serve, FindValidated, Conclude,
         Conditional, AlmostSame, Asking;
    assert TaskOk(c, s.log, s.now, s.tasks[id], s.heap[s.tasks[id].entry]);
  }

  lemma SameEnact(c: Config, s: State, t: State, id: nat, v: Verdict, at: int, tempOk: bool)
    requires Inv(c, s) && Similar(s, t) && Deciding(s, id) && Deciding(t, id) && Fits(s, id, v) && Fits(t, id, v)
    requires v.Revalidate? ==> s.heap[s.tasks[id].entry].version != 0
    ensures Similar(Enact(c, s, id, v, at, tempOk), Enact(c, t, id, v, at, tempOk))
  {
    hide Exclusive, LogOk, FilesOk, StoreOk, CleanersOk, RepliesOk, TasksOk, Refreshed, Rendered;
    SimilarStep(s, t, Enact(c, s, id, v, at, tempOk), Enact(c, t, id, v, at, tempOk), id);
  }

  lemma RevalidateReads(c: Config, s: State, id: nat, at: int, view: set<CachedResponse>)
    requires Inv(c, s) && Deciding(s, id) && Openable(s, view) && VerdictOf(c, s, id, at, view).Revalidate?
    ensures s.heap[s.tasks[id].entry].version != 0
  {
    hide Exclusive, LogOk, FilesOk, StoreOk, CleanersOk, RepliesOk, Legitimate, VerdictOf, Conditional, AlmostSame,
         Asking, Serve, FindValidated;
    VerdictJustified(c, s, id, at, view);
    assert TaskOk(c, s.log, s.now, s.tasks[id], s.heap[s.tasks[id].entry]);
  }

  /** The phases that use a value without looking at the version only occur with a version that vouches for it. */
  lemma Vouched(c: Config, s: State, id: nat)
    requires Inv(c, s) && id in s.tasks
    requires s.tasks[id].phase.Saving? || s.tasks[id].phase.Reopening?
    ensures s.tasks[id].entry in s.heap && s.heap[s.tasks[id].entry].version != 0
  {
    hide Exclusive, LogOk, FilesOk, StoreOk, CleanersOk, RepliesOk, Legitimate, AlmostSame;
    assert TaskOk(c, s.log, s.now, s.tasks[id], s.heap[s.tasks[id].entry]);
  }

  lemma ArriveSimilar(s: State, t: State, id: nat, key: Key, headers: Headers, entry: nat)
    requires Owned(s) && Similar(s, t) && id !in s.tasks && (entry in s.pool <==> entry in s.heap)
    ensures Similar(DoArrive(s, id, key, headers, entry), DoArrive(t, id, key, headers, entry))
  {
  }

  /** The first half of a request: looking up, trying the store, hearing from upstream. */
  lemma AskingSimilar(c: Config, s: State, t: State, a: Action)
    requires Owned(s) && Similar(s, t) && Enabled(c, s, a)
    requires a.Lookup? || a.TryServe? || a.Hear?
    ensures Enabled(c, t, a) && Similar(Apply(c, s, a), Apply(c, t, a))
  {
    hide Exclusive, DoLookup, DoTryServe, DoHear;
    match a
    case Lookup(id) => LookupSimilar(s, t, id);
    case TryServe(id, at, view) => TryServeSimilar(c, s, t, id, at, view);
    case Hear(id, raw, requested, received, direct) => HearSimilar(c, s, t, id, raw, requested, received, direct);
  }

  lemma LookupSimilar(s: State, t: State, id: nat)
    requires Owned(s) && Similar(s, t) && Live(s, id) && s.tasks[id].phase.Arrived?
    ensures Similar(DoLookup(s, id), DoLookup(t, id))
  {
    hide Exclusive;
    SimilarStep(s, t, DoLookup(s, id), DoLookup(t, id), id);
  }

  lemma TryServeSimilar(c: Config, s: State, t: State, id: nat, at: int, view: set<CachedResponse>)
    requires Owned(s) && Similar(s, t) && Live(s, id) && s.tasks[id].phase.Looked? && Openable(s, view)
    ensures Similar(DoTryServe(c, s, id, at, view), DoTryServe(c, t, id, at, view))
  {
    hide Exclusive, Serve, AddConditional, Rendered;
    SimilarStep(s, t, DoTryServe(c, s, id, at, view), DoTryServe(c, t, id, at, view), id);
  }

  lemma HearSimilar(c: Config, s: State, t: State, id: nat, raw: Answer, requested: int, received: int, direct: bool)
    requires Owned(s) && Similar(s, t) && Live(s, id) && (s.tasks[id].phase.Sent? || s.tasks[id].phase.Retrying?)
    ensures Similar(
              DoHear(c, s, id, raw, requested, received, direct),
              DoHear(c, t, id, raw, requested, received, direct))
  {
    hide Exclusive, RemoveHopByHop, Received;
    var s' := DoHear(c, s, id, raw, requested, received, direct);
    var t' := DoHear(c, t, id, raw, requested, received, direct);
    SimilarStep(s, t, s', t', id);
  }

  /** Refreshing. */
  lemma RefreshingSimilar(c: Config, s: State, t: State, a: Action)
    requires Inv(c, s) && Similar(s, t) && Enabled(c, s, a)
    requires a.CommitRefresh? || a.Reopen?
    ensures Enabled(c, t, a) && Similar(Apply(c, s, a), Apply(c, t, a))
  {
    hide Exclusive, LogOk, FilesOk, StoreOk, CleanersOk, RepliesOk, TasksOk, Rendered, Database.Saved;
    Vouched(c, s, a.id);
    SimilarStep(s, t, Apply(c, s, a), Apply(c, t, a), a.id);
  }

  /** Ingesting. */
  lemma StoringSimilar(c: Config, s: State, t: State, a: Action)
    requires Owned(s) && Similar(s, t) && Enabled(c, s, a)
    requires a.ReadBody? || a.CloseBody? || a.CommitIngest?
    ensures Enabled(c, t, a) && Similar(Apply(c, s, a), Apply(c, t, a))
  {
    hide Exclusive, Ingestion.Read, Ingestion.Accepted, Ingestion.Possible, DoCommitIngest;
    if a.CommitIngest? {
      CommitSimilar(c, s, t, a.id);
    } else {
      SimilarStep(s, t, Apply(c, s, a), Apply(c, t, a), a.id);
    }
  }

  lemma CommitSimilar(c: Config, s: State, t: State, id: nat)
    requires Owned(s) && Similar(s, t) && Live(s, id)
    requires s.tasks[id].phase.Settled? && s.tasks[id].phase.source < |s.log|
    ensures Similar(DoCommitIngest(c, s, id), DoCommitIngest(c, t, id))
  {
    hide Exclusive, ToStore, Insert, Database.Saved;
    SimilarStep(s, t, DoCommitIngest(c, s, id), DoCommitIngest(c, t, id), id);
  }

  lemma StepSimilar(c: Config, s: State, t: State, a: Action)
    requires Inv(c, s) && Similar(s, t) && Enabled(c, s, a)
    ensures Enabled(c, t, a) && Similar(Apply(c, s, a), Apply(c, t, a))
  {
    hide Exclusive, LogOk, FilesOk, StoreOk, CleanersOk, RepliesOk, TasksOk, Enact, VerdictOf, DoArrive, DoLookup,
         DoTryServe, DoHear, DoCommitRefresh, DoReopen, DoReadBody, DoCloseBody, DoCommitIngest, Kept;
    match a
    case Arrive(id, key, headers, entry) => ArriveSimilar(s, t, id, key, headers, entry);
    case Decide(id, at, view, tempOk) =>
      SameVerdict(c, s, t, id, at, view);
      var v := VerdictOf(c, s, id, at, view);
      if v.Revalidate? {
        RevalidateReads(c, s, id, at, view);
      }
      SameEnact(c, s, t, id, v, at, tempOk);
    case RemoveFile(_) =>
    case CleanRead(_, _) =>
    case CleanWrite(_, _) =>
    case Tick(_) =>
    case _ =>
      if a.Lookup? || a.TryServe? || a.Hear? {
        AskingSimilar(c, s, t, a);
      } else if a.CommitRefresh? || a.Reopen? {
        RefreshingSimilar(c, s, t, a);
      } else {
        StoringSimilar(c, s, t, a);
      }
  }

  lemma {:induction false} RunSimilar(c: Config, s: State, t: State, actions: seq<Action>)
    requires Sane(c) && Inv(c, s) && Similar(s, t) && CanRun(c, s, actions)
    ensures CanRun(c, t, actions) && Similar(RunFrom(c, s, actions), RunFrom(c, t, actions))
    decreases |actions|
  {
    hide Inv, Similar, Apply, Enabled;
    if actions != [] {
      StepSimilar(c, s, t, actions[0]);
      StepKeepsInv(c, s, actions[0]);
      RunSimilar(c, Apply(c, s, actions[0]), Apply(c, t, actions[0]), actions[1..]);
    }
  }

  /** Put anything at all into the entries lying in the pool of a reachable state: every continuation still runs,
      sends the same replies, asks upstream the same, and leaves the same database and files. */
  lemma PooledValuesAreInvisible(c: Config, actions: seq<Action>, heap: map<nat, Entry>, more: seq<Action>)
    requires Sane(c) && IsRun(c, actions) && CanRun(c, After(c, actions), more)
    requires var s := After(c, actions);
             heap.Keys == s.heap.Keys && forall e :: e in heap && e !in s.pool ==> heap[e] == s.heap[e]
    ensures var s := After(c, actions);
            CanRun(c, s.(heap := heap), more)
    ensures var s := After(c, actions);
            var a, b := RunFrom(c, s, more), RunFrom(c, s.(heap := heap), more);
            a.replies == b.replies && a.log == b.log && a.store == b.store && a.files == b.files
  {
    hide LogOk, FilesOk, StoreOk, CleanersOk, RepliesOk, TasksOk, IsRun, After, CanRun, RunFrom;
    RunKeepsInv(c, actions);
    var s := After(c, actions);
    assert Similar(s, s.(heap := heap));
    RunSimilar(c, s, s.(heap := heap), more);
  }
}
