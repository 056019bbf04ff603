/** What becomes of pooled entries: exactly one thing loses them. */
module Pool {
  import opened Http
  import opened Client
  import opened Revalidation
  import opened System
  import opened Provenance
  import opened Runs
  import opened Steps
  import Database
  import Ingestion

  ghost predicate HeldBy(s: State, e: nat) {
    exists i :: i in s.tasks && s.tasks[i].entry == e
  }

  /** Every entry there is lies in the pool or is held by a task. */
  ghost predicate Accounted(s: State) {
    forall e :: e in s.heap ==> e in s.pool || HeldBy(s, e)
  }

  /** An answer is to be stored, and there is no temporary file for it. */
  predicate Leaks(c: Config, s: State, a: Action)
    requires Enabled(c, s, a)
  {
    a.Decide? && !a.tempOk && VerdictOf(c, s, a.id, a.at, a.view).Ingest?
  }

  /** Some step of the run did that. */
  predicate Leaked(c: Config, actions: seq<Action>)
    requires IsRun(c, actions)
  {
    actions != []
    && var n := |actions| - 1;
       Leaked(c, actions[..n]) || Leaks(c, After(c, actions[..n]), actions[n])
  }

  lemma EnactReturns(c: Config, s: State, id: nat, v: Verdict, at: int, tempOk: bool)
    requires Deciding(s, id) && Fits(s, id, v)
    ensures var s' := Enact(c, s, id, v, at, tempOk);
            if v.Ingest? && !tempOk then id !in s'.tasks && s'.pool == s.pool
            else id in s'.tasks || s'.pool == s.pool + multiset{s.tasks[id].entry}
  {
    hide Rendered, Refreshed;
  }

  /** A task that ends gives its entry back, unless the step leaks. */
  lemma TaskReturns(c: Config, s: State, a: Action)
    requires Enabled(c, s, a) && !a.Arrive? && !a.RemoveFile? && !a.CleanRead? && !a.CleanWrite? && !a.Tick?
    ensures var s' := Apply(c, s, a);
            if Leaks(c, s, a) then a.id !in s'.tasks && s'.pool == s.pool
            else a.id in s'.tasks || s'.pool == s.pool + multiset{s.tasks[a.id].entry}
  {
    hide Serve, AddConditional, RemoveHopByHop, ToStore, Insert, Rendered, Received, Enact, VerdictOf, Database.Saved,
         Ingestion.Read, Ingestion.Accepted;
    if a.Decide? {
      EnactReturns(c, s, a.id, VerdictOf(c, s, a.id, a.at, a.view), a.at, a.tempOk);
    }
  }

  lemma MovedAccounts(s: State, s': State, id: nat)
    requires Owned(s) && Moves(s, s', id)
    ensures id in s'.tasks || s'.pool == s.pool + multiset{s.tasks[id].entry} ==> (Accounted(s') <==> Accounted(s))
    ensures id !in s'.tasks && s'.pool == s.pool ==> !Accounted(s')
  {
    var entry := s.tasks[id].entry;
    assert forall e :: e != entry ==> (HeldBy(s', e) <==> HeldBy(s, e)) by { OthersHold(s, s', id); }
    assert HeldBy(s, entry);
    if id in s'.tasks {
      assert HeldBy(s', entry);
    } else if s'.pool == s.pool {
      assert entry in s'.heap && !HeldBy(s', entry);
    }
  }

  lemma OthersHold(s: State, s': State, id: nat)
    requires Moves(s, s', id)
    ensures forall e :: e != s.tasks[id].entry ==> (HeldBy(s', e) <==> HeldBy(s, e))
  {
    forall e | e != s.tasks[id].entry
      ensures HeldBy(s', e) <==> HeldBy(s, e)
    {
      if HeldBy(s, e) {
        var i :| i in s.tasks && s.tasks[i].entry == e;
        assert i in s'.tasks && s'.tasks[i].entry == e;
      }
      if HeldBy(s', e) {
        var i :| i in s'.tasks && s'.tasks[i].entry == e;
        assert i in s.tasks && s.tasks[i].entry == e;
      }
    }
  }

  lemma ArriveAccounts(s: State, id: nat, key: Key, headers: Headers, entry: nat)
    requires Owned(s) && id !in s.tasks && (entry in s.pool <==> entry in s.heap)
    ensures Accounted(DoArrive(s, id, key, headers, entry)) <==> Accounted(s)
  {
    var s' := DoArrive(s, id, key, headers, entry);
    assert s'.tasks[id].entry == entry && HeldBy(s', entry);
    forall e | e != entry
      ensures HeldBy(s', e) <==> HeldBy(s, e)
    {
      if HeldBy(s, e) {
        var i :| i in s.tasks && s.tasks[i].entry == e;
        assert i in s'.tasks && s'.tasks[i].entry == e;
      }
    }
  }

  lemma StepAccounts(c: Config, s: State, a: Action)
    requires Owned(s) && Enabled(c, s, a)
    ensures Accounted(Apply(c, s, a)) <==> Accounted(s) && !Leaks(c, s, a)
  {
    hide Exclusive, Moves, VerdictOf, DoArrive, DoLookup, DoTryServe, DoHear, Enact, DoCommitRefresh, DoReopen,
         DoReadBody, DoCloseBody, DoCommitIngest;
    match a
    case Arrive(id, key, headers, entry) => ArriveAccounts(s, id, key, headers, entry);
    case RemoveFile(_) => SameAccounts(s, Apply(c, s, a));
    case CleanRead(_, _) => SameAccounts(s, Apply(c, s, a));
    case CleanWrite(_, _) => SameAccounts(s, Apply(c, s, a));
    case Tick(_) => SameAccounts(s, Apply(c, s, a));
    case _ =>
      hide Accounted, Leaks, Apply, Enabled;
      TaskMoves(c, s, a);
      TaskReturns(c, s, a);
      MovedAccounts(s, Apply(c, s, a), a.id);
  }

  lemma SameAccounts(s: State, s': State)
    requires s'.heap == s.heap && s'.pool == s.pool && s'.tasks == s.tasks
    ensures Accounted(s') <==> Accounted(s)
  {
    assert forall e :: HeldBy(s', e) <==> HeldBy(s, e);
  }

  /** In every run, each entry is in the pool or held by a task exactly if every answer that was to be stored had a
      temporary file: nothing else loses an entry, and what is lost stays lost. */
  lemma {:induction false} EntriesAreAccountedFor(c: Config, actions: seq<Action>)
    requires Sane(c) && IsRun(c, actions)
    ensures Accounted(After(c, actions)) <==> !Leaked(c, actions)
    decreases |actions|
  {
    hide Accounted, Leaks, Apply, Enabled;
    if actions == [] {
      NothingHeld();
    } else {
      var n := |actions| - 1;
      var s := After(c, actions[..n]);
      EntriesAreAccountedFor(c, actions[..n]);
      assert Owned(s) by { OwnedInRuns(c, actions[..n]); }
      StepAccounts(c, s, actions[n]);
    }
  }

  lemma NothingHeld()
    ensures Accounted(INITIAL)
  {
  }

  lemma OwnedInRuns(c: Config, actions: seq<Action>)
    requires Sane(c) && IsRun(c, actions)
    ensures Owned(After(c, actions))
  {
    hide Exclusive, LogOk, FilesOk, StoreOk, TasksOk, CleanersOk, RepliesOk, IsRun, After;
    RunKeepsInv(c, actions);
  }
}
