/** The content-addressed file store: ingestion, pruning, and the small file operations. */
module FileCache {
  import opened Http
  import opened Ingestion

  datatype File = File(content: Bytes, mtime: int)

  /** Files by the hash in their name. */
  type Files = map<string, File>

  function Second(f: File): int {
    f.mtime / SECOND
  }

  /** The bytes held by a set of files. */
  ghost function Usage(m: Files): nat
    decreases m.Keys
  {
    if m == map[] then 0
    else
      var n :| n in m;
      |m[n].content| + Usage(m - {n})
  }

  lemma {:induction false} UsageWithout(m: Files, n: string)
    requires n in m
    ensures Usage(m) == |m[n].content| + Usage(m - {n})
    decreases m.Keys
  {
    var k :| k in m && Usage(m) == |m[k].content| + Usage(m - {k});
    if k != n {
      UsageWithout(m - {k}, n);
      UsageWithout(m - {n}, k);
      assert m - {k} - {n} == m - {n} - {k};
    }
  }

  lemma UsageWith(m: Files, n: string, f: File)
    requires n !in m
    ensures Usage(m[n := f]) == Usage(m) + |f.content|
  {
    UsageWithout(m[n := f], n);
    assert m[n := f] - {n} == m;
  }

  /* ---- Ingestion ---- */

  /** The reader handed to the client, with the temporary file it copies into. */
  class TeeReader {
    const source: Bytes
    const temp: nat
    var pos: nat
    var dest: Bytes
    var lastReadErr: bool
    var lastWriteErr: bool
    var hasError: bool
    var totalRead: nat
    var wasCalled: bool
    var reported: seq<string>  // the hashes onIngest was called with
    var cleanups: nat          // how often onCleanup ran

    ghost function Abs(): Tee
      reads this
    {
      Tee(source, pos, dest, lastReadErr, lastWriteErr, totalRead)
    }

    ghost predicate Valid()
      reads this
    {
      && Intact(Abs())
      && (hasError <==> lastReadErr || lastWriteErr)
      && cleanups == (if wasCalled then 1 else 0)
      && |reported| <= cleanups
    }

    constructor (source: Bytes, temp: nat)
      ensures Valid() && Abs() == Ingestion.Open(source) && this.temp == temp && !wasCalled
    {
      this.source, this.temp := source, temp;
      pos, dest, totalRead := 0, [], 0;
      lastReadErr, lastWriteErr, hasError, wasCalled := false, false, false, false;
      reported, cleanups := [], 0;
    }

    /** The client gets exactly the source's bytes and the source's verdict, whatever the copy does. */
    method Read(s: Step) returns (chunk: Bytes, end: End)
      requires Valid() && Possible(Abs(), s)
      modifies this`pos, this`dest, this`lastReadErr, this`lastWriteErr, this`hasError, this`totalRead
      ensures Valid() && Abs() == Ingestion.Read(old(Abs()), s)
      ensures chunk == source[old(pos)..old(pos) + s.n] && end == s.end
    {
      hide Intact;
      ghost var t := Abs();
      ReadKeepsIntact(t, s);
      chunk, end := source[pos..pos + s.n], s.end;
      if !hasError {
        if end.Failed? {
          hasError, lastReadErr := true, true;
        }
        if s.n > 0 {
          dest := dest + source[pos..pos + s.written];
          if s.writeFails {
            hasError, lastWriteErr := true, true;
          }
        }
      }
      pos, totalRead := pos + s.n, totalRead + s.n;
      assert Abs() == Ingestion.Read(t, s);
    }
  }

  /** Whether the file operations of a close succeed. */
  datatype Faults = Faults(renameOk: bool, closeOk: bool, removeOk: bool)

  datatype Closing = AlreadyClosed | Discarded | Published(name: string)

  /* ---- Pruning ---- */

  datatype Outcome = NotRequired | Pruned(count: nat) | Crashed

  /** One candidate the pruner looked at: what Stat showed, and whether it was deleted. */
  datatype Visit = Visit(name: string, stamp: int, seen: File, deleted: bool)

  function SizeDeleted(visits: seq<Visit>): nat {
    if visits == [] then 0
    else
      var v := visits[|visits| - 1];
      SizeDeleted(visits[..|visits| - 1]) + (if v.deleted then |v.seen.content| else 0)
  }

  function CountDeleted(visits: seq<Visit>): nat {
    if visits == [] then 0
    else CountDeleted(visits[..|visits| - 1]) + (if visits[|visits| - 1].deleted then 1 else 0)
  }

  ghost function Without(m: Files, names: seq<string>): Files {
    m - (set n | n in names)
  }

  /** What becomes of a candidate: it vanished before its Stat, it was touched since the scan, or it is removed. */
  ghost predicate Tried(
      held: Files, after: Files, name: string, stamp: int, env: (nat, Files) -> Files, tick: nat, v: Option<Visit>)
  {
    var atStat := env(tick, held);
    var atRemove := env(tick + 1, atStat);
    if name !in atStat then v.None? && after == atStat
    else if Second(atStat[name]) != stamp then v == Some(Visit(name, stamp, atStat[name], false)) && after == atStat
    else v == Some(Visit(name, stamp, atStat[name], name in atRemove)) && after == atRemove - {name}
  }

  lemma GoneAtStat(held: Files, after: Files, name: string, stamp: int, env: (nat, Files) -> Files, tick: nat)
    requires Tried(held, after, name, stamp, env, tick, None)
    ensures name !in after && after == env(tick, held)
  {
  }

  lemma SeenAtStat(held: Files, after: Files, name: string, stamp: int, env: (nat, Files) -> Files, tick: nat, v: Visit)
    requires Tried(held, after, name, stamp, env, tick, Some(v))
    ensures v.name == name && v.stamp == stamp && (v.deleted ==> Second(v.seen) == stamp)
  {
  }

  /** The check is made at the Stat alone: a file touched after it is removed all the same. */
  lemma TouchedTooLate(
      held: Files, after: Files, name: string, stamp: int, env: (nat, Files) -> Files, tick: nat, v: Option<Visit>)
    requires Tried(held, after, name, stamp, env, tick, v)
    requires name in env(tick, held) && Second(env(tick, held)[name]) == stamp
    requires name in env(tick + 1, env(tick, held)) && Second(env(tick + 1, env(tick, held))[name]) != stamp
    ensures name !in after && v.Some? && v.value.deleted
  {
  }

  /** Such a file: modified in second 0 when scanned and looked at, in second 9 when removed. */
  lemma TouchedFileIsRemoved() returns (held: Files, env: (nat, Files) -> Files, v: Visit)
    ensures "f" in held && Tried(held, map[], "f", 0, env, 0, Some(v)) && v.deleted
    ensures "f" in env(1, env(0, held)) && Second(env(1, env(0, held))["f"]) == 9
  {
    var file, touched := File([0], 0), File([0], 9 * SECOND);
    held := map["f" := file];
    env := (i: nat, m: Files) => if i == 0 then m else map["f" := touched];
    v := Visit("f", 0, file, true);
    assert env(0, held) == held && env(1, held) == map["f" := touched];
    assert map["f" := touched] - {"f"} == map[];
  }

  /** The visits, one after the other from the state of the scan: each finds what others made of what the one before
      it left, and acts on that. */
  ghost predicate Ran(env: (nat, Files) -> Files, before: Files, visits: seq<Visit>, files: Files)
    decreases |visits|
  {
    if visits == [] then files == before
    else
      var n := |visits| - 1;
      exists held: Files ::
        Ran(env, before, visits[..n], held)
        && Tried(held, files, visits[n].name, visits[n].stamp, env, 2 * n, Some(visits[n]))
  }

  lemma NothingRan(env: (nat, Files) -> Files, before: Files)
    ensures Ran(env, before, [], before)
  {
  }

  lemma RanOn(env: (nat, Files) -> Files, before: Files, visits: seq<Visit>, held: Files, v: Visit, files: Files)
    requires Ran(env, before, visits, held)
    requires Tried(held, files, v.name, v.stamp, env, 2 * |visits|, Some(v))
    ensures Ran(env, before, visits + [v], files)
  {
    hide Tried;
    assert (visits + [v])[..|visits|] == visits && (visits + [v])[|visits|] == v;
  }

  /** Every visit met a state of the run: it saw the file as it was then, and removed it only if its second was still
      the one of the scan. */
  lemma {:induction false} VisitsWereReal(
      env: (nat, Files) -> Files, before: Files, visits: seq<Visit>, files: Files, i: nat)
    returns (held: Files)
    requires Ran(env, before, visits, files) && i < |visits|
    ensures Ran(env, before, visits[..i], held)
    ensures var v := visits[i];
            var atStat := env(2 * i, held);
            && v.name in atStat && v.seen == atStat[v.name]
            && (v.deleted <==> Second(v.seen) == v.stamp && v.name in env(2 * i + 1, atStat))
    decreases |visits|
  {
    hide Second;
    var n := |visits| - 1;
    var last: Files :| Ran(env, before, visits[..n], last)
                       && Tried(last, files, visits[n].name, visits[n].stamp, env, 2 * n, Some(visits[n]));
    if i == n {
      held := last;
    } else {
      held := VisitsWereReal(env, before, visits[..n], last, i);
      assert visits[..n][..i] == visits[..i];
    }
  }

  ghost predicate Deleted(visits: seq<Visit>, name: string) {
    exists i :: 0 <= i < |visits| && visits[i].name == name && visits[i].deleted
  }

  /** Others never remove this file. */
  ghost predicate Leaves(env: (nat, Files) -> Files, name: string) {
    forall i: nat, m: Files :: name in m ==> name in env(i, m)
  }

  /** Files that others leave alone are there until the pruner deletes them, and it deletes those it finds unchanged. */
  ghost predicate OnlyDeleted(before: Files, files: Files, env: (nat, Files) -> Files, visits: seq<Visit>) {
    && (forall n :: n in before && Leaves(env, n) && !Deleted(visits, n) ==> n in files)
    && (forall i :: 0 <= i < |visits| && Leaves(env, visits[i].name) && !visits[i].deleted ==>
          Second(visits[i].seen) != visits[i].stamp)
  }

  lemma VisitDeletesOnly(
      before: Files, held: Files, files: Files, env: (nat, Files) -> Files, tick: nat, visits: seq<Visit>, v: Visit)
    requires OnlyDeleted(before, held, env, visits)
    requires Tried(held, files, v.name, v.stamp, env, tick, Some(v))
    ensures OnlyDeleted(before, files, env, visits + [v])
  {
    hide Second;
    forall n | n in before && Leaves(env, n) && !Deleted(visits + [v], n)
      ensures n in files
    {
      assert (visits + [v])[|visits|] == v;
      assert forall i :: 0 <= i < |visits| ==> (visits + [v])[i] == visits[i];
      assert !Deleted(visits, n);
    }
  }

  lemma {:induction false} RanDeletesOnly(env: (nat, Files) -> Files, before: Files, visits: seq<Visit>, files: Files)
    requires Ran(env, before, visits, files)
    ensures OnlyDeleted(before, files, env, visits)
    decreases |visits|
  {
    hide OnlyDeleted, Tried;
    if visits == [] {
      NothingDeleted(before, env);
    } else {
      var n := |visits| - 1;
      var held: Files :| Ran(env, before, visits[..n], held)
                         && Tried(held, files, visits[n].name, visits[n].stamp, env, 2 * n, Some(visits[n]));
      RanDeletesOnly(env, before, visits[..n], held);
      VisitDeletesOnly(before, held, files, env, 2 * n, visits[..n], visits[n]);
      assert visits[..n] + [visits[n]] == visits;
    }
  }

  lemma NothingDeleted(before: Files, env: (nat, Files) -> Files)
    ensures OnlyDeleted(before, before, env, [])
  {
  }

  lemma NothingVisited(before: Files, stamps: seq<int>)
    ensures Covered(before, [], stamps, 0, [])
  {
  }

  /** How a pruning ends: with the last visit, or with the Stat of a file that is gone. */
  ghost predicate Ended(env: (nat, Files) -> Files, before: Files, visits: seq<Visit>, files: Files, crashed: bool) {
    if crashed then exists held: Files :: Ran(env, before, visits, held) && files == env(2 * |visits|, held)
    else Ran(env, before, visits, files)
  }

  lemma EndedDeletesOnly(env: (nat, Files) -> Files, before: Files, visits: seq<Visit>, files: Files, crashed: bool)
    requires Ended(env, before, visits, files, crashed)
    ensures OnlyDeleted(before, files, env, visits)
  {
    hide Ran, Second;
    if crashed {
      var held: Files :| Ran(env, before, visits, held) && files == env(2 * |visits|, held);
      RanDeletesOnly(env, before, visits, held);
    } else {
      RanDeletesOnly(env, before, visits, files);
    }
  }

  ghost predicate Visited(visits: seq<Visit>, name: string) {
    exists i :: 0 <= i < |visits| && visits[i].name == name
  }

  /** Every file of the first i seconds, and the first j of the next, has been looked at. */
  ghost predicate Covered(before: Files, visits: seq<Visit>, stamps: seq<int>, i: nat, names: seq<string>)
    requires i <= |stamps|
  {
    && (forall n :: n in before && Second(before[n]) in stamps[..i] ==> Visited(visits, n))
    && (forall n :: n in names ==> Visited(visits, n))
    && (forall k :: 0 <= k < |visits| ==>
          visits[k].name in before
          && (Second(before[visits[k].name]) in stamps[..i] || visits[k].name in names))
  }

  lemma CoverOne(before: Files, visits: seq<Visit>, stamps: seq<int>, i: nat, names: seq<string>, j: nat, v: Visit)
    requires i <= |stamps| && j < |names| && Covered(before, visits, stamps, i, names[..j]) && v.name == names[j]
    requires v.name in before
    ensures Covered(before, visits + [v], stamps, i, names[..j + 1])
  {
    hide Second;
    assert (visits + [v])[|visits|] == v;
    forall n | Visited(visits, n)
      ensures Visited(visits + [v], n)
    {
      var k :| 0 <= k < |visits| && visits[k].name == n;
      assert (visits + [v])[k] == visits[k];
    }
    assert names[..j + 1] == names[..j] + [names[j]];
  }

  lemma CoverBucket(before: Files, visits: seq<Visit>, buckets: map<int, seq<string>>, stamps: seq<int>, i: nat)
    requires IsScan(before, buckets) && i < |stamps| && stamps[i] in buckets
    requires Covered(before, visits, stamps, i, buckets[stamps[i]])
    ensures Covered(before, visits, stamps, i + 1, [])
  {
    hide Second, Visited;
    assert stamps[..i + 1] == stamps[..i] + [stamps[i]];
    var t := stamps[i];
    assert forall j :: 0 <= j < |buckets[t]| ==> buckets[t][j] in before && Second(before[buckets[t][j]]) == t;
    assert forall n :: n in buckets[t] ==> exists j :: 0 <= j < |buckets[t]| && buckets[t][j] == n;
  }

  lemma CoverAll(before: Files, visits: seq<Visit>, buckets: map<int, seq<string>>, stamps: seq<int>)
    requires Schedule(before, buckets, stamps) && Covered(before, visits, stamps, |stamps|, [])
    ensures forall n :: n in before ==> Visited(visits, n)
  {
    hide Second, Visited;
    assert stamps[..|stamps|] == stamps;
  }

  /** A file of the scan that was not looked at is gone. */
  ghost predicate Vanished(before: Files, visits: seq<Visit>, files: Files) {
    exists n :: n in before && !Visited(visits, n) && n !in files
  }

  lemma CandidateVanished(
      before: Files, visits: seq<Visit>, buckets: map<int, seq<string>>, stamps: seq<int>, i: nat, j: nat, files: Files)
    requires Schedule(before, buckets, stamps) && i < |stamps| && stamps[i] in buckets && j < |buckets[stamps[i]]|
    requires Covered(before, visits, stamps, i, buckets[stamps[i]][..j])
    requires buckets[stamps[i]][j] !in files
    ensures Vanished(before, visits, files)
  {
    hide Second;
    Scheduled(before, buckets, stamps, stamps[i], j);
    assert stamps[i] !in stamps[..i];
    assert !Visited(visits, buckets[stamps[i]][j]);
  }

  /** The visits go from the oldest second of the scan to the newest, to each file once, and only while the running
      total is above the lower quota. */
  ghost predicate Orderly(before: Files, visits: seq<Visit>, low: nat) {
    && (forall i :: 0 <= i < |visits| ==>
          visits[i].name in before && visits[i].stamp == Second(before[visits[i].name]))
    && (forall i, j :: 0 <= i < j < |visits| ==> visits[i].stamp <= visits[j].stamp && visits[i].name != visits[j].name)
    && (forall i :: 0 <= i < |visits| ==> Usage(before) - SizeDeleted(visits[..i]) > low)
  }

  lemma NothingOutOfOrder(before: Files, low: nat)
    ensures Orderly(before, [], low)
  {
  }

  lemma NextInOrder(
      before: Files, visits: seq<Visit>, buckets: map<int, seq<string>>, stamps: seq<int>, i: nat, j: nat, low: nat,
      v: Visit)
    requires Schedule(before, buckets, stamps) && i < |stamps| && stamps[i] in buckets && j < |buckets[stamps[i]]|
    requires Covered(before, visits, stamps, i, buckets[stamps[i]][..j]) && Orderly(before, visits, low)
    requires v.name == buckets[stamps[i]][j] && v.stamp == stamps[i] && Usage(before) - SizeDeleted(visits) > low
    ensures Orderly(before, visits + [v], low)
  {
    hide Second, Usage, SizeDeleted, Covered, Schedule;
    Scheduled(before, buckets, stamps, stamps[i], j);
    forall k | 0 <= k < |visits|
      ensures visits[k].stamp <= v.stamp && visits[k].name != v.name
    {
      EarlierVisit(before, visits, buckets, stamps, i, j, k);
    }
    var all := visits + [v];
    assert forall k :: 0 <= k < |visits| ==> all[k] == visits[k] && all[..k] == visits[..k];
    assert all[|visits|] == v && all[..|visits|] == visits;
  }

  lemma EarlierVisit(
      before: Files, visits: seq<Visit>, buckets: map<int, seq<string>>, stamps: seq<int>, i: nat, j: nat, k: nat)
    requires Schedule(before, buckets, stamps) && i < |stamps| && stamps[i] in buckets && j < |buckets[stamps[i]]|
    requires Covered(before, visits, stamps, i, buckets[stamps[i]][..j]) && k < |visits|
    requires visits[k].name in before && visits[k].stamp == Second(before[visits[k].name])
    ensures visits[k].stamp <= stamps[i] && visits[k].name != buckets[stamps[i]][j]
  {
    hide Second, Visited;
    var names := buckets[stamps[i]];
    Scheduled(before, buckets, stamps, stamps[i], j);
    if visits[k].name in names[..j] {
      var m :| 0 <= m < j && names[..j][m] == visits[k].name;
      assert names[m] == visits[k].name;
    } else {
      assert stamps[i] !in stamps[..i];
    }
  }

  /** Least recently used first, and not one file more than needed. */
  ghost predicate MinimalLru(before: Files, after: Files, victims: seq<string>, low: nat) {
    && after == Without(before, victims)
    && (forall i :: 0 <= i < |victims| ==> victims[i] in before)
    && (Usage(after) <= low || after == map[])
    && (forall v, k :: v in victims && k in after ==> Second(before[v]) <= Second(before[k]))
    && (forall j :: 0 <= j < |victims| ==> Usage(Without(before, victims[..j])) > low)
  }

  /** What a scan returns: every file once, under the second of its modification time. */
  ghost predicate IsScan(m: Files, buckets: map<int, seq<string>>) {
    && (forall t, i :: t in buckets && 0 <= i < |buckets[t]| ==> buckets[t][i] in m && Second(m[buckets[t][i]]) == t)
    && (forall t, i, j :: t in buckets && 0 <= i < j < |buckets[t]| ==> buckets[t][i] != buckets[t][j])
    && (forall n :: n in m ==> Second(m[n]) in buckets && n in buckets[Second(m[n])])
  }

  lemma ScanStep(m: Files, buckets: map<int, seq<string>>, n: string, f: File)
    requires IsScan(m, buckets) && n !in m
    ensures var t := Second(f);
            var bucket := (if t in buckets then buckets[t] else []) + [n];
            IsScan(m[n := f], buckets[t := bucket])
  {
  }

  /** The timestamps of the buckets, each once. */
  ghost predicate IsIndex(stamps: seq<int>, buckets: map<int, seq<string>>) {
    && (forall i, j :: 0 <= i < j < |stamps| ==> stamps[i] != stamps[j])
    && (forall t :: t in stamps <==> t in buckets)
  }

  lemma IndexStep(stamps: seq<int>, buckets: map<int, seq<string>>, t: int, bucket: seq<string>)
    requires IsIndex(stamps, buckets)
    ensures IsIndex(if t in buckets then stamps else stamps + [t], buckets[t := bucket])
  {
  }

  lemma NothingScanned()
    ensures IsScan(map[], map[]) && IsIndex([], map[]) && Usage(map[]) == 0
  {
  }

  ghost predicate Ascending(s: seq<int>) {
    forall i, j :: 0 <= i < j < |s| ==> s[i] < s[j]
  }

  /** slices.Sort on the distinct timestamps. */
  method SortStamps(stamps: seq<int>) returns (sorted: seq<int>)
    requires forall i, j :: 0 <= i < j < |stamps| ==> stamps[i] != stamps[j]
    ensures Ascending(sorted)
    ensures forall t :: t in sorted <==> t in stamps
  {
    sorted := [];
    for i := 0 to |stamps|
      invariant Ascending(sorted)
      invariant forall t :: t in sorted <==> t in stamps[..i]
    {
      sorted := Insert(sorted, stamps[i]);
    }
  }

  method Insert(sorted: seq<int>, t: int) returns (r: seq<int>)
    requires Ascending(sorted) && t !in sorted
    ensures Ascending(r)
    ensures forall x :: x in r <==> x in sorted || x == t
  {
    var k := 0;
    while k < |sorted| && sorted[k] < t
      invariant 0 <= k <= |sorted|
      invariant forall i :: 0 <= i < k ==> sorted[i] < t
    {
      k := k + 1;
    }
    r := sorted[..k] + [t] + sorted[k..];
    InsertedAscends(sorted, k, t);
    InsertedHolds(sorted, k, t);
  }

  lemma InsertedAscends(s: seq<int>, k: nat, t: int)
    requires Ascending(s) && k <= |s| && t !in s
    requires forall i :: 0 <= i < k ==> s[i] < t
    requires k < |s| ==> s[k] >= t
    ensures Ascending(s[..k] + [t] + s[k..])
  {
    assert forall i :: k <= i < |s| ==> s[i] in s && s[i] > t;
    var r := s[..k] + [t] + s[k..];
    assert forall i :: 0 <= i < |r| ==> r[i] == if i < k then s[i] else if i == k then t else s[i - 1];
  }

  lemma InsertedHolds(s: seq<int>, k: nat, t: int)
    requires k <= |s|
    ensures forall x :: x in s[..k] + [t] + s[k..] <==> x in s || x == t
  {
    assert s == s[..k] + s[k..];
    forall x
      ensures x in s[..k] + [t] + s[k..] <==> x in s || x == t
    {
      assert x in s <==> x in s[..k] || x in s[k..];
    }
  }

  /** No remaining file is older than stamp, and those of that second are still pending. */
  ghost predicate Front(before: Files, now: Files, stamp: int, pending: seq<string>) {
    forall n :: n in now ==>
      n in before && (Second(before[n]) > stamp || (Second(before[n]) == stamp && n in pending))
  }

  /** What holds during an undisturbed pruning. */
  ghost predicate Eviction(before: Files, now: Files, victims: seq<string>, total: int, low: nat) {
    && now == Without(before, victims)
    && total == Usage(now)
    && (forall i :: 0 <= i < |victims| ==> victims[i] in before)
    && (forall j :: 0 <= j < |victims| ==> Usage(Without(before, victims[..j])) > low)
  }

  lemma EvictOne(before: Files, now: Files, victims: seq<string>, total: int, low: nat, n: string)
    requires Eviction(before, now, victims, total, low) && n in now && total > low
    ensures Eviction(before, now - {n}, victims + [n], total - |now[n].content|, low)
  {
    UsageWithout(now, n);
    var all := victims + [n];
    assert Without(before, all) == now - {n};
    forall j | 0 <= j < |all|
      ensures Usage(Without(before, all[..j])) > low
    {
      if j < |victims| {
        assert all[..j] == victims[..j];
      } else {
        assert all[..j] == victims;
      }
    }
  }

  /** The victims are older than stamp, or of that second and already dealt with. */
  ghost predicate NoneYounger(before: Files, victims: seq<string>, stamp: int, done: seq<string>) {
    forall v :: v in victims && v in before ==>
      Second(before[v]) < stamp || (Second(before[v]) == stamp && v in done)
  }

  lemma Minimal(before: Files, now: Files, victims: seq<string>, total: int, low: nat, stamp: int,
                pending: seq<string>, done: seq<string>)
    requires Eviction(before, now, victims, total, low)
    requires Front(before, now, stamp, pending) && NoneYounger(before, victims, stamp, done)
    requires total <= low || now == map[]
    ensures MinimalLru(before, now, victims, low) && total == Usage(now)
  {
  }

  /** Every file of the first i seconds has been dealt with. */
  ghost predicate Past(before: Files, now: Files, stamps: seq<int>, i: nat)
    requires i <= |stamps|
  {
    forall n :: n in now ==> n in before && forall k :: 0 <= k < i ==> Second(before[n]) > stamps[k]
  }

  /** The timestamps of a scan, in order. */
  ghost predicate Schedule(before: Files, buckets: map<int, seq<string>>, stamps: seq<int>) {
    IsScan(before, buckets) && Ascending(stamps) && forall t :: t in stamps <==> t in buckets
  }

  lemma EnterBucket(before: Files, now: Files, buckets: map<int, seq<string>>, stamps: seq<int>, i: nat)
    requires Schedule(before, buckets, stamps) && i < |stamps| && Past(before, now, stamps, i)
    ensures stamps[i] in buckets && Front(before, now, stamps[i], buckets[stamps[i]])
  {
    assert stamps[i] in stamps;
    forall n | n in now
      ensures Second(before[n]) >= stamps[i]
    {
      var k :| 0 <= k < |stamps| && stamps[k] == Second(before[n]);
    }
  }

  lemma LeaveBucket(before: Files, now: Files, stamps: seq<int>, i: nat)
    requires i < |stamps| && Ascending(stamps) && Front(before, now, stamps[i], [])
    ensures Past(before, now, stamps, i + 1)
  {
  }

  lemma NothingLeft(before: Files, now: Files, buckets: map<int, seq<string>>, stamps: seq<int>)
    requires Schedule(before, buckets, stamps) && Past(before, now, stamps, |stamps|)
    ensures now == map[]
  {
    assert forall n :: n in now ==> Second(before[n]) in stamps;
    assert now.Keys == {};
  }

  lemma NextPending(before: Files, now: Files, stamp: int, pending: seq<string>)
    requires pending != [] && Front(before, now, stamp, pending)
    ensures Front(before, now - {pending[0]}, stamp, pending[1..])
  {
    assert pending == [pending[0]] + pending[1..];
  }

  /** The running totals agree with the visits made so far. */
  ghost predicate Booked(before: Files, visits: seq<Visit>, left: int, count: nat) {
    && left == Usage(before) - SizeDeleted(visits)
    && count == CountDeleted(visits)
    && (forall v :: v in visits && v.deleted ==>
          v.name in before && Second(before[v.name]) == v.stamp == Second(v.seen))
  }

  lemma NothingBooked(before: Files)
    ensures Booked(before, [], Usage(before), 0)
  {
  }

  lemma Book(before: Files, visits: seq<Visit>, left: int, count: nat, v: Visit)
    requires Booked(before, visits, left, count)
    requires v.deleted ==> v.name in before && Second(before[v.name]) == v.stamp == Second(v.seen)
    ensures Booked(before, visits + [v], if v.deleted then left - |v.seen.content| else left,
                   if v.deleted then count + 1 else count)
  {
    assert (visits + [v])[..|visits|] == visits;
  }

  lemma NothingEvicted(before: Files, low: nat, stamps: seq<int>)
    ensures Eviction(before, before, [], Usage(before), low)
    ensures Past(before, before, stamps, 0)
    ensures forall t :: NoneYounger(before, [], t, [])
  {
    assert Without(before, []) == before;
  }

  lemma Scheduled(before: Files, buckets: map<int, seq<string>>, stamps: seq<int>, stamp: int, j: nat)
    requires Schedule(before, buckets, stamps) && stamp in buckets && j < |buckets[stamp]|
    ensures buckets[stamp][j] in before && Second(before[buckets[stamp][j]]) == stamp
    ensures buckets[stamp][j] !in buckets[stamp][..j]
  {
  }

  /** An undisturbed candidate is there, unchanged, and goes. */
  lemma QuietVisit(before: Files, held: Files, victims: seq<string>, left: int, low: nat, stamp: int,
                   names: seq<string>, j: nat)
    requires Eviction(before, held, victims, left, low) && left > low
    requires j < |names| && names[j] in before && Second(before[names[j]]) == stamp
    requires Front(before, held, stamp, names[j..]) && NoneYounger(before, victims, stamp, names[..j])
    requires names[j] !in names[..j]
    ensures names[j] in held && held[names[j]] == before[names[j]]
    ensures Eviction(before, held - {names[j]}, victims + [names[j]], left - |held[names[j]].content|, low)
    ensures Front(before, held - {names[j]}, stamp, names[j + 1..])
    ensures NoneYounger(before, victims + [names[j]], stamp, names[..j + 1])
  {
    EvictOne(before, held, victims, left, low, names[j]);
    NextPending(before, held, stamp, names[j..]);
    assert names[j..][1..] == names[j + 1..];
  }

  lemma Older(before: Files, victims: seq<string>, stamps: seq<int>, i: nat, done: seq<string>)
    requires i < |stamps| && Ascending(stamps) && NoneYounger(before, victims, stamps[i], done)
    ensures i + 1 < |stamps| ==> NoneYounger(before, victims, stamps[i + 1], [])
  {
  }

  lemma MinimalAtEnd(before: Files, now: Files, victims: seq<string>, total: int, low: nat)
    requires Eviction(before, now, victims, total, low) && now == map[]
    ensures MinimalLru(before, now, victims, low) && total == Usage(now)
  {
  }

  class FileCache {
    const quotaLow: nat
    const quotaHigh: nat
    var files: Files
    var temps: set<nat>
    var nextTemp: nat

    ghost predicate Valid()
      reads this
    {
      forall t :: t in temps ==> t < nextTemp
    }

    constructor (quotaLow: nat, quotaHigh: nat)
      ensures Valid() && files == map[] && temps == {}
      ensures this.quotaLow == quotaLow && this.quotaHigh == quotaHigh
    {
      this.quotaLow, this.quotaHigh := quotaLow, quotaHigh;
      files, temps, nextTemp := map[], {}, 0;
    }

    /** Opening a file makes it the most recently used. */
    method Open(hash: string, now: int) returns (body: Option<Bytes>)
      modifies this`files
      ensures body == if hash in old(files) then Some(old(files)[hash].content) else None
      ensures files ==
              if hash in old(files) then old(files)[hash := File(old(files)[hash].content, now)] else old(files)
    {
      if hash !in files {
        return None;
      }
      body := Some(files[hash].content);
      files := files[hash := files[hash].(mtime := now)];
    }

    /** Without a temporary file there is no reader to close, and the body is passed on as it is. */
    method SetupIngestion(source: Bytes, tempOk: bool) returns (reader: TeeReader?)
      requires Valid()
      modifies this`temps, this`nextTemp
      ensures Valid()
      ensures if tempOk then
                && reader != null && fresh(reader) && reader.Valid() && reader.Abs() == Ingestion.Open(source)
                && !reader.wasCalled && reader.temp !in old(temps) && temps == old(temps) + {reader.temp}
              else reader == null && temps == old(temps)
    {
      if !tempOk {
        return null;
      }
      reader := new TeeReader(source, nextTemp);
      temps := temps + {nextTemp};
      nextTemp := nextTemp + 1;
    }

    /** The close callback. The first call settles everything; later ones change nothing. */
    method Close(reader: TeeReader, hash: Bytes -> string, probe: Step, faults: Faults, mtime: int)
      returns (r: Closing)
      requires Valid() && reader.Valid() && Possible(reader.Abs(), probe)
      requires !reader.wasCalled ==> reader.temp in temps
      modifies this`files, this`temps
      modifies reader`wasCalled, reader`reported, reader`cleanups
      ensures Valid() && reader.Valid() && reader.wasCalled && reader.cleanups == 1 && |reader.reported| <= 1
      ensures old(reader.wasCalled) ==>
                && r.AlreadyClosed? && files == old(files) && temps == old(temps)
                && reader.reported == old(reader.reported)
      ensures !old(reader.wasCalled) ==>
                && (r.Published? <==> Accepted(old(reader.Abs()), quotaHigh, probe) && faults.renameOk)
                && (r.Published? ==>
                      && r.name == hash(reader.source)
                      && files == old(files)[r.name := File(reader.source, mtime)]
                      && temps == old(temps) - {reader.temp}
                      && reader.reported == if faults.closeOk then [r.name] else [])
                && (!r.Published? ==>
                      && r.Discarded? && files == old(files) && reader.reported == []
                      && temps == if faults.removeOk then old(temps) - {reader.temp} else old(temps))
    {
      if reader.wasCalled {
        return AlreadyClosed;
      }
      reader.wasCalled, reader.cleanups := true, 1;
      r := Discarded;
      if reader.totalRead <= quotaHigh / 2 && !reader.lastReadErr && !reader.lastWriteErr {
        if probe.end.Eof? && probe.n == 0 && faults.renameOk {
          assert reader.source[..|reader.source|] == reader.source;
          var name := hash(reader.dest);
          files := files[name := File(reader.dest, mtime)];
          temps := temps - {reader.temp};
          if faults.closeOk {
            reader.reported := [name];
          }
          return Published(name);
        }
      }
      if faults.removeOk {
        temps := temps - {reader.temp};
      }
    }

    /** getFilesAndTimestamps, with the timestamps in the order they were met. */
    method Scan() returns (total: int, buckets: map<int, seq<string>>, stamps: seq<int>)
      ensures total == Usage(files)
      ensures IsScan(files, buckets)
      ensures IsIndex(stamps, buckets)
    {
      hide Usage, IsScan, Second, IsIndex;
      total, buckets, stamps := 0, map[], [];
      NothingScanned();
      var rest := files.Keys;
      ghost var done: Files := map[];
      while rest != {}
        invariant rest <= files.Keys
        invariant done == files - rest
        invariant total == Usage(done)
        invariant IsScan(done, buckets) && IsIndex(stamps, buckets)
        decreases rest
      {
        var n :| n in rest;
        var t := Second(files[n]);
        UsageWith(done, n, files[n]);
        ScanStep(done, buckets, n, files[n]);
        var bucket := (if t in buckets then buckets[t] else []) + [n];
        IndexStep(stamps, buckets, t, bucket);
        if t !in buckets {
          stamps := stamps + [t];
        }
        buckets := buckets[t := bucket];
        total := total + |files[n].content|;
        done := done[n := files[n]];
        rest := rest - {n};
        assert done == files - rest;
      }
      assert done == files;
    }

    /** One candidate: Stat, compare the second, Remove. The environment may act before each of the two calls. */
    method Consider(name: string, stamp: int, env: (nat, Files) -> Files, tick: nat) returns (v: Option<Visit>)
      modifies this`files
      ensures Tried(old(files), files, name, stamp, env, tick, v)
    {
      files := env(tick, files);
      if name !in files {
        return None;
      }
      var info := files[name];
      if Second(info) != stamp {
        return Some(Visit(name, stamp, info, false));
      }
      files := env(tick + 1, files);
      var there := name in files;
      files := files - {name};
      return Some(Visit(name, stamp, info, there));
    }

    /** Prune. A file that vanished before its Stat makes the program dereference a nil file info. */
    method Prune(env: (nat, Files) -> Files, ghost quiet: bool)
      returns (r: Outcome, left: int, ghost visits: seq<Visit>, ghost victims: seq<string>)
      requires quiet ==> forall i, m :: env(i, m) == m
      modifies this`files
      ensures r.NotRequired? <==> Usage(old(files)) < quotaHigh
      ensures r.NotRequired? ==> files == old(files) && visits == []
      ensures forall v :: v in visits && v.deleted ==>
                v.name in old(files) && Second(old(files)[v.name]) == v.stamp == Second(v.seen)
      ensures Ended(env, old(files), visits, files, r.Crashed?)
      ensures OnlyDeleted(old(files), files, env, visits) && Orderly(old(files), visits, quotaLow)
      ensures r.Pruned? && left > quotaLow ==> forall n :: n in old(files) ==> Visited(visits, n)
      ensures r.Crashed? <==> left > quotaLow && Vanished(old(files), visits, files)
      ensures left == Usage(old(files)) - SizeDeleted(visits)
      ensures r.Pruned? ==> r.count == CountDeleted(visits)
      ensures quiet ==> !r.Crashed? && left == Usage(files)
      ensures quiet && r.Pruned? ==> MinimalLru(old(files), files, victims, quotaLow) && r.count == |victims|
    {
      hide Usage, SizeDeleted, CountDeleted, IsScan, Eviction, Front, NoneYounger, MinimalLru, Past, Ascending, Second,
           OnlyDeleted, Covered, Visited, Ran, Tried, Orderly;
      ghost var before := files;
      visits, victims := [], [];
      var buckets, found;
      left, buckets, found := Scan();
      NothingBooked(before);
      NothingRan(env, before);
      NothingOutOfOrder(before, quotaLow);
      if left < quotaHigh {
        EndedDeletesOnly(env, before, visits, files, false);
        return NotRequired, left, visits, victims;
      }
      var stamps := SortStamps(found);
      var count, tick := 0, 0;
      NothingEvicted(before, quotaLow, stamps);
      NothingVisited(before, stamps);
      for i := 0 to |stamps|
        invariant Ran(env, before, visits, files) && Orderly(before, visits, quotaLow) && tick == 2 * |visits|
        invariant Covered(before, visits, stamps, i, [])
        invariant Booked(before, visits, left, count)
        invariant quiet ==> Eviction(before, files, victims, left, quotaLow) && count == |victims|
        invariant quiet ==> Past(before, files, stamps, i)
        invariant quiet && i < |stamps| ==> NoneYounger(before, victims, stamps[i], [])
      {
        var stamp := stamps[i];
        assert stamp in stamps;
        var names := buckets[stamp];
        if quiet {
          EnterBucket(before, files, buckets, stamps, i);
        }
        assert names[0..] == names && names[..0] == [];
        for j := 0 to |names|
          invariant Ran(env, before, visits, files) && Orderly(before, visits, quotaLow) && tick == 2 * |visits|
          invariant Covered(before, visits, stamps, i, names[..j])
          invariant Booked(before, visits, left, count)
          invariant quiet ==> Eviction(before, files, victims, left, quotaLow) && count == |victims|
          invariant quiet ==> Front(before, files, stamp, names[j..])
          invariant quiet ==> NoneYounger(before, victims, stamp, names[..j])
        {
          if left <= quotaLow {
            if quiet {
              Minimal(before, files, victims, left, quotaLow, stamp, names[j..], names[..j]);
            }
            EndedDeletesOnly(env, before, visits, files, false);
            return Pruned(count), left, visits, victims;
          }
          Scheduled(before, buckets, stamps, stamp, j);
          ghost var held := files;
          var v := Consider(names[j], stamp, env, tick);
          if v.None? {
            GoneAtStat(held, files, names[j], stamp, env, tick);
            CandidateVanished(before, visits, buckets, stamps, i, j, files);
            EndedDeletesOnly(env, before, visits, files, true);
          } else {
            SeenAtStat(held, files, names[j], stamp, env, tick, v.value);
            RanOn(env, before, visits, held, v.value, files);
            NextInOrder(before, visits, buckets, stamps, i, j, quotaLow, v.value);
            CoverOne(before, visits, stamps, i, names, j, v.value);
          }
          tick := tick + 2;
          if quiet {
            QuietVisit(before, held, victims, left, quotaLow, stamp, names, j);
          }
          if v.None? {
            return Crashed, left, visits, victims;
          }
          Book(before, visits, left, count, v.value);
          visits := visits + [v.value];
          if v.value.deleted {
            left := left - |v.value.seen.content|;
            count := count + 1;
            victims := victims + [names[j]];
          }
        }
        assert names[..|names|] == names;
        CoverBucket(before, visits, buckets, stamps, i);
        if quiet {
          assert names[|names|..] == [];
          LeaveBucket(before, files, stamps, i);
          Older(before, victims, stamps, i, names[..|names|]);
        }
      }
      if quiet {
        NothingLeft(before, files, buckets, stamps);
        MinimalAtEnd(before, files, victims, left, quotaLow);
      }
      CoverAll(before, visits, buckets, stamps);
      EndedDeletesOnly(env, before, visits, files, false);
      r := Pruned(count);
    }
  }

  /** The crash, at an input: the only file is gone before the pruner looks at it. */
  method VanishedFileCrashes() returns (r: Outcome)
    ensures r.Crashed?
  {
    hide Usage, Second, MinimalLru;
    var fc := new FileCache(0, 1);
    var file := File([0], 0);
    fc.files := map["f" := file];
    UsageWith(map[], "f", file);
    NothingScanned();
    var left;
    ghost var visits, victims;
    r, left, visits, victims := fc.Prune((i: nat, m: Files) => map[], false);
    assert |visits| == 0;
  }
}
