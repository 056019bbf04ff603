/** The cleaner that makes the database agree with the files again, and the removal of a key. */
module Cleanup {
  import opened Client
  import opened Database
  import FileCache

  datatype Shared = Shared(store: Store<CachedResponses>, files: FileCache.Files)

  type Value = Item<CachedResponses>

  /* ---- What others do meanwhile ---- */

  /** What others make of the shared state before the n-th call of the cleaner. */
  type Env = (nat, Shared) -> Shared

  function Drift(env: Env, tick: nat, s: Shared, n: nat): Shared {
    if n == 0 then s else env(tick + n - 1, Drift(env, tick, s, n - 1))
  }

  /** Versions only grow: whatever is stored was stored before, or has a new version. */
  ghost predicate Later(s: Store<CachedResponses>, s': Store<CachedResponses>) {
    && Sound(s') && s.last <= s'.last
    && forall k :: k in s'.items ==> (k in s.items && s'.items[k] == s.items[k]) || s'.items[k].version > s.last
  }

  ghost predicate Honest(env: Env) {
    forall i: nat, s: Shared :: Sound(s.store) ==> Later(s.store, env(i, s).store)
  }

  lemma LaterTrans(a: Store<CachedResponses>, b: Store<CachedResponses>, c: Store<CachedResponses>)
    requires Later(a, b) && Later(b, c)
    ensures Later(a, c)
  {
  }

  lemma {:induction false} DriftIsLater(env: Env, tick: nat, s: Shared, n: nat)
    requires Honest(env) && Sound(s.store)
    ensures Later(s.store, Drift(env, tick, s, n).store)
  {
    hide Later;
    if n == 0 {
      LaterRefl(s.store);
    } else {
      DriftIsLater(env, tick, s, n - 1);
      var before := Drift(env, tick, s, n - 1);
      LaterSound(s.store, before.store);
      LaterTrans(s.store, before.store, Drift(env, tick, s, n).store);
    }
  }

  lemma LaterRefl(s: Store<CachedResponses>)
    requires Sound(s)
    ensures Later(s, s)
  {
  }

  lemma LaterSound(s: Store<CachedResponses>, s': Store<CachedResponses>)
    requires Later(s, s')
    ensures Sound(s')
  {
  }

  /** The item is what the store holds under its version, if it still holds that version at all. */
  ghost predicate Faithful(s: Store<CachedResponses>, key: Key, item: Value) {
    item.version <= s.last && (key in s.items && s.items[key].version == item.version ==> s.items[key] == item)
  }

  lemma FaithfulLater(s: Store<CachedResponses>, s': Store<CachedResponses>, key: Key, item: Value)
    requires Faithful(s, key, item) && Later(s, s')
    ensures Faithful(s', key, item)
  {
  }

  /* ---- One entry ---- */

  /** The responses whose file Stat finds: the others may act before every call. */
  function Seen(env: Env, tick: nat, s: Shared, value: CachedResponses): set<nat> {
    set i: nat | i < |value| && value[i].contentHash in Drift(env, tick, s, i + 1).files
  }

  /** The transaction that follows. */
  function Written(s: Store<CachedResponses>, key: Key, item: Value, left: CachedResponses): Store<CachedResponses> {
    if |left| == |item.value| then s
    else if left == [] then Deleted(s, key, item.version)
    else Saved(s, key, item.version, left)
  }

  /** The first Stat that fails for another reason than a missing file, if any. */
  function FirstFault(faults: nat -> bool, tick: nat, n: nat): (i: nat)
    ensures i <= n && (i < n ==> faults(tick + i)) && forall j :: tick <= j < tick + i ==> !faults(j)
  {
    if n == 0 then 0
    else
      var i := FirstFault(faults, tick, n - 1);
      if i < n - 1 || faults(tick + n - 1) then i else n
  }

  datatype Step = Step(after: Shared, ok: bool)

  /** pruneDatabaseEntry: a fault or a conflict stops the cleaner. */
  function Pruned(env: Env, faults: nat -> bool, tick: nat, s: Shared, key: Key, item: Value): Step {
    var n := |item.value|;
    var fault := FirstFault(faults, tick, n);
    if fault < n then Step(Drift(env, tick, s, fault + 1), false)
    else
      var d := Drift(env, tick, s, n + 1);
      var left := Kept(item.value, Seen(env, tick, s, item.value));
      Step(d.(store := Written(d.store, key, item, left)), |left| == n || Accepts(d.store, key, item.version))
  }

  /* ---- All entries ---- */

  predicate AllKnown(value: CachedResponses, known: set<string>) {
    forall i :: 0 <= i < |value| ==> value[i].contentHash in known
  }

  /** removeUnusedDatabaseEntries over the entries the iteration delivers. */
  function Swept(
      env: Env, faults: nat -> bool, tick: nat, s: Shared, snapshot: seq<(Key, Value)>, known: set<string>): Step
    decreases |snapshot|
  {
    if snapshot == [] then Step(s, true)
    else
      var (key, item) := snapshot[0];
      if AllKnown(item.value, known) then Swept(env, faults, tick, s, snapshot[1..], known)
      else
        var step := Pruned(env, faults, tick, s, key, item);
        if !step.ok then step
        else Swept(env, faults, tick + |item.value| + 1, step.after, snapshot[1..], known)
  }

  /* ---- Safety, whatever others do and whatever the list of known hashes says ---- */

  /** A stored response whose file is there. */
  ghost predicate Alive(s: Shared, key: Key, r: CachedResponse) {
    r.contentHash in s.files && key in s.store.items && r in s.store.items[key].value
  }

  ghost predicate Spares(env: Env, key: Key, r: CachedResponse) {
    forall i: nat, s: Shared :: Alive(s, key, r) ==> Alive(env(i, s), key, r)
  }

  lemma {:induction false} DriftSpares(env: Env, tick: nat, s: Shared, n: nat, key: Key, r: CachedResponse)
    requires Spares(env, key, r) && Alive(s, key, r)
    ensures Alive(Drift(env, tick, s, n), key, r)
  {
    hide Alive;
    if n != 0 {
      DriftSpares(env, tick, s, n - 1, key, r);
    }
  }

  lemma WrittenIsLater(s: Store<CachedResponses>, key: Key, item: Value, left: CachedResponses)
    requires Sound(s)
    ensures Later(s, Written(s, key, item, left))
  {
    SoundKept(s, key, item.version, left);
  }

  lemma PrunedIsLater(env: Env, faults: nat -> bool, tick: nat, s: Shared, key: Key, item: Value)
    requires Honest(env) && Sound(s.store)
    ensures Later(s.store, Pruned(env, faults, tick, s, key, item).after.store)
  {
    hide Later, Honest, Written, Kept, Drift;
    var n := |item.value|;
    var d := Drift(env, tick, s, n + 1);
    DriftIsLater(env, tick, s, n + 1);
    DriftIsLater(env, tick, s, FirstFault(faults, tick, n) + 1);
    LaterSound(s.store, d.store);
    var left := Kept(item.value, Seen(env, tick, s, item.value));
    WrittenIsLater(d.store, key, item, left);
    LaterTrans(s.store, d.store, Written(d.store, key, item, left));
  }

  /** A response of the read entry that is still stored and never loses its file is written back. */
  lemma PrunedSpares(
      env: Env, faults: nat -> bool, tick: nat, s: Shared, key: Key, item: Value, k: Key, r: CachedResponse)
    requires Honest(env) && Sound(s.store) && Faithful(s.store, key, item)
    requires Spares(env, k, r) && Alive(s, k, r)
    ensures Alive(Pruned(env, faults, tick, s, key, item).after, k, r)
  {
    hide Later, Honest, Spares, Kept, Drift;
    var n := |item.value|;
    var d := Drift(env, tick, s, n + 1);
    DriftIsLater(env, tick, s, n + 1);
    FaithfulLater(s.store, d.store, key, item);
    DriftSpares(env, tick, s, n + 1, k, r);
    DriftSpares(env, tick, s, FirstFault(faults, tick, n) + 1, k, r);
    var keep := Seen(env, tick, s, item.value);
    var left := Kept(item.value, keep);
    if key == k && d.store.items[k].version == item.version {
      var i :| 0 <= i < n && item.value[i] == r;
      DriftSpares(env, tick, s, i + 1, k, r);
      KeptInOrder(item.value, keep, i);
      assert r in left;
    }
  }

  /** No response whose file exists is dropped, for any snapshot of the past and any set of known hashes. */
  lemma {:induction false} SweepSpares(
      env: Env, faults: nat -> bool, tick: nat, s: Shared, snapshot: seq<(Key, Value)>, known: set<string>,
      k: Key, r: CachedResponse)
    requires Honest(env) && Sound(s.store) && Spares(env, k, r) && Alive(s, k, r)
    requires forall i :: 0 <= i < |snapshot| ==> Faithful(s.store, snapshot[i].0, snapshot[i].1)
    ensures Alive(Swept(env, faults, tick, s, snapshot, known).after, k, r)
    ensures Later(s.store, Swept(env, faults, tick, s, snapshot, known).after.store)
    decreases |snapshot|
  {
    hide Alive, Later, Honest, Spares, Faithful, Pruned, AllKnown;
    LaterRefl(s.store);
    if snapshot != [] {
      var (key, item) := snapshot[0];
      var rest := snapshot[1..];
      assert forall i :: 0 <= i < |rest| ==> rest[i] == snapshot[i + 1];
      if AllKnown(item.value, known) {
        SweepSpares(env, faults, tick, s, rest, known, k, r);
      } else {
        var step := Pruned(env, faults, tick, s, key, item);
        PrunedSpares(env, faults, tick, s, key, item, k, r);
        PrunedIsLater(env, faults, tick, s, key, item);
        LaterSound(s.store, step.after.store);
        if step.ok {
          forall i | 0 <= i < |rest|
            ensures Faithful(step.after.store, rest[i].0, rest[i].1)
          {
            FaithfulLater(s.store, step.after.store, rest[i].0, rest[i].1);
          }
          var tick' := tick + |item.value| + 1;
          SweepSpares(env, faults, tick', step.after, rest, known, k, r);
          LaterTrans(s.store, step.after.store, Swept(env, faults, tick', step.after, rest, known).after.store);
        }
      }
    }
  }

  /* ---- Completeness without interference ---- */

  ghost predicate Quiet(env: Env) {
    forall i: nat, s: Shared :: env(i, s) == s
  }

  lemma {:induction false} QuietDrift(env: Env, tick: nat, s: Shared, n: nat)
    requires Quiet(env)
    ensures Drift(env, tick, s, n) == s
  {
    if n != 0 {
      QuietDrift(env, tick, s, n - 1);
    }
  }

  /** The responses whose file is there. */
  function Present(value: CachedResponses, files: FileCache.Files): set<nat> {
    set i: nat | i < |value| && value[i].contentHash in files
  }

  /** What the cleaner leaves of an entry: untouched, gone, or without the responses that lost their file. */
  ghost predicate Tidied(after: Store<CachedResponses>, key: Key, item: Value, files: FileCache.Files) {
    var left := Kept(item.value, Present(item.value, files));
    if |left| == |item.value| then key in after.items && after.items[key] == item
    else if left == [] then key !in after.items
    else key in after.items && after.items[key].value == left
  }

  ghost predicate Listed(s: Store<CachedResponses>, snapshot: seq<(Key, Value)>) {
    && (forall i :: 0 <= i < |snapshot| ==> snapshot[i].0 in s.items && s.items[snapshot[i].0] == snapshot[i].1)
    && (forall i, j :: 0 <= i < j < |snapshot| ==> snapshot[i].0 != snapshot[j].0)
  }

  ghost predicate Untouched(s: Store<CachedResponses>, s': Store<CachedResponses>, key: Key) {
    (key in s.items <==> key in s'.items) && (key in s.items ==> s'.items[key] == s.items[key])
  }

  lemma TidiedStays(a: Store<CachedResponses>, b: Store<CachedResponses>, key: Key, item: Value, files: FileCache.Files)
    requires Tidied(a, key, item, files) && Untouched(a, b, key)
    ensures Tidied(b, key, item, files)
  {
    hide Kept;
  }

  ghost function KeysOf(snapshot: seq<(Key, Value)>): set<Key> {
    set i | 0 <= i < |snapshot| :: snapshot[i].0
  }

  lemma PrunedQuietly(env: Env, faults: nat -> bool, tick: nat, s: Shared, key: Key, item: Value)
    requires Quiet(env) && (forall i :: !faults(i)) && key in s.store.items && s.store.items[key] == item
    ensures var step := Pruned(env, faults, tick, s, key, item);
            && step.ok && step.after.files == s.files
            && Tidied(step.after.store, key, item, s.files)
            && (forall k :: k != key ==> Untouched(s.store, step.after.store, k))
  {
    hide Kept, Drift;
    forall n: nat
      ensures Drift(env, tick, s, n) == s
    {
      QuietDrift(env, tick, s, n);
    }
    assert Seen(env, tick, s, item.value) == Present(item.value, s.files);
  }

  lemma KnownIsTidy(s: Shared, key: Key, item: Value, known: set<string>)
    requires key in s.store.items && s.store.items[key] == item && AllKnown(item.value, known) && known <= s.files.Keys
    ensures Tidied(s.store, key, item, s.files)
  {
    KeptCount(item.value, Present(item.value, s.files));
  }

  lemma {:induction false} SweepTidies(
      env: Env, faults: nat -> bool, tick: nat, s: Shared, snapshot: seq<(Key, Value)>, known: set<string>)
    requires Quiet(env) && (forall i :: !faults(i)) && Listed(s.store, snapshot) && known <= s.files.Keys
    ensures var step := Swept(env, faults, tick, s, snapshot, known);
            && step.ok && step.after.files == s.files
            && (forall i :: 0 <= i < |snapshot| ==> Tidied(step.after.store, snapshot[i].0, snapshot[i].1, s.files))
            && (forall k :: k !in KeysOf(snapshot) ==> Untouched(s.store, step.after.store, k))
    decreases |snapshot|
  {
    hide Tidied, Pruned, AllKnown, Untouched, Quiet;
    if snapshot == [] {
      forall k
        ensures Untouched(s.store, s.store, k)
      {
        SameStore(s.store, k);
      }
    } else {
      var (key, item) := snapshot[0];
      var rest := snapshot[1..];
      assert forall i :: 0 <= i < |rest| ==> rest[i] == snapshot[i + 1];
      assert key !in KeysOf(rest) && KeysOf(snapshot) == {key} + KeysOf(rest);
      if AllKnown(item.value, known) {
        KnownIsTidy(s, key, item, known);
        SweepTidies(env, faults, tick, s, rest, known);
        var after := Swept(env, faults, tick, s, rest, known).after;
        TidiedStays(s.store, after.store, key, item, s.files);
      } else {
        PrunedQuietly(env, faults, tick, s, key, item);
        var mid := Pruned(env, faults, tick, s, key, item).after;
        StillListed(s.store, mid.store, rest, key);
        var tick' := tick + |item.value| + 1;
        SweepTidies(env, faults, tick', mid, rest, known);
        var after := Swept(env, faults, tick', mid, rest, known).after;
        TidiedStays(mid.store, after.store, key, item, s.files);
        forall k | k !in KeysOf(snapshot)
          ensures Untouched(s.store, after.store, k)
        {
          UntouchedTrans(s.store, mid.store, after.store, k);
        }
      }
    }
  }

  lemma SameStore(s: Store<CachedResponses>, key: Key)
    ensures Untouched(s, s, key)
  {
  }

  lemma UntouchedTrans(a: Store<CachedResponses>, b: Store<CachedResponses>, c: Store<CachedResponses>, key: Key)
    requires Untouched(a, b, key) && Untouched(b, c, key)
    ensures Untouched(a, c, key)
  {
  }

  lemma StillListed(s: Store<CachedResponses>, s': Store<CachedResponses>, rest: seq<(Key, Value)>, key: Key)
    requires Listed(s, rest) && key !in KeysOf(rest) && forall k :: k != key ==> Untouched(s, s', k)
    ensures Listed(s', rest)
  {
    forall i | 0 <= i < |rest|
      ensures rest[i].0 in s'.items && s'.items[rest[i].0] == rest[i].1
    {
      assert rest[i].0 in KeysOf(rest);
      assert Untouched(s, s', rest[i].0);
    }
  }

  /** With a list of files that exist and nobody else at work, afterwards every stored response has its file, an
      entry is deleted exactly when it lost all its responses, and the others keep theirs in order. */
  lemma SweepCompletes(env: Env, faults: nat -> bool, s: Shared, snapshot: seq<(Key, Value)>, known: set<string>)
    requires known <= s.files.Keys
    requires Quiet(env) && (forall i :: !faults(i))
    requires Listed(s.store, snapshot) && KeysOf(snapshot) == s.store.items.Keys
    ensures var step := Swept(env, faults, 0, s, snapshot, known);
            step.ok && step.after.files == s.files && Agrees(s.store, step.after)
  {
    hide Swept, Tidied, Untouched, Kept, Lost, Quiet, KeysOf;
    SweepTidies(env, faults, 0, s, snapshot, known);
    var after := Swept(env, faults, 0, s, snapshot, known).after.store;
    forall k | k in s.store.items
      ensures k in after.items ==> Clean(after.items[k].value, s.store.items[k].value, s.files)
      ensures k !in after.items <==> s.store.items[k].value != [] && Lost(s.store.items[k].value, s.files)
    {
      ListedKey(s.store, snapshot, k);
      TidiedMeans(after, k, s.store.items[k], s.files);
    }
    forall k | k in after.items
      ensures k in s.store.items
    {
      if k !in s.store.items {
        assert Untouched(s.store, after, k);
        NotNew(s.store, after, k);
      }
    }
  }

  /** The responses of a list that have their file, and no others, in order. */
  ghost predicate Clean(left: CachedResponses, value: CachedResponses, files: FileCache.Files) {
    left == Kept(value, Present(value, files)) && forall r :: r in left ==> r.contentHash in files
  }

  lemma NotNew(s: Store<CachedResponses>, s': Store<CachedResponses>, key: Key)
    requires Untouched(s, s', key) && key !in s.items
    ensures key !in s'.items
  {
  }

  lemma ListedKey(s: Store<CachedResponses>, snapshot: seq<(Key, Value)>, key: Key)
    requires Listed(s, snapshot) && key in KeysOf(snapshot)
    ensures exists i :: 0 <= i < |snapshot| && snapshot[i] == (key, s.items[key])
  {
    var i :| 0 <= i < |snapshot| && snapshot[i].0 == key;
    assert snapshot[i] == (key, s.items[key]);
  }

  lemma TidiedMeans(after: Store<CachedResponses>, key: Key, item: Value, files: FileCache.Files)
    requires Tidied(after, key, item, files)
    ensures key in after.items ==> Clean(after.items[key].value, item.value, files)
    ensures key !in after.items <==> item.value != [] && Lost(item.value, files)
  {
    hide Kept, Present;
    var left := Kept(item.value, Present(item.value, files));
    KeptCount(item.value, Present(item.value, files));
    PresentOnly(item.value, files);
    assert left != [] ==> left[0] in left;
    if !Lost(item.value, files) {
      PresentSome(item.value, files);
    }
  }

  lemma PresentOnly(value: CachedResponses, files: FileCache.Files)
    ensures forall r :: r in Kept(value, Present(value, files)) ==> r.contentHash in files && r in value
  {
    hide Kept;
    var keep := Present(value, files);
    var at := KeptPositions(value, keep);
    forall r | r in Kept(value, keep)
      ensures r.contentHash in files && r in value
    {
      var j :| 0 <= j < |Kept(value, keep)| && Kept(value, keep)[j] == r;
    }
  }

  lemma PresentSome(value: CachedResponses, files: FileCache.Files)
    requires !Lost(value, files)
    ensures Kept(value, Present(value, files)) != []
  {
    hide Kept;
    var r :| r in value && r.contentHash in files;
    var i :| 0 <= i < |value| && value[i] == r;
    KeptInOrder(value, Present(value, files), i);
  }

  /** No response has its file any more. */
  ghost predicate Lost(value: CachedResponses, files: FileCache.Files) {
    forall r :: r in value ==> r.contentHash !in files
  }

  /* ---- When a write takes effect ---- */

  /** The cleaner changes the store only where it still holds what was read, or, the flaw of Save, where the key is
      gone: then an entry with some files left comes back. */
  lemma PrunedCommitsWhen(env: Env, faults: nat -> bool, tick: nat, s: Shared, key: Key, item: Value)
    requires Honest(env) && Sound(s.store) && Faithful(s.store, key, item)
    requires FirstFault(faults, tick, |item.value|) == |item.value|
    ensures var now := Drift(env, tick, s, |item.value| + 1).store;
            var after := Pruned(env, faults, tick, s, key, item).after.store;
            var left := Kept(item.value, Seen(env, tick, s, item.value));
            && (after != now <==>
                  |left| < |item.value| && if key in now.items then now.items[key] == item else left != [])
            && (key !in now.items && key in after.items <==> key !in now.items && 0 < |left| < |item.value|)
            && (forall k :: k != key ==> Untouched(now, after, k))
  {
    hide Later, Honest, Kept, Drift;
    var now := Drift(env, tick, s, |item.value| + 1).store;
    DriftIsLater(env, tick, s, |item.value| + 1);
    FaithfulLater(s.store, now, key, item);
    KeptCount(item.value, Seen(env, tick, s, item.value));
    var left := Kept(item.value, Seen(env, tick, s, item.value));
    assert Saved(now, key, item.version, left) != now <==> Accepts(now, key, item.version) by {
      assert Accepts(now, key, item.version) ==> Saved(now, key, item.version, left).last == now.last + 1;
    }
    assert Deleted(now, key, item.version) != now <==> key in now.items && Accepts(now, key, item.version);
  }

  /** A list of two, one of whose files is gone, read before its key is deleted and written after. */
  lemma DeletedEntryComesBack() returns (env: Env, s: Shared, item: Value)
    ensures Honest(env) && Sound(s.store) && s.store.items == map["k" := item]
    ensures "k" !in Drift(env, 0, s, 3).store.items
    ensures "k" in Pruned(env, i => false, 0, s, "k", item).after.store.items
  {
    hide Kept, Drift;
    var a, b := CachedResponse("a", 200, map[], map[], 0), CachedResponse("b", 200, map[], map[], 0);
    item := Item(1, [a, b]);
    s := Shared(Store(map["k" := item], 1), map["a" := FileCache.File([], 0)]);
    env := (i: nat, t: Shared) => if i == 2 then t.(store := Store(t.store.items - {"k"}, t.store.last)) else t;
    assert Honest(env);
    DriftsTwice(env, s);
    var keep := Seen(env, 0, s, item.value);
    assert 0 in keep && 1 !in keep;
    assert item.value[..1] == [a] && item.value[..1][..0] == [];
    KeptInOrder(item.value, keep, 0);
    KeptCount(item.value, keep);
    assert FirstFault(i => false, 0, 2) == 2;
  }

  lemma DriftsTwice(env: Env, s: Shared)
    ensures Drift(env, 0, s, 1) == env(0, s) && Drift(env, 0, s, 2) == env(1, env(0, s))
    ensures Drift(env, 0, s, 3) == env(2, env(1, env(0, s)))
  {
    assert Drift(env, 0, s, 0) == s;
  }

  /** Two keys with the same body: removing one takes the file of the other. */
  lemma SharedFileIsRemoved() returns (s: Shared)
    ensures "j" in s.store.items && "k" in s.store.items && Backed(s) && !Backed(Forgotten(s, "k"))
  {
    var r := CachedResponse("h", 200, map[], map[], 0);
    s := Shared(Store(map["j" := Item(1, [r]), "k" := Item(2, [r])], 2), map["h" := FileCache.File([], 0)]);
    assert [r][0] == r;
    assert "h" in Hashes(s.store.items["j"].value) && "h" in Hashes(s.store.items["k"].value);
    RemovalStaysBacked(s, "k");
  }

  /* ---- The program ---- */

  class Cache {
    const db: Database<CachedResponses>
    const fc: FileCache.FileCache

    constructor (db: Database<CachedResponses>, fc: FileCache.FileCache)
      ensures this.db == db && this.fc == fc
    {
      this.db, this.fc := db, fc;
    }

    ghost function Here(): Shared
      reads db, fc
    {
      Shared(db.Abs(), fc.files)
    }

    /** Others act. */
    method Yield(env: Env, tick: nat)
      requires Honest(env) && Sound(db.Abs())
      modifies db, fc`files
      ensures Here() == env(tick, old(Here())) && Sound(db.Abs())
    {
      var after := env(tick, Shared(Store(db.items, db.last), fc.files));
      db.items, db.last, fc.files := after.store.items, after.store.last, after.files;
    }

    method PruneDatabaseEntry(key: Key, entry: Entry<CachedResponses>, env: Env, faults: nat -> bool, tick: nat)
      returns (ok: bool)
      requires Honest(env) && Sound(db.Abs())
      modifies db, fc`files, entry
      ensures Step(Here(), ok) ==
              Pruned(env, faults, tick, old(Here()), key, Item(old(entry.version), old(entry.value)))
      ensures Sound(db.Abs())
    {
      hide Honest, Kept, Sound;
      ghost var start := Here();
      var value := entry.value;
      ghost var keep := Seen(env, tick, start, value);
      var validValues := [];
      NothingKept(keep);
      for i := 0 to |value|
        invariant Here() == Drift(env, tick, start, i) && Sound(db.Abs())
        invariant entry.value == value && entry.version == old(entry.version)
        invariant validValues == Kept(value[..i], keep)
        invariant i <= FirstFault(faults, tick, |value|)
      {
        Yield(env, tick + i);
        if faults(tick + i) {
          return false;
        }
        KeptGrows(value, keep, i);
        if value[i].contentHash in fc.files {
          validValues := validValues + [value[i]];
        }
      }
      assert value[..|value|] == value;
      Yield(env, tick + |value|);
      if |validValues| == |value| {
        return true;
      }
      if |validValues| == 0 {
        ok := db.Delete(key, entry);
      } else {
        entry.value := validValues;
        ok := db.Save(key, entry);
      }
    }

    method RemoveUnusedDatabaseEntries(snapshot: seq<(Key, Value)>, known: set<string>, env: Env, faults: nat -> bool)
      returns (ok: bool)
      requires Honest(env) && Sound(db.Abs())
      modifies db, fc`files
      ensures Step(Here(), ok) == Swept(env, faults, 0, old(Here()), snapshot, known)
      ensures Sound(db.Abs())
    {
      hide Honest, Pruned, Sound;
      ghost var start := Here();
      var tick: nat := 0;
      for i := 0 to |snapshot|
        invariant Sound(db.Abs())
        invariant Swept(env, faults, 0, start, snapshot, known) ==
                  Swept(env, faults, tick, Here(), snapshot[i..], known)
      {
        var (key, item) := snapshot[i];
        assert snapshot[i..][1..] == snapshot[i + 1..] && snapshot[i..][0] == snapshot[i];
        var hasMissing := HasMissing(item.value, known);
        if hasMissing {
          var entry := new Entry(item.value);
          entry.version := item.version;
          ok := PruneDatabaseEntry(key, entry, env, faults, tick);
          if !ok {
            return;
          }
          tick := tick + |item.value| + 1;
        }
      }
      ok := true;
    }

    /** CleanupOldEntries: prune the files, list what is left, and make the database agree. What others do to the
        database while the files are pruned is the first step of meanwhile. */
    method CleanupOldEntries(
        pruneEnv: (nat, FileCache.Files) -> FileCache.Files, meanwhile: Env, snapshot: seq<(Key, Value)>, env: Env,
        faults: nat -> bool, listFails: bool, ghost quiet: bool)
      returns (r: FileCache.Outcome, ok: bool, ghost left: FileCache.Files, ghost visits: seq<FileCache.Visit>,
               ghost victims: seq<string>, ghost mid: Shared)
      requires Honest(env) && Honest(meanwhile) && Sound(db.Abs())
      requires quiet ==> (forall i, m :: pruneEnv(i, m) == m) && Quiet(meanwhile) && Quiet(env)
      requires quiet ==> forall i :: !faults(i)
      requires quiet ==> Listed(db.Abs(), snapshot) && KeysOf(snapshot) == db.items.Keys
      modifies db, fc`files
      ensures r.NotRequired? <==> FileCache.Usage(old(fc.files)) < fc.quotaHigh
      ensures FileCache.Ended(pruneEnv, old(fc.files), visits, left, r.Crashed?)
      ensures FileCache.Orderly(old(fc.files), visits, fc.quotaLow) && (r.NotRequired? ==> visits == [])
      ensures mid == meanwhile(0, Shared(old(db.Abs()), left))
      ensures !r.Pruned? ==> Here() == mid && ok && (quiet ==> Here() == old(Here()))
      ensures r.Pruned? ==>
                var known := if listFails then {} else mid.files.Keys;
                Step(Here(), ok) == Swept(env, faults, 0, mid, snapshot, known)
      ensures quiet && r.Pruned? ==>
                && ok && Agrees(old(db.Abs()), Here())
                && FileCache.MinimalLru(old(fc.files), fc.files, victims, fc.quotaLow)
    {
      hide Honest, Sound, Swept, Quiet, KeysOf, Listed, FileCache.Usage, FileCache.SizeDeleted, FileCache.CountDeleted,
           FileCache.Ended, FileCache.Orderly, FileCache.MinimalLru, FileCache.OnlyDeleted, Clean, Lost;
      var usage;
      r, usage, visits, victims := fc.Prune(pruneEnv, quiet);
      left := fc.files;
      Yield(meanwhile, 0);
      mid := Here();
      if quiet {
        QuietStep(meanwhile, Shared(old(db.Abs()), left));
      }
      if !r.Pruned? {
        return r, true, left, visits, victims, mid;
      }
      var known := if listFails then {} else fc.files.Keys;
      if quiet {
        SweepCompletes(env, faults, mid, snapshot, known);
      }
      ok := RemoveUnusedDatabaseEntries(snapshot, known, env, faults);
    }

    /** Remove: the entry first, then its files, whoever else refers to them. Undisturbed, the stored responses of the
        other keys keep their files exactly if none of them shares one with the removed entry. */
    method Remove(key: Key, env: Env, jams: nat -> bool, ghost quiet: bool)
      returns (found: bool, ok: bool, failed: bool)
      requires Honest(env) && Sound(db.Abs())
      requires quiet ==> Quiet(env) && (forall i :: !jams(i))
      modifies db, fc`files
      ensures var atGet := env(0, old(Here()));
              var atDelete := env(1, atGet);
              && (found <==> key in atGet.store.items)
              && (!found ==> Here() == atGet && !ok)
              && (found ==>
                    var item := atGet.store.items[key];
                    && (ok <==> Accepts(atDelete.store, key, item.version))
                    && Here() == (if !ok then atDelete else Removed(env, jams, atDelete, key, item))
                    && (failed <==> ok && exists i: nat :: i < |item.value| && jams(i)))
      ensures quiet && found ==> ok && Here() == Forgotten(old(Here()), key)
      ensures quiet && found && Backed(old(Here())) ==> (Backed(Here()) <==> Alone(old(Here()), key))
      ensures Sound(db.Abs())
    {
      hide Honest, Sound, Unlinked, Forgotten, Backed, Alone, Quiet;
      ghost var s := Here();
      if quiet {
        QuietStep(env, s);
        if key in s.store.items {
          RemovedQuietly(env, jams, s, key);
          RemovalStaysBacked(s, key);
        }
      }
      failed := false;
      Yield(env, 0);
      var entry := new Entry([]);
      found := db.Get(key, entry);
      if !found {
        return found, false, false;
      }
      Yield(env, 1);
      ok := db.Delete(key, entry);
      if !ok {
        return;
      }
      failed := Unlink(entry.value, env, jams);
    }

    /** The files of an entry are deleted one by one; a missing one is only logged, another failure is reported. */
    method Unlink(value: CachedResponses, env: Env, jams: nat -> bool) returns (failed: bool)
      requires Honest(env) && Sound(db.Abs())
      modifies db, fc`files
      ensures Here() == Unlinked(env, jams, old(Here()), value, |value|) && Sound(db.Abs())
      ensures failed <==> exists i: nat :: i < |value| && jams(i)
    {
      hide Honest, Sound;
      failed := false;
      for i := 0 to |value|
        invariant Sound(db.Abs()) && Here() == Unlinked(env, jams, old(Here()), value, i)
        invariant failed <==> exists j: nat :: j < i && jams(j)
      {
        Yield(env, 2 + i);
        if jams(i) {
          failed := true;
        } else {
          fc.files := fc.files - {value[i].contentHash};
        }
      }
    }
  }

  lemma QuietStep(env: Env, s: Shared)
    requires Quiet(env)
    ensures env(0, s) == s && env(1, s) == s
  {
  }

  /** The state after the first n files of an entry were deleted, except those whose deletion failed. */
  function Unlinked(env: Env, jams: nat -> bool, s: Shared, value: CachedResponses, n: nat): Shared
    requires n <= |value|
  {
    if n == 0 then s
    else
      var before := env(1 + n, Unlinked(env, jams, s, value, n - 1));
      if jams(n - 1) then before else before.(files := before.files - {value[n - 1].contentHash})
  }

  /** What Remove leaves once the entry is deleted. */
  function Removed(env: Env, jams: nat -> bool, s: Shared, key: Key, item: Value): Shared {
    Unlinked(env, jams, s.(store := Deleted(s.store, key, item.version)), item.value, |item.value|)
  }

  ghost function Hashes(value: CachedResponses): set<string> {
    set i | 0 <= i < |value| :: value[i].contentHash
  }

  lemma {:induction false} UnlinkedQuietly(env: Env, jams: nat -> bool, s: Shared, value: CachedResponses, n: nat)
    requires Quiet(env) && (forall i :: !jams(i)) && n <= |value|
    ensures Unlinked(env, jams, s, value, n) == s.(files := s.files - Hashes(value[..n]))
  {
    if n == 0 {
      assert s.files - {} == s.files;
    } else {
      UnlinkedQuietly(env, jams, s, value, n - 1);
      assert Hashes(value[..n]) == Hashes(value[..n - 1]) + {value[n - 1].contentHash} by {
        assert value[..n] == value[..n - 1] + [value[n - 1]];
        assert forall i :: 0 <= i < n - 1 ==> value[..n][i] == value[..n - 1][i];
        assert value[..n][n - 1] == value[n - 1];
      }
    }
  }

  /** Every stored response has its file. */
  ghost predicate Backed(s: Shared) {
    forall k :: k in s.store.items ==> Hashes(s.store.items[k].value) <= s.files.Keys
  }

  /** No other key shares a file with this one. */
  ghost predicate Alone(s: Shared, key: Key)
    requires key in s.store.items
  {
    forall k :: k in s.store.items && k != key ==> Hashes(s.store.items[k].value) !! Hashes(s.store.items[key].value)
  }

  /** What Remove makes of a key when nobody interferes. */
  ghost function Forgotten(s: Shared, key: Key): Shared
    requires key in s.store.items
  {
    Shared(Deleted(s.store, key, s.store.items[key].version), s.files - Hashes(s.store.items[key].value))
  }

  lemma RemovedQuietly(env: Env, jams: nat -> bool, s: Shared, key: Key)
    requires Quiet(env) && (forall i :: !jams(i)) && key in s.store.items
    ensures Removed(env, jams, s, key, s.store.items[key]) == Forgotten(s, key)
  {
    hide Quiet, Hashes;
    var item := s.store.items[key];
    UnlinkedQuietly(env, jams, s.(store := Deleted(s.store, key, item.version)), item.value, |item.value|);
    assert item.value[..|item.value|] == item.value;
  }

  /** Removing a key deletes files that other keys may share: the rest stays backed exactly when none does. */
  lemma RemovalStaysBacked(s: Shared, key: Key)
    requires key in s.store.items
    ensures Backed(s) ==> (Backed(Forgotten(s, key)) <==> Alone(s, key))
  {
    hide Hashes;
    var gone := Hashes(s.store.items[key].value);
    var after := Forgotten(s, key);
    assert forall k :: k in after.store.items <==> k in s.store.items && k != key;
    assert after.files.Keys == s.files.Keys - gone;
  }

  /** What the store looks like once it agrees with the files. */
  ghost predicate Agrees(before: Store<CachedResponses>, after: Shared) {
    && (forall k :: k in after.store.items ==>
          k in before.items && Clean(after.store.items[k].value, before.items[k].value, after.files))
    && (forall k :: k in before.items ==>
          (k !in after.store.items <==> before.items[k].value != [] && Lost(before.items[k].value, after.files)))
  }

  lemma NothingKept(keep: set<nat>)
    ensures Kept([], keep) == []
  {
  }

  method HasMissing(value: CachedResponses, known: set<string>) returns (missing: bool)
    ensures missing <==> !AllKnown(value, known)
  {
    missing := false;
    for i := 0 to |value|
      invariant missing <==> exists j :: 0 <= j < i && value[j].contentHash !in known
    {
      if value[i].contentHash !in known {
        missing := true;
      }
    }
  }
}
