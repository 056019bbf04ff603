/** The versioned key/value store: optimistic concurrency over atomic transactions. */
module Database {
  import opened Http

  type Key = string

  datatype Item<+V> = Item(version: nat, value: V)

  /** The stored items and the version of the last committed transaction. */
  datatype Store<+V> = Store(items: map<Key, Item<V>>, last: nat)

  /** Stored versions are non-zero, not in the future, and never shared by two keys. */
  ghost predicate Sound<V>(s: Store<V>) {
    && (forall k :: k in s.items ==> 0 < s.items[k].version <= s.last)
    && (forall j, k :: j in s.items && k in s.items && s.items[j].version == s.items[k].version ==> j == k)
  }

  /** The check at the start of a write transaction. */
  predicate Accepts<V>(s: Store<V>, key: Key, version: nat) {
    key !in s.items || s.items[key].version == version
  }

  function Saved<V>(s: Store<V>, key: Key, version: nat, value: V): Store<V> {
    if Accepts(s, key, version) then Store(s.items[key := Item(s.last + 1, value)], s.last + 1) else s
  }

  function Deleted<V>(s: Store<V>, key: Key, version: nat): Store<V> {
    if key in s.items && Accepts(s, key, version) then Store(s.items - {key}, s.last + 1) else s
  }

  lemma SoundKept<V>(s: Store<V>, key: Key, version: nat, value: V)
    requires Sound(s)
    ensures Sound(Saved(s, key, version, value))
    ensures Sound(Deleted(s, key, version))
  {
  }

  /** What a save comes to: under an absent key or the version that was read, the value with a new version; otherwise
      nothing. */
  ghost predicate Wrote<V(!new)>(s: Store<V>, s': Store<V>, key: Key, version: nat, value: V) {
    if key !in s.items || s.items[key].version == version then
      && key in s'.items && s'.items[key].value == value && s.last < s'.items[key].version
      && forall k :: k != key ==> (k in s.items <==> k in s'.items) && (k in s.items ==> s'.items[k] == s.items[k])
    else s' == s
  }

  lemma SavedWrote<V(!new)>(s: Store<V>, key: Key, version: nat, value: V)
    ensures Wrote(s, Saved(s, key, version, value), key, version, value)
  {
  }

  /** A value read from the database, with the version it was read at; reused through a pool. */
  class Entry<V> {
    var value: V
    var version: nat

    constructor (value: V)
      ensures this.value == value && version == 0
    {
      this.value, version := value, 0;
    }
  }

  class Database<V> {
    var items: map<Key, Item<V>>
    var last: nat

    ghost function Abs(): Store<V>
      reads this
    {
      Store(items, last)
    }

    constructor ()
      ensures Abs() == Store(map[], 0) && Sound(Abs())
    {
      items, last := map[], 0;
    }

    /** A missing key resets the version only: the value of a reused entry stays. */
    method Get(key: Key, entry: Entry<V>) returns (found: bool)
      modifies entry
      ensures found <==> key in items
      ensures found ==> entry.value == items[key].value && entry.version == items[key].version
      ensures !found ==> entry.version == 0 && entry.value == old(entry.value)
    {
      if key !in items {
        entry.version := 0;
        return false;
      }
      entry.version := items[key].version;
      entry.value := items[key].value;
      return true;
    }

    method Save(key: Key, entry: Entry<V>) returns (ok: bool)
      requires Sound(Abs())
      modifies this
      ensures ok <==> Accepts(old(Abs()), key, entry.version)
      ensures Abs() == Saved(old(Abs()), key, entry.version, entry.value)
      ensures Sound(Abs())
    {
      SoundKept(Abs(), key, entry.version, entry.value);
      if key in items && items[key].version != entry.version {
        return false;
      }
      last := last + 1;
      items := items[key := Item(last, entry.value)];
      return true;
    }

    /** A new entry carries version zero, which no stored item has. */
    method New(key: Key, value: V) returns (ok: bool)
      requires Sound(Abs())
      modifies this
      ensures ok <==> key !in old(items)
      ensures Abs() == Saved(old(Abs()), key, 0, value)
      ensures key in old(items) ==> Abs() == old(Abs())
      ensures Sound(Abs())
    {
      var entry := new Entry(value);
      ok := Save(key, entry);
    }

    method Delete(key: Key, entry: Entry<V>) returns (ok: bool)
      requires Sound(Abs())
      modifies this
      ensures ok <==> Accepts(old(Abs()), key, entry.version)
      ensures Abs() == Deleted(old(Abs()), key, entry.version)
      ensures Sound(Abs())
    {
      SoundKept(Abs(), key, entry.version, entry.value);
      if key !in items {
        return true;
      }
      if items[key].version != entry.version {
        return false;
      }
      last := last + 1;
      items := items - {key};
      return true;
    }
  }

  /* ---- Any interleaving of any number of callers ---- */

  /** origin records what the entry's version was read with: the key and the value then stored. */
  datatype Caller<V> = Caller(value: V, version: nat, origin: Option<(Key, V)>)

  datatype World<V> = World(store: Store<V>, callers: map<nat, Caller<V>>)

  datatype Op<V> =
    | Get(who: nat, key: Key)
    | Edit(who: nat, edited: V)
    | Save(who: nat, key: Key)
    | New(key: Key, added: V)
    | Delete(who: nat, key: Key)

  /** What Get leaves in an entry. */
  function Fetched<V>(s: Store<V>, key: Key, c: Caller<V>): Caller<V> {
    if key in s.items then Caller(s.items[key].value, s.items[key].version, Some((key, s.items[key].value)))
    else c.(version := 0)
  }

  function Apply<V>(w: World<V>, op: Op<V>): World<V> {
    match op
    case New(key, value) => w.(store := Saved(w.store, key, 0, value))
    case Get(who, key) =>
      if who !in w.callers then w
      else w.(callers := w.callers[who := Fetched(w.store, key, w.callers[who])])
    case Edit(who, value) =>
      if who !in w.callers then w
      else w.(callers := w.callers[who := w.callers[who].(value := value)])
    case Save(who, key) =>
      if who !in w.callers then w
      else w.(store := Saved(w.store, key, w.callers[who].version, w.callers[who].value))
    case Delete(who, key) =>
      if who !in w.callers then w
      else w.(store := Deleted(w.store, key, w.callers[who].version))
  }

  function Run<V>(w: World<V>, ops: seq<Op<V>>): World<V> {
    if ops == [] then w else Apply(Run(w, ops[..|ops| - 1]), ops[|ops| - 1])
  }

  /** A database and callers that have not read anything yet. */
  ghost predicate Start<V>(w: World<V>) {
    Sound(w.store) && forall c :: c in w.callers ==> w.callers[c].version == 0
  }

  /** A version in a caller's hands still names what the caller read, wherever it is stored. */
  ghost predicate Faithful<V>(s: Store<V>, c: Caller<V>) {
    && c.version <= s.last
    && (forall k :: k in s.items && s.items[k].version == c.version ==> c.origin == Some((k, s.items[k].value)))
  }

  ghost predicate Inv<V>(w: World<V>) {
    Sound(w.store) && forall c :: c in w.callers ==> Faithful(w.store, w.callers[c])
  }

  lemma StepKeepsInv<V>(w: World<V>, op: Op<V>)
    requires Inv(w)
    ensures Inv(Apply(w, op))
  {
    var w' := Apply(w, op);
    if op.New? {
      SoundKept(w.store, op.key, 0, op.added);
    } else if op.who in w.callers && (op.Save? || op.Delete?) {
      SoundKept(w.store, op.key, w.callers[op.who].version, w.callers[op.who].value);
    }
    forall c | c in w'.callers
      ensures Faithful(w'.store, w'.callers[c])
    {
      assert Faithful(w.store, w.callers[c]);
    }
  }

  lemma {:induction false} RunKeepsInv<V>(w: World<V>, ops: seq<Op<V>>)
    requires Start(w)
    ensures Inv(Run(w, ops))
  {
    if ops != [] {
      RunKeepsInv(w, ops[..|ops| - 1]);
      StepKeepsInv(Run(w, ops[..|ops| - 1]), ops[|ops| - 1]);
    }
  }

  /** No lost updates, for every interleaving: a write that replaces or removes a stored value was made
      by a caller whose last successful read returned exactly that value under that key. */
  lemma NoLostUpdate<V>(w: World<V>, ops: seq<Op<V>>, op: Op<V>)
    requires Start(w)
    requires (op.Save? || op.Delete?) && op.who in Run(w, ops).callers
    ensures var now := Run(w, ops);
            op.key in now.store.items && Apply(now, op) != now ==>
              now.callers[op.who].origin == Some((op.key, now.store.items[op.key].value))
  {
    RunKeepsInv(w, ops);
  }

  /** New never overwrites, and an outdated entry is written back only under a key that is gone. */
  lemma WriteBackOnlyWhenAbsent<V>(w: World<V>, ops: seq<Op<V>>, op: Op<V>)
    requires Start(w)
    ensures var now := Run(w, ops);
            && (op.New? && op.key in now.store.items ==> Apply(now, op) == now)
            && (op.Save? && op.who in now.callers ==>
                  var c := now.callers[op.who];
                  (Apply(now, op) != now <==>
                   op.key !in now.store.items || now.store.items[op.key].version == c.version))
            && (op.Save? && op.who in now.callers && op.key in now.store.items
                && now.callers[op.who].origin != Some((op.key, now.store.items[op.key].value))
                ==> Apply(now, op) == now)
  {
    RunKeepsInv(w, ops);
    var now := Run(w, ops);
    if op.Save? && op.who in now.callers {
      assert Faithful(now.store, now.callers[op.who]);
      assert Accepts(now.store, op.key, now.callers[op.who].version) ==> Apply(now, op).store.last != now.store.last;
    }
  }
}
