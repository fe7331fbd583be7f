/** The state database: a base state holding an in-memory tree and a dirty set over the
    persistent store, and overlays stacked on it. The Verkle tree is a finite map in which
    `Insert` overwrites. */
module StateStore {
  import opened Base
  import opened Database
  import opened Accounts

  /** The persistent store; batches are written atomically. */
  class LevelDb {
    var disk: Disk

    constructor ()
      ensures disk == map[]
    {
      disk := map[];
    }

    method Put(k: DbKey, v: Datum)
      modifies this
      ensures disk == old(disk)[Slot(k) := v]
    {
      disk := disk[Slot(k) := v];
    }

    method Write(batch: Disk)
      modifies this
      ensures disk == old(disk) + batch
    {
      disk := disk + batch;
    }
  }

  /** Log entries by transaction hash. */
  type Logs = map<Bytes, seq<Bytes>>

  function LogsAt(l: Logs, h: Bytes): (s: seq<Bytes>) { if h in l then l[h] else [] }

  /** The logs of two states together: those of the first come first. */
  function Joined(a: Logs, b: Logs): (r: Logs)
    ensures forall h :: LogsAt(r, h) == LogsAt(a, h) + LogsAt(b, h)
  {
    map h | h in a.Keys + b.Keys :: LogsAt(a, h) + LogsAt(b, h)
  }

  class StateDb {
    const parent: StateDb?
    var dirty: Store
    var tree: Option<Store>
    var code: map<Bytes, Bytes>
    var logs: Logs
    var preimages: map<Bytes, Bytes>

    /** The states an overlay reads through to. */
    ghost const below: set<StateDb>

    ghost predicate Valid()
      reads this`dirty, this`tree, below`dirty, below`tree
      decreases below
    {
      && this !in below
      && (parent == null ==> below == {} && tree.Some? && Covers(tree.value, dirty))
      && (parent != null ==>
            && tree.None? && parent in below && parent !in parent.below && below == parent.below + {parent}
            && parent.Valid())
    }

    /** The flat map that reads see. */
    ghost function View(): (v: Store)
      requires Valid()
      reads this`dirty, this`tree, below`dirty, below`tree
      decreases below
    {
      (if parent == null then tree.value else parent.View()) + dirty
    }

    /** `New`: the root argument is ignored; the tree is rebuilt from the stored leaves, in
        whatever order the iterator yields them. */
    constructor New(root: Bytes, db: LevelDb?)
      ensures Valid() && parent == null && fresh(this) && below == {}
      ensures dirty == map[] && code == map[] && logs == map[] && preimages == map[]
      ensures View() == if db == null then map[] else Leaves(db.disk)
    {
      parent := null;
      below := {};
      dirty := map[];
      code, logs, preimages := map[], map[], map[];
      tree := Some(map[]);
      new;
      if db != null {
        var t := Replay(db.disk);
        tree := Some(t);
      }
    }

    /** `NewOverlay`. */
    constructor Overlay(p: StateDb)
      requires p.Valid()
      ensures Valid() && parent == p && fresh(this) && below == p.below + {p}
      ensures dirty == map[] && code == map[] && logs == map[] && preimages == map[] && View() == p.View()
    {
      parent := p;
      below := p.below + {p};
      dirty := map[];
      code, logs, preimages := map[], map[], map[];
      tree := None;
    }

    /** `getVerkleValue`: dirty set first, then the parent, then the tree. */
    method Get(key: Key) returns (v: Value)
      requires Valid()
      ensures v == Fetch(View(), key)
      decreases below
    {
      if key in dirty {
        return dirty[key];
      }
      if parent != null {
        v := parent.Get(key);
        return;
      }
      if tree.None? {
        return [];
      }
      return Fetch(tree.value, key);
    }

    /** `setVerkleValue`. */
    method Set(key: Key, value: Value)
      requires Valid()
      modifies `dirty, `tree
      ensures Valid() && View() == old(View())[key := value]
      ensures dirty == old(dirty)[key := value]
    {
      PutOver(if parent == null then tree.value else parent.View(), dirty, key, value);
      dirty := dirty[key := value];
      if parent != null {
        return;
      }
      if tree.Some? {
        tree := Some(tree.value[key := value]);
      }
    }

    /** `Merge`: the dirty keys go to the parent in any order. The parent then reads as the
        overlay did, and the overlay itself reads as before. */
    method Merge()
      requires Valid()
      modifies if parent == null then {} else {parent}
      ensures Valid() && View() == old(View()) && dirty == old(dirty)
      ensures parent != null ==> parent.Valid() && parent.View() == old(View())
      ensures parent != null ==> parent.dirty == old(parent.dirty) + dirty
      ensures parent != null ==> parent.code == old(parent.code) + code
      ensures parent != null ==> parent.logs == Joined(old(parent.logs), logs)
      ensures parent != null ==> parent.preimages == old(parent.preimages) + preimages
    {
      if parent == null {
        return;
      }
      hide Joined, LogsAt, Covers, View, Valid;
      MergeDirty();
      parent.Collect(code, logs, preimages);
    }

    /** The loop of `Merge` over the dirty set. */
    method MergeDirty()
      requires Valid() && parent != null
      modifies parent`dirty, parent`tree
      ensures Valid() && View() == old(View())
      ensures parent.Valid() && parent.View() == old(View()) && parent.dirty == old(parent.dirty) + dirty
    {
      hide Covers;
      ghost var before := parent.View();
      PutTwice(before, dirty);
      parent.Absorb(dirty);
      assert parent.View() == before + dirty;
    }

    /** The loops of `Merge` over an overlay's code, logs and preimages, on the parent's side. */
    method Collect(c: map<Bytes, Bytes>, l: Logs, p: map<Bytes, Bytes>)
      modifies `code, `logs, `preimages
      ensures code == old(code) + c && logs == Joined(old(logs), l) && preimages == old(preimages) + p
    {
      code := code + c;
      logs := JoinLogs(logs, l);
      preimages := preimages + p;
    }

    /** The loop of `Merge` over an overlay's dirty set, on the parent's side. */
    method Absorb(d: Store)
      requires Valid()
      modifies `dirty, `tree
      ensures Valid() && View() == old(View()) + d && dirty == old(dirty) + d
    {
      var left := d.Keys;
      assert d - left == map[];
      while left != {}
        invariant left <= d.Keys
        invariant Valid() && View() == old(View()) + (d - left)
        invariant dirty == old(dirty) + (d - left)
        decreases left
      {
        var k :| k in left;
        Set(k, d[k]);
        MergeOne(old(View()), d, left, k);
        MergeOne(old(dirty), d, left, k);
        left := left - {k};
      }
      assert d - left == d;
    }

    /** `Commit`: the puts that make the dirty keys persistent. A base state reads as before; an
        overlay would forget its writes. */
    method Commit() returns (batch: Disk)
      requires Valid()
      modifies `dirty
      ensures batch == Batch(old(dirty), code) && dirty == map[]
      ensures Valid() && View() == if parent == null then old(View()) else parent.View()
    {
      hide Batch, Covers;
      CoveredPut(if parent == null then tree.value else map[], dirty);
      CoversNothing(if parent == null then tree.value else parent.View());
      batch := Batch(dirty, code);
      dirty := map[];
    }
  }

  /** The loop of `Merge` over an overlay's logs. */
  method JoinLogs(a: Logs, b: Logs) returns (r: Logs)
    ensures r == Joined(a, b)
  {
    r := a;
    var left := b.Keys;
    while left != {}
      invariant left <= b.Keys && r.Keys == a.Keys + (b.Keys - left)
      invariant forall h :: h in r ==> r[h] == if h in left then LogsAt(a, h) else LogsAt(a, h) + LogsAt(b, h)
      decreases left
    {
      var h :| h in left;
      r := r[h := LogsAt(r, h) + b[h]];
      left := left - {h};
    }
  }

  // ---------- Accessors ----------

  /** `GetBalance`. */
  method GetBalance(s: StateDb, a: Address) returns (n: nat)
    requires s.Valid()
    ensures n == Word(s.View(), a, BalanceOf)
  {
    var v := s.Get(FieldKey(a, BalanceOf));
    n := FromBytes(v) % TWO_256;
  }

  /** `SetBalance`. */
  method SetBalance(s: StateDb, a: Address, n: nat)
    requires s.Valid()
    modifies s`dirty, s`tree
    ensures s.Valid() && s.View() == PutBalance(old(s.View()), a, n)
    ensures s.dirty == PutBalance(old(s.dirty), a, n)
  {
    s.Set(FieldKey(a, BalanceOf), MinBytes(n));
  }

  /** `AddBalance`: 256-bit addition. */
  method AddBalance(s: StateDb, a: Address, n: nat)
    requires s.Valid()
    modifies s`dirty, s`tree
    ensures s.Valid()
    ensures s.View() == PutBalance(old(s.View()), a, (Word(old(s.View()), a, BalanceOf) + n) % TWO_256)
    ensures s.dirty == PutBalance(old(s.dirty), a, (Word(old(s.View()), a, BalanceOf) + n) % TWO_256)
  {
    var cur := GetBalance(s, a);
    SetBalance(s, a, (cur + n) % TWO_256);
  }

  /** `SubBalance`: adds the two's complement. */
  method SubBalance(s: StateDb, a: Address, n: nat)
    requires s.Valid() && n < TWO_256
    modifies s
    ensures s.Valid()
    ensures var v := old(s.View());
      s.View() == PutBalance(v, a, (Word(v, a, BalanceOf) + (TWO_256 - n) % TWO_256) % TWO_256)
  {
    AddBalance(s, a, (TWO_256 - n) % TWO_256);
  }

  /** `GetState`. */
  method GetState(s: StateDb, a: Address, k: nat) returns (n: nat)
    requires s.Valid()
    ensures n == Word(s.View(), a, SlotOf(k))
  {
    var v := s.Get(FieldKey(a, SlotOf(k)));
    n := FromBytes(v) % TWO_256;
  }

  /** `SetState`: stores a full 32-byte word. */
  method SetState(s: StateDb, a: Address, k: nat, n: nat)
    requires s.Valid()
    modifies s
    ensures s.Valid() && s.View() == PutSlot(old(s.View()), a, k, n)
  {
    s.Set(FieldKey(a, SlotOf(k)), FixedBytes(n, 32));
  }

  /** `SetNonce` and `GetNonce`: exact exactly up to 2^63, also after commit and reload. */
  method StoreNonce(s: StateDb, db: LevelDb, a: Address, n: nat) returns (back: nat)
    requires Tracks(s, db) && n < TWO_64
    modifies s, db
    ensures Tracks(s, db) && (back == n <==> n <= TWO_63)
  {
    SetTracked(s, db, FieldKey(a, NonceOf), NonceBytes(n));
    var r := CommitAndReload(s, db);
    var v := r.Get(FieldKey(a, NonceOf));
    back := NonceIn(v);
    NonceRoundTripExactly(n);
  }

  // ---------- Contract code ----------

  /** The code hash of an account: the zero hash when none is stored. */
  function CodeHashAt(v: Store, a: Address): (h: Bytes) {
    var b := Fetch(v, FieldKey(a, CodeHashOf));
    if b == [] then FixedBytes(0, 32) else b
  }

  /** The code of an account, given the state, a cache and a database: none for the hash of the empty
      code, else the cached code, else the stored one. */
  function CodeAt(v: Store, cache: map<Bytes, Bytes>, d: Disk, digest: Bytes -> Bytes, a: Address): (c: Bytes) {
    var h := CodeHashAt(v, a);
    if h == digest([]) then []
    else if h in cache then cache[h]
    else match ReadCode(d, h) case Some(c) => c case None => []
  }

  /** `SetCode`: the hash goes to the account, the code to the cache of this state. */
  method SetCode(s: StateDb, digest: Bytes -> Bytes, a: Address, c: Bytes)
    requires s.Valid()
    modifies s`dirty, s`tree, s`code
    ensures s.Valid() && s.View() == old(s.View())[FieldKey(a, CodeHashOf) := digest(c)]
    ensures s.dirty == old(s.dirty)[FieldKey(a, CodeHashOf) := digest(c)]
    ensures s.code == old(s.code)[digest(c) := c]
  {
    s.Set(FieldKey(a, CodeHashOf), digest(c));
    s.code := s.code[digest(c) := c];
  }

  /** `GetCode`: the cache of this state, then the database, whose answer is cached. The caches of the
      states below are not asked. */
  method GetCode(s: StateDb, db: LevelDb, digest: Bytes -> Bytes, a: Address) returns (c: Bytes)
    requires s.Valid()
    modifies s`code
    ensures c == CodeAt(s.View(), old(s.code), db.disk, digest, a)
    ensures forall x: Address ::
      CodeAt(s.View(), s.code, db.disk, digest, x) == CodeAt(s.View(), old(s.code), db.disk, digest, x)
  {
    hide FieldKey, FixedBytes, ReadCode;
    var v := s.Get(FieldKey(a, CodeHashOf));
    var h := if v == [] then FixedBytes(0, 32) else v;
    if h == digest([]) {
      return [];
    }
    if h in s.code {
      return s.code[h];
    }
    var stored := ReadCode(db.disk, h);
    if stored.Some? {
      forall x: Address { CachingIsUnseen(s.View(), s.code, db.disk, digest, h, stored.value, x); }
      s.code := s.code[h := stored.value];
      return stored.value;
    }
    return [];
  }

  /** Caching what is stored changes no answer. */
  lemma CachingIsUnseen(v: Store, cache: map<Bytes, Bytes>, d: Disk, digest: Bytes -> Bytes, h: Bytes, c: Bytes,
                        x: Address)
    requires h !in cache && ReadCode(d, h) == Some(c)
    ensures CodeAt(v, cache[h := c], d, digest, x) == CodeAt(v, cache, d, digest, x)
  {
    hide ReadCode, CodeHashAt;
  }

  /** Deployed code survives commit and reload: the rebuilt state, with an empty cache, reads it. */
  method DeployAndReload(s: StateDb, db: LevelDb, digest: Bytes -> Bytes, a: Address, c: Bytes)
    returns (r: StateDb, back: Bytes)
    requires Tracks(s, db) && digest(c) != [] && (digest(c) == digest([]) ==> c == [])
    modifies s, db
    ensures Tracks(s, db) && Tracks(r, db) && back == c
    ensures r.View() == old(s.View())[FieldKey(a, CodeHashOf) := digest(c)]
  {
    hide Leaves, FieldKey;
    PutOver(Leaves(db.disk), s.dirty, FieldKey(a, CodeHashOf), digest(c));
    SetCode(s, digest, a, c);
    r := CommitAndReload(s, db);
    back := GetCode(r, db, digest, a);
  }

  /** Through a fresh overlay, which has a cache of its own, an account's code reads as in the state
      below exactly when it is empty, stored, or not cached below either: code deployed since
      the last commit is missed. */
  lemma OverlaySeesCodeExactly(v: Store, below: map<Bytes, Bytes>, d: Disk, digest: Bytes -> Bytes, a: Address)
    requires forall h: Bytes :: h in below && ReadCode(d, h).Some? ==> ReadCode(d, h) == Some(below[h])
    ensures var h := CodeHashAt(v, a);
      CodeAt(v, map[], d, digest, a) == CodeAt(v, below, d, digest, a) <==>
        h == digest([]) || ReadCode(d, h).Some? || h !in below || below[h] == []
  {
  }

  predicate Covers(t: Store, d: Store) {
    forall k :: k in d ==> k in t && t[k] == d[k]
  }

  lemma PutOver(s: Store, d: Store, k: Key, v: Value)
    ensures s + d[k := v] == (s + d)[k := v] && s[k := v] + d[k := v] == (s + d)[k := v]
  {
  }

  /** A covered dirty set put over the tree changes nothing. */
  lemma CoveredPut(t: Store, d: Store)
    ensures Covers(t, d) ==> t + d == t
  {
  }

  lemma CoversNothing(t: Store)
    ensures Covers(t, map[]) && t + map[] == t
  {
  }

  lemma PutTwice(s: Store, d: Store)
    ensures s + d + d == s + d
  {
  }

  lemma MergeOne(s: Store, d: Store, left: set<Key>, k: Key)
    requires k in left && k in d
    ensures (s + (d - left))[k := d[k]] == s + (d - (left - {k}))
  {
    assert (d - left)[k := d[k]] == d - (left - {k});
  }

  /** Rebuilding the tree from the stored leaves. */
  method Replay(disk: Disk) returns (t: Store)
    ensures t == Leaves(disk)
  {
    t := map[];
    ghost var all := Leaves(disk);
    var left := Leaves(disk).Keys;
    while left != {}
      invariant left <= all.Keys && t == all - left
      decreases left
    {
      var k :| k in left;
      t := t[k := RawBytes(disk[Leaf(k)])];
      left := left - {k};
    }
  }

  // ---------- Durability ----------

  /** The base state is what a reload would give, plus the uncommitted writes. */
  ghost predicate Tracks(s: StateDb, db: LevelDb)
    reads s, s.below, db
  {
    s.Valid() && s.parent == null && s.View() == Leaves(db.disk) + s.dirty
  }

  /** Commit, write, reload: nothing read is lost, all cached code is stored, and other stored code
      stays. */
  method CommitAndReload(s: StateDb, db: LevelDb) returns (r: StateDb)
    requires Tracks(s, db)
    modifies s, db
    ensures Tracks(s, db) && s.View() == old(s.View()) && s.dirty == map[]
    ensures Tracks(r, db) && fresh(r) && r.View() == old(s.View()) && r.code == map[] && r.dirty == map[]
    ensures s.code == old(s.code)
    ensures forall h: Bytes ::
      ReadCode(db.disk, h) == if h in s.code then Some(s.code[h]) else ReadCode(old(db.disk), h)
  {
    hide Batch, Leaves;
    forall h: Bytes { BatchCode(db.disk, s.dirty, s.code, h); }
    var batch := s.Commit();
    BatchLeaves(db.disk, old(s.dirty), s.code);
    db.Write(batch);
    assert Leaves(db.disk) == old(s.View());
    assert Leaves(db.disk) + map[] == Leaves(db.disk);
    r := new StateDb.New([], db);
  }

  /** A write keeps the base state in step with its database. */
  method SetTracked(s: StateDb, db: LevelDb, key: Key, value: Value)
    requires Tracks(s, db)
    modifies s
    ensures Tracks(s, db) && s.View() == old(s.View())[key := value]
  {
    hide Leaves;
    PutOver(Leaves(db.disk), s.dirty, key, value);
    s.Set(key, value);
  }
}
