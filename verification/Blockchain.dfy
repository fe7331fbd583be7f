/** The blockchain object and the block server: the methods that keep and read the indices. */
module Blockchain {
  import opened Base
  import opened Database
  import opened Accounts
  import opened StateStore
  import C = Chain

  class Blockchain {
    const db: LevelDb
    var currentBlock: Option<Block>

    ghost function State(): (c: C.Chain)
      reads this, db
    {
      C.Chain(db.disk, currentBlock)
    }

    /** `NewBlockchain`: an empty database gets the genesis allocation and block, an existing one
        gives its head. */
    constructor (db: LevelDb, genesis: Block, alloc: map<Address, nat>)
      requires RealAddresses(alloc)
      modifies db
      ensures this.db == db && State() == Opened(old(db.disk), genesis, alloc)
    {
      this.db := db;
      currentBlock := None;
      new;
      hide Grants, Leaves, Begun;
      var headHash := C.ReadHash(db.disk, Head);
      if headHash == C.ZERO_HASH {
        Begin(genesis, alloc);
      } else {
        currentBlock := C.ReadBlock(db.disk, headHash);
      }
    }

    /** The genesis branch of `NewBlockchain`. */
    method Begin(genesis: Block, alloc: map<Address, nat>)
      requires RealAddresses(alloc) && currentBlock.None?
      modifies this, db
      ensures State() == Begun(old(db.disk), genesis, Grants(Leaves(old(db.disk)), alloc))
    {
      hide Grants, Leaves, C.Add, Batch;
      var batch := Allocate(db, alloc);
      db.Write(batch);
      var ok := AddBlock(genesis, None);
      if ok {
        db.Put(Head, Raw(genesis.hash));
      }
      currentBlock := Some(genesis);
    }

    /** `AddBlock`. */
    method AddBlock(b: Block, receipts: Option<Bytes>) returns (ok: bool)
      modifies this, db
      ensures State() == C.Add(old(State()), b, receipts)
      ensures ok <==> C.ReadBlock(old(db.disk), b.hash).None?
    {
      var known := C.ReadBlock(db.disk, b.hash);
      if known.Some? {
        return false;
      }
      db.Put(Body(b.hash), BlockData(b));
      if receipts.Some? {
        db.Put(Receipts(b.hash), Raw(receipts.value));
      }
      ghost var d := db.disk;
      for i := 0 to |b.txs|
        invariant db.disk == C.PutLookups(d, b, i) && currentBlock == old(currentBlock)
      {
        db.Put(Lookup(b.txs[i]), EntryData(Entry(b.hash, b.number % TWO_64, i)));
      }
      if currentBlock.None? || b.number > currentBlock.value.number {
        currentBlock := Some(b);
        db.Put(Head, Raw(b.hash));
      }
      db.Put(Canonical(b.number % TWO_64), Raw(b.hash));
      return true;
    }

    /** `GetBlockByNumber`: on an indexed chain, the last accepted block of the number. */
    method GetBlockByNumber(n: nat) returns (b: Option<Block>)
      ensures b == C.BlockByNumber(db.disk, n)
      ensures forall acc :: C.Indexed(State(), acc) && n < TWO_64 && n != HEAD_NUMBER ==> b == C.LastAt(acc, n)
    {
      forall acc | C.Indexed(State(), acc) && n < TWO_64 && n != HEAD_NUMBER
        ensures C.BlockByNumber(db.disk, n) == C.LastAt(acc, n)
      {
        CanonicalIsLast(State(), acc, n);
      }
      var hash := C.ReadHash(db.disk, Canonical(n));
      if hash == C.ZERO_HASH {
        return None;
      }
      return C.ReadBlock(db.disk, hash);
    }
  }

  /** The genesis allocation: added, in any order, to the balances of whatever state the database
      holds. */
  method Allocate(db: LevelDb, alloc: map<Address, nat>) returns (batch: Disk)
    requires RealAddresses(alloc)
    ensures batch == Batch(Grants(Leaves(db.disk), alloc), map[])
  {
    hide Batch, Leaves, Grants, FieldKey, Word;
    var s := new StateDb.New([], db);
    ghost var base := s.View();
    var left := alloc.Keys;
    NoGrants(base, alloc);
    while left != {}
      invariant left <= alloc.Keys && s.Valid() && s.parent == null && s.code == map[]
      invariant s.dirty == Grants(base, alloc - left) && s.View() == base + s.dirty
      decreases left
    {
      var a :| a in left;
      GrantsAdd(base, alloc, left, a);
      GrantStep(base, s.dirty, a, alloc[a]);
      AddBalance(s, a, alloc[a]);
      left := left - {a};
    }
    assert alloc - left == alloc;
    batch := s.Commit();
  }

  lemma NoGrants(s: Store, alloc: map<Address, nat>)
    ensures Grants(s, alloc - alloc.Keys) == map[] && s + map[] == s
  {
  }

  lemma GrantStep(s: Store, d: Store, a: Address, n: nat)
    requires FieldKey(a, BalanceOf) !in d
    ensures Word(s + d, a, BalanceOf) == Word(s, a, BalanceOf)
    ensures PutBalance(d, a, (Word(s, a, BalanceOf) + n) % TWO_256) == d[FieldKey(a, BalanceOf) := Granted(s, a, n)]
    ensures PutBalance(s + d, a, (Word(s, a, BalanceOf) + n) % TWO_256)
         == s + d[FieldKey(a, BalanceOf) := Granted(s, a, n)]
  {
  }

  /** A chain begun with the given writes of the allocation and the genesis block. */
  function Begun(d: Disk, genesis: Block, grants: Store): (c: C.Chain) {
    var d1 := d + Batch(grants, map[]);
    var c := C.Add(C.Chain(d1, None), genesis, None);
    var isNew := C.ReadBlock(d1, genesis.hash).None?;
    C.Chain(if isNew then c.disk[Head := Raw(genesis.hash)] else c.disk, Some(genesis))
  }

  /** What opening a database leaves. */
  function Opened(d: Disk, genesis: Block, alloc: map<Address, nat>): (c: C.Chain) {
    var h := C.ReadHash(d, Head);
    if h == C.ZERO_HASH then Begun(d, genesis, Grants(Leaves(d), alloc)) else C.Chain(d, C.ReadBlock(d, h))
  }

  lemma CommitReads(d: Disk, dirty: Store, code: map<Bytes, Bytes>)
    ensures var d' := d + Batch(dirty, code);
      && (forall h: Bytes :: C.ReadBlock(d', h) == C.ReadBlock(d, h))
      && (forall n: nat :: C.ReadHash(d', Canonical(n)) == C.ReadHash(d, Canonical(n)))
      && C.ReadHash(d', Head) == C.ReadHash(d, Head)
      && (forall tx: Bytes :: C.ReadLookup(d', tx) == C.ReadLookup(d, tx))
  {
    hide Batch;
  }

  /** A state commit does not disturb the chain indices. */
  lemma CommitKeepsIndexed(c: C.Chain, acc: seq<Block>, dirty: Store, code: map<Bytes, Bytes>)
    requires C.Indexed(c, acc)
    ensures C.Indexed(C.Chain(c.disk + Batch(dirty, code), c.head), acc)
  {
    hide C.ReadBlock, C.ReadHash, C.ReadLookup, C.ByHash, C.LastAt, C.Place, C.IsHead, Batch;
    CommitReads(c.disk, dirty, code);
  }

  /** A fresh database starts with the genesis block indexed, and the genesis allocation as its
      state. */
  lemma FreshStartIndexed(genesis: Block, alloc: map<Address, nat>)
    requires C.Ordinary(genesis)
    ensures C.Indexed(Opened(map[], genesis, alloc), [genesis])
  {
    hide Begun, Grants, Leaves, C.Indexed, C.Ordinary;
    BegunIndexed(genesis, Grants(Leaves(map[]), alloc));
  }

  lemma BegunIndexed(genesis: Block, grants: Store)
    requires C.Ordinary(genesis)
    ensures C.Indexed(Begun(map[], genesis, grants), [genesis])
  {
    hide C.Add, Batch, C.Indexed, C.Ordinary, C.ReadBlock;
    var c0 := C.Chain(map[], None);
    NothingIndexed();
    CommitKeepsIndexed(c0, [], grants, map[]);
    var c1 := C.Chain(c0.disk + Batch(grants, map[]), None);
    IndexedReads(c1, [], genesis.hash);
    C.AddKeepsIndexed(c1, [], genesis, None);
    assert [] + [genesis] == [genesis];
    HeadAlreadyPut(c1, genesis);
  }

  lemma NothingIndexed()
    ensures C.Indexed(C.Chain(map[], None), [])
  {
  }

  lemma IndexedReads(c: C.Chain, acc: seq<Block>, h: Bytes)
    requires C.Indexed(c, acc)
    ensures C.ReadBlock(c.disk, h) == C.ByHash(acc, h)
  {
  }

  lemma HeadAlreadyPut(c: C.Chain, b: Block)
    requires C.Ordinary(b) && c.head.None? && C.ReadBlock(c.disk, b.hash).None?
    ensures C.Add(c, b, None).disk[Head := Raw(b.hash)] == C.Add(c, b, None).disk
    ensures C.Add(c, b, None).head == Some(b)
  {
    hide C.PutLookups;
    SmallMod(b.number, TWO_64);
  }

  /** Opening a database that has no head - an empty one, or one whose first opening stopped before
      the head was put - adds the allocation to the balances stored in it: after such a stop the
      allocation counts twice. */
  lemma OpeningAddsAllocation(d: Disk, genesis: Block, alloc: map<Address, nat>, a: Address, f: Field)
    requires C.ReadHash(d, Head) == C.ZERO_HASH && RealAddresses(alloc) && ValidField(a, f)
    ensures var before, after := Leaves(d), Leaves(Opened(d, genesis, alloc).disk);
      Word(after, a, f) ==
        if f == BalanceOf && a in alloc then (Word(before, a, f) + alloc[a]) % TWO_256 else Word(before, a, f)
  {
    hide Leaves, Begun, Grants, Word, FieldKey;
    BegunLeaves(d, genesis, Grants(Leaves(d), alloc));
    GrantsRead(Leaves(d), alloc, a, f);
  }

  lemma BegunLeaves(d: Disk, genesis: Block, grants: Store)
    ensures Leaves(Begun(d, genesis, grants).disk) == Leaves(d) + grants
  {
    hide Leaves, Batch, C.Add, C.ReadBlock;
    var d1 := d + Batch(grants, map[]);
    var c := C.Add(C.Chain(d1, None), genesis, None);
    BatchLeaves(d, grants, map[]);
    AddKeepsState(C.Chain(d1, None), genesis, None);
    ChainPutKeepsState(c.disk, Head, Raw(genesis.hash));
  }

  /** Opening a database that has no head makes the genesis block the head in memory, and stores it as
      the head exactly when no block of its hash, which covers the state with the allocation
      added, was stored. */
  lemma OpeningStoresHeadExactly(d: Disk, genesis: Block, alloc: map<Address, nat>)
    requires C.ReadHash(d, Head) == C.ZERO_HASH && genesis.hash != C.ZERO_HASH
    ensures Opened(d, genesis, alloc).head == Some(genesis)
    ensures C.ReadHash(Opened(d, genesis, alloc).disk, Head) ==
      if C.ReadBlock(d, genesis.hash).None? then genesis.hash else C.ZERO_HASH
  {
    hide Grants, Leaves, Batch, C.ZERO_HASH;
    CommitReads(d, Grants(Leaves(d), alloc), map[]);
  }

  /** Opening the database of an indexed chain again finds the same chain. */
  lemma ReopenIsNoChange(c: C.Chain, acc: seq<Block>, genesis: Block, alloc: map<Address, nat>)
    requires C.Indexed(c, acc) && acc != []
    ensures Opened(c.disk, genesis, alloc) == c
  {
    C.RestartIsNoChange(c, acc);
    C.HeadIn(acc, c.head.value);
  }

  // ---------- Serving blocks ----------

  /** `handleGetBlocks`: the blocks after a known one, up to the limit or the first gap. */
  method HandleGetBlocks(bc: Blockchain, startHash: Bytes, limit: nat) returns (blocks: seq<Block>)
    ensures C.ReadBlock(bc.db.disk, startHash).None? ==> blocks == []
    ensures C.ReadBlock(bc.db.disk, startHash).Some? ==>
      Serves(bc.db.disk, C.ReadBlock(bc.db.disk, startHash).value.number, limit, blocks)
  {
    hide C.Indexed, C.LastAt, C.BlockByNumber;
    blocks := [];
    var startBlock := C.ReadBlock(bc.db.disk, startHash);
    if startBlock.Some? {
      var startNum := startBlock.value.number % TWO_64;
      for i := 0 to limit
        invariant |blocks| == i
        invariant forall j :: 0 <= j < i ==>
          C.BlockByNumber(bc.db.disk, After(startBlock.value.number, j)) == Some(blocks[j])
      {
        var b := bc.GetBlockByNumber((startNum + 1 + i) % TWO_64);
        WrapOnce(startBlock.value.number, 1 + i);
        if b.None? {
          break;
        }
        blocks := blocks + [b.value];
      }
    }
  }

  lemma WrapOnce(n: nat, k: nat)
    ensures (n % TWO_64 + k) % TWO_64 == (n + k) % TWO_64
  {
    ModAdd(n, k, TWO_64);
  }

  /** The number of the `j`-th block served, in uint64 arithmetic. */
  function After(start: nat, j: nat): (n: nat) { (start + 1 + j) % TWO_64 }

  /** The longest gap-free canonical run after `start`, within the limit. */
  ghost predicate Serves(d: Disk, start: nat, limit: nat, blocks: seq<Block>) {
    && |blocks| <= limit
    && (forall j :: 0 <= j < |blocks| ==> C.BlockByNumber(d, After(start, j)) == Some(blocks[j]))
    && (|blocks| < limit ==> C.BlockByNumber(d, After(start, |blocks|)).None?)
  }

  /** On an indexed chain the canonical block of a number is the last accepted one. */
  lemma CanonicalIsLast(c: C.Chain, acc: seq<Block>, n: nat)
    requires C.Indexed(c, acc) && n < TWO_64 && n != HEAD_NUMBER
    ensures C.BlockByNumber(c.disk, n) == C.LastAt(acc, n)
  {
    if C.LastAt(acc, n).Some? {
      var b := C.LastAt(acc, n).value;
      assert C.Ordinary(b);
      assert C.ReadBlock(c.disk, b.hash) == C.ByHash(acc, b.hash);
    }
  }

  /** What a peer is sent, in terms of the accepted blocks: consecutive numbers from the one after
      the start, each the last accepted block of its number, up to the limit or the first
      number never accepted. */
  lemma ServedRun(c: C.Chain, acc: seq<Block>, start: nat, limit: nat, blocks: seq<Block>)
    requires C.Indexed(c, acc) && Serves(c.disk, start, limit, blocks)
    requires start + 1 + limit < TWO_64 && !(start < HEAD_NUMBER <= start + 1 + limit)
    ensures forall j :: 0 <= j < |blocks| ==> C.LastAt(acc, start + 1 + j) == Some(blocks[j])
    ensures |blocks| < limit ==> C.LastAt(acc, start + 1 + |blocks|).None?
  {
    hide C.BlockByNumber, C.Indexed, C.LastAt;
    forall j | 0 <= j <= |blocks| && j <= limit
      ensures C.BlockByNumber(c.disk, After(start, j)) == C.LastAt(acc, start + 1 + j)
    {
      SmallMod(start + 1 + j, TWO_64);
      CanonicalIsLast(c, acc, start + 1 + j);
    }
  }

  // ---------- Chain writes and the stored state ----------

  lemma {:induction false} LookupsKeepState(d: Disk, b: Block, n: nat)
    requires n <= |b.txs|
    ensures Leaves(C.PutLookups(d, b, n)) == Leaves(d)
  {
    hide Leaves;
    if n > 0 {
      LookupsKeepState(d, b, n - 1);
      var entry := Entry(b.hash, b.number % TWO_64, n - 1);
      ChainPutKeepsState(C.PutLookups(d, b, n - 1), Lookup(b.txs[n - 1]), EntryData(entry));
    }
  }

  /** Adding a block leaves the stored state as it was. */
  lemma AddKeepsState(c: C.Chain, b: Block, receipts: Option<Bytes>)
    ensures Leaves(C.Add(c, b, receipts).disk) == Leaves(c.disk)
  {
    hide Leaves, C.PutLookups;
    var d0 := c.disk[Body(b.hash) := BlockData(b)];
    ChainPutKeepsState(c.disk, Body(b.hash), BlockData(b));
    if receipts.Some? { ChainPutKeepsState(d0, Receipts(b.hash), Raw(receipts.value)); }
    var d1 := C.PutReceipts(d0, b, receipts);
    LookupsKeepState(d1, b, |b.txs|);
    var d2 := C.PutLookups(d1, b, |b.txs|);
    ChainPutKeepsState(d2, Head, Raw(b.hash));
    ChainPutKeepsState(d2, Canonical(b.number % TWO_64), Raw(b.hash));
    ChainPutKeepsState(d2[Head := Raw(b.hash)], Canonical(b.number % TWO_64), Raw(b.hash));
  }

  lemma {:induction false} LookupsKeepCode(d: Disk, b: Block, n: nat, h: Bytes)
    requires n <= |b.txs|
    ensures ReadCode(C.PutLookups(d, b, n), h) == ReadCode(d, h)
  {
    if n > 0 { LookupsKeepCode(d, b, n - 1, h); }
  }

  /** Adding a block leaves the stored code as it was. */
  lemma AddKeepsCode(c: C.Chain, b: Block, receipts: Option<Bytes>, h: Bytes)
    ensures ReadCode(C.Add(c, b, receipts).disk, h) == ReadCode(c.disk, h)
  {
    hide C.PutLookups;
    LookupsKeepCode(C.PutReceipts(c.disk[Body(b.hash) := BlockData(b)], b, receipts), b, |b.txs|, h);
  }

  /** What a restart does after any addition, exactly: it finds the head memory had, unless the
      block has the one number whose canonical key is the head key and is not newer. */
  lemma RestartKeepsHeadExactly(c: C.Chain, acc: seq<Block>, b: Block, receipts: Option<Bytes>)
    requires C.Indexed(c, acc) && C.ByHash(acc, b.hash).None? && b.hash != C.ZERO_HASH && b.number < TWO_64
    ensures C.Restart(C.Add(c, b, receipts)).head == C.Add(c, b, receipts).head <==>
      b.number != HEAD_NUMBER || C.Newer(c, b)
  {
    assert C.ReadBlock(c.disk, b.hash) == C.ByHash(acc, b.hash);
    if b.number != HEAD_NUMBER {
      C.AddKeepsIndexed(c, acc, b, receipts);
      C.RestartIsNoChange(C.Add(c, b, receipts), acc + [b]);
    } else {
      RestartAtHeadNumber(c, b, receipts);
      if !C.Newer(c, b) {
        C.HeadIn(acc, c.head.value);
        assert C.ReadBlock(c.disk, c.head.value.hash) == C.ByHash(acc, c.head.value.hash);
      }
    }
  }

  /** A block of that number comes up as the head after a restart, newer or not. */
  lemma RestartAtHeadNumber(c: C.Chain, b: Block, receipts: Option<Bytes>)
    requires C.ReadBlock(c.disk, b.hash).None? && b.number == HEAD_NUMBER
    ensures C.Restart(C.Add(c, b, receipts)).head == Some(b)
    ensures C.Add(c, b, receipts).head == if C.Newer(c, b) then Some(b) else c.head
  {
    hide C.PutLookups;
    SmallMod(b.number, TWO_64);
    C.LookupsPut(C.PutReceipts(c.disk[Body(b.hash) := BlockData(b)], b, receipts), b, |b.txs|);
  }

  /** The one colliding number: adding an older block numbered 0x656164426c6f636b overwrites the
      stored head hash, and a restart comes up on that block. */
  lemma HeadNumberClobbers(c: C.Chain, acc: seq<Block>, b: Block)
    requires C.Indexed(c, acc) && acc != [] && C.ByHash(acc, b.hash).None?
    requires b.number == HEAD_NUMBER && c.head.value.number >= HEAD_NUMBER
    ensures C.Restart(C.Add(c, b, None)).head == Some(b) && C.Add(c, b, None).head == c.head
    ensures c.head != Some(b)
  {
    assert C.ReadBlock(c.disk, b.hash) == C.ByHash(acc, b.hash);
    RestartAtHeadNumber(c, b, None);
    C.HeadIn(acc, c.head.value);
    assert C.ReadBlock(c.disk, c.head.value.hash) == C.ByHash(acc, c.head.value.hash);
  }
}
