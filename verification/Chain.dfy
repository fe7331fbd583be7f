/** The chain indices: blocks by hash, the head, canonical hashes by number and transaction
    lookups, kept in the one database. After every sequence of additions and restarts they are
    functions of the list of accepted blocks alone. */
module Chain {
  import opened Base
  import opened Database

  const ZERO_HASH: Bytes := FixedBytes(0, 32)

  // ---------- Readers ----------

  function ReadBlock(d: Disk, h: Bytes): (b: Option<Block>) {
    if Body(h) in d && d[Body(h)].BlockData? then Some(d[Body(h)].block) else None
  }

  /** A stored hash; the zero hash when there is none. */
  function ReadHash(d: Disk, k: DbKey): (h: Bytes) {
    if Slot(k) in d && d[Slot(k)].Raw? then d[Slot(k)].bytes else ZERO_HASH
  }

  function ReadLookup(d: Disk, tx: Bytes): (e: Option<Entry>) {
    if Lookup(tx) in d && d[Lookup(tx)].EntryData? then Some(d[Lookup(tx)].entry) else None
  }

  function ReadReceipts(d: Disk, h: Bytes): (r: Option<Bytes>) {
    if Receipts(h) in d && d[Receipts(h)].Raw? then Some(d[Receipts(h)].bytes) else None
  }

  /** `GetBlockByNumber`. */
  function BlockByNumber(d: Disk, n: nat): (b: Option<Block>) {
    var h := ReadHash(d, Canonical(n));
    if h == ZERO_HASH then None else ReadBlock(d, h)
  }

  // ---------- Adding a block ----------

  datatype Chain = Chain(disk: Disk, head: Option<Block>)

  /** `WriteTxLookupEntries` for the first `n` transactions of a block. */
  function PutLookups(d: Disk, b: Block, n: nat): (r: Disk)
    requires n <= |b.txs|
  {
    if n == 0 then d else
      PutLookups(d, b, n - 1)[Lookup(b.txs[n - 1]) := EntryData(Entry(b.hash, b.number % TWO_64, n - 1))]
  }

  function PutReceipts(d: Disk, b: Block, receipts: Option<Bytes>): (r: Disk) {
    if receipts.Some? then d[Receipts(b.hash) := Raw(receipts.value)] else d
  }

  /** `AddBlock`: a known hash is refused and changes nothing. */
  function Add(c: Chain, b: Block, receipts: Option<Bytes>): (r: Chain) {
    if ReadBlock(c.disk, b.hash).Some? then c else
      var d1 := PutReceipts(c.disk[Body(b.hash) := BlockData(b)], b, receipts);
      var d2 := PutLookups(d1, b, |b.txs|);
      var newer := c.head.None? || b.number > c.head.value.number;
      var d3 := if newer then d2[Head := Raw(b.hash)] else d2;
      var d4 := d3[Slot(Canonical(b.number % TWO_64)) := Raw(b.hash)];
      Chain(d4, if newer then Some(b) else c.head)
  }

  /** Loading an existing chain: the head is the block the head entry names. */
  function Restart(c: Chain): (r: Chain) {
    Chain(c.disk, ReadBlock(c.disk, ReadHash(c.disk, Head)))
  }

  // ---------- The indices as functions of the accepted blocks ----------

  function ByHash(acc: seq<Block>, h: Bytes): (b: Option<Block>) {
    if acc == [] then None
    else if acc[|acc| - 1].hash == h then Some(acc[|acc| - 1]) else ByHash(acc[..|acc| - 1], h)
  }

  /** The last accepted block of a number. */
  function LastAt(acc: seq<Block>, n: nat): (b: Option<Block>)
    ensures b.Some? ==> b.value.number == n && b.value in acc
    ensures b.None? ==> forall x :: x in acc ==> x.number != n
  {
    if acc == [] then None
    else if acc[|acc| - 1].number == n then Some(acc[|acc| - 1]) else LastAt(acc[..|acc| - 1], n)
  }

  /** The head: the first accepted block of the greatest number. */
  ghost predicate IsHead(acc: seq<Block>, b: Block) {
    exists i :: 0 <= i < |acc| && acc[i] == b &&
      (forall j :: 0 <= j < |acc| ==> acc[j].number <= b.number) &&
      (forall j :: 0 <= j < i ==> acc[j].number < b.number)
  }

  function LastIndex(txs: seq<Bytes>, tx: Bytes): (i: nat)
    requires tx in txs
    ensures i < |txs| && txs[i] == tx && forall j :: i < j < |txs| ==> txs[j] != tx
  {
    if txs[|txs| - 1] == tx then |txs| - 1 else LastIndex(txs[..|txs| - 1], tx)
  }

  /** The place of a transaction: in the last accepted block holding it, its last index. */
  function Place(acc: seq<Block>, tx: Bytes): (e: Option<Entry>) {
    if acc == [] then None else Found(acc[|acc| - 1], tx, Place(acc[..|acc| - 1], tx))
  }

  /** The place of a transaction after one more block. */
  function Found(b: Block, tx: Bytes, before: Option<Entry>): (e: Option<Entry>) {
    if tx in b.txs then Some(Entry(b.hash, b.number, LastIndex(b.txs, tx))) else before
  }

  /** An entry points at a transaction of a block. */
  predicate Names(e: Entry, b: Block, tx: Bytes) {
    b.hash == e.blockHash && b.number == e.blockNumber && e.txIndex < |b.txs| && b.txs[e.txIndex] == tx
  }

  /** Every place names an accepted block that holds the transaction at that index. */
  lemma {:induction false} PlaceHolds(acc: seq<Block>, tx: Bytes)
    ensures Place(acc, tx).Some? ==> exists b :: b in acc && Names(Place(acc, tx).value, b, tx)
  {
    if acc != [] {
      var b := acc[|acc| - 1];
      if tx in b.txs { assert b in acc; } else { PlaceHolds(acc[..|acc| - 1], tx); }
    }
  }

  /** The blocks the theorem is about: nonzero hashes, uint64 numbers other than the one whose
      canonical key is the head key. */
  ghost predicate Ordinary(b: Block) {
    b.hash != ZERO_HASH && b.number < TWO_64 && b.number != HEAD_NUMBER
  }

  ghost predicate Indexed(c: Chain, acc: seq<Block>) {
    && (forall b :: b in acc ==> Ordinary(b) && ByHash(acc, b.hash) == Some(b))
    && (forall h: Bytes :: ReadBlock(c.disk, h) == ByHash(acc, h))
    && (forall n: nat :: n < TWO_64 && n != HEAD_NUMBER ==>
          ReadHash(c.disk, Canonical(n)) == if LastAt(acc, n).Some? then LastAt(acc, n).value.hash else ZERO_HASH)
    && (forall tx: Bytes :: ReadLookup(c.disk, tx) == Place(acc, tx))
    && (acc == [] <==> c.head.None?)
    && (c.head.Some? ==> IsHead(acc, c.head.value))
    && ReadHash(c.disk, Head) == if c.head.Some? then c.head.value.hash else ZERO_HASH
  }

  /** The entry of a transaction once the first `n` of a block are indexed. */
  function InBlock(b: Block, n: nat, tx: Bytes, before: Option<Entry>): (e: Option<Entry>)
    requires n <= |b.txs|
  {
    if tx in b.txs[..n] then Some(Entry(b.hash, b.number % TWO_64, LastIndex(b.txs[..n], tx))) else before
  }

  lemma {:induction false} LookupsPut(d: Disk, b: Block, n: nat)
    requires n <= |b.txs|
    ensures forall k: DbKey :: !k.Lookup? ==>
      (k in PutLookups(d, b, n) <==> k in d) && (k in d ==> PutLookups(d, b, n)[k] == d[k])
    ensures forall tx: Bytes :: ReadLookup(PutLookups(d, b, n), tx) == InBlock(b, n, tx, ReadLookup(d, tx))
  {
    if n > 0 {
      LookupsPut(d, b, n - 1);
      assert b.txs[..n][..n - 1] == b.txs[..n - 1];
      assert b.txs[..n] == b.txs[..n - 1] + [b.txs[n - 1]];
    }
  }

  ghost predicate Newer(c: Chain, b: Block) { c.head.None? || b.number > c.head.value.number }

  /** What an accepted block changes, reader by reader. */
  lemma AddReads(c: Chain, b: Block, receipts: Option<Bytes>)
    requires Ordinary(b) && ReadBlock(c.disk, b.hash).None?
    ensures var d := Add(c, b, receipts).disk;
      && (forall h: Bytes :: ReadBlock(d, h) == if h == b.hash then Some(b) else ReadBlock(c.disk, h))
      && (forall n: nat :: n < TWO_64 && n != HEAD_NUMBER ==>
            ReadHash(d, Canonical(n)) == if n == b.number then b.hash else ReadHash(c.disk, Canonical(n)))
      && ReadHash(d, Head) == (if Newer(c, b) then b.hash else ReadHash(c.disk, Head))
      && (forall tx: Bytes :: ReadLookup(d, tx) == InBlock(b, |b.txs|, tx, ReadLookup(c.disk, tx)))
  {
    hide InBlock, PutLookups, PutReceipts;
    SmallMod(b.number, TWO_64);
    var d1 := PutReceipts(c.disk[Body(b.hash) := BlockData(b)], b, receipts);
    BodyReads(c.disk, b, receipts);
    LookupsPut(d1, b, |b.txs|);
  }

  /** What storing body and receipts changes. */
  lemma BodyReads(disk: Disk, b: Block, receipts: Option<Bytes>)
    ensures var d := PutReceipts(disk[Body(b.hash) := BlockData(b)], b, receipts);
      && (forall h: Bytes :: ReadBlock(d, h) == if h == b.hash then Some(b) else ReadBlock(disk, h))
      && (forall n: nat :: ReadHash(d, Canonical(n)) == ReadHash(disk, Canonical(n)))
      && ReadHash(d, Head) == ReadHash(disk, Head)
      && (forall tx: Bytes :: ReadLookup(d, tx) == ReadLookup(disk, tx))
  {
  }

  /** An accepted block's receipts, if there are any, are stored under its hash; all others stay. */
  lemma AddStoresReceipts(c: Chain, b: Block, receipts: Option<Bytes>, h: Bytes)
    requires ReadBlock(c.disk, b.hash).None?
    ensures ReadReceipts(Add(c, b, receipts).disk, h) ==
      if h == b.hash && receipts.Some? then receipts else ReadReceipts(c.disk, h)
  {
    hide PutLookups;
    LookupsPut(PutReceipts(c.disk[Body(b.hash) := BlockData(b)], b, receipts), b, |b.txs|);
  }

  lemma HeadSnoc(acc: seq<Block>, head: Option<Block>, b: Block)
    requires if acc == [] then head.None? else head.Some? && IsHead(acc, head.value)
    ensures IsHead(acc + [b], if head.None? || b.number > head.value.number then b else head.value)
  {
    var acc' := acc + [b];
    if head.None? || b.number > head.value.number {
      assert acc'[|acc|] == b;
    } else {
      var i :| 0 <= i < |acc| && acc[i] == head.value &&
        (forall j :: 0 <= j < |acc| ==> acc[j].number <= head.value.number) &&
        (forall j :: 0 <= j < i ==> acc[j].number < head.value.number);
      assert acc'[i] == head.value;
    }
  }

  lemma SnocReads(acc: seq<Block>, b: Block)
    ensures forall h: Bytes :: ByHash(acc + [b], h) == if h == b.hash then Some(b) else ByHash(acc, h)
    ensures forall n: nat :: LastAt(acc + [b], n) == if n == b.number then Some(b) else LastAt(acc, n)
    ensures forall tx: Bytes :: Place(acc + [b], tx) == Found(b, tx, Place(acc, tx))
  {
    assert (acc + [b])[..|acc|] == acc;
  }

  lemma InWholeBlock(b: Block, tx: Bytes, before: Option<Entry>)
    requires b.number < TWO_64
    ensures InBlock(b, |b.txs|, tx, before) == Found(b, tx, before)
  {
    assert b.txs[..|b.txs|] == b.txs;
    SmallMod(b.number, TWO_64);
  }

  /** Adding an unknown block keeps the indices functions of the accepted list. */
  lemma AddKeepsIndexed(c: Chain, acc: seq<Block>, b: Block, receipts: Option<Bytes>)
    requires Indexed(c, acc) && Ordinary(b) && ByHash(acc, b.hash).None?
    ensures Indexed(Add(c, b, receipts), acc + [b])
  {
    hide PutLookups, PutReceipts, ReadBlock, ReadHash, ReadLookup, ByHash, LastAt, Place, InBlock, IsHead;
    AddReads(c, b, receipts);
    AddHead(c, b, receipts);
    HeadSnoc(acc, c.head, b);
    SnocReads(acc, b);
    forall tx: Bytes { InWholeBlock(b, tx, ReadLookup(c.disk, tx)); }
  }

  lemma AddHead(c: Chain, b: Block, receipts: Option<Bytes>)
    requires ReadBlock(c.disk, b.hash).None?
    ensures Add(c, b, receipts).head == if Newer(c, b) then Some(b) else c.head
  {
  }

  /** Reloading finds the head that memory had. */
  lemma RestartIsNoChange(c: Chain, acc: seq<Block>)
    requires Indexed(c, acc)
    ensures Restart(c) == c
  {
    if c.head.None? {
      assert ReadBlock(c.disk, ZERO_HASH) == ByHash(acc, ZERO_HASH);
    } else {
      HeadIn(acc, c.head.value);
      assert ReadBlock(c.disk, c.head.value.hash) == ByHash(acc, c.head.value.hash);
    }
  }

  lemma HeadIn(acc: seq<Block>, b: Block)
    requires IsHead(acc, b)
    ensures b in acc
  {
  }

  // ---------- Every history ----------

  datatype Op = AddOp(b: Block, receipts: Option<Bytes>) | RestartOp

  function Step(c: Chain, op: Op): (r: Chain) {
    match op
    case AddOp(b, receipts) => Add(c, b, receipts)
    case RestartOp => Restart(c)
  }

  function Run(c: Chain, ops: seq<Op>): (r: Chain) {
    if ops == [] then c else Step(Run(c, ops[..|ops| - 1]), ops[|ops| - 1])
  }

  /** The blocks accepted: those whose hash was new. */
  function Accepted(acc: seq<Block>, ops: seq<Op>): (r: seq<Block>) {
    if ops == [] then acc else Accept(Accepted(acc, ops[..|ops| - 1]), ops[|ops| - 1])
  }

  function Accept(acc: seq<Block>, op: Op): (r: seq<Block>) {
    if op.AddOp? && ByHash(acc, op.b.hash).None? then acc + [op.b] else acc
  }

  /** After every sequence of additions and restarts: the head is the first accepted block of the
      greatest number and the stored head hash is its hash; each canonical entry names the last
      accepted block of its number; each lookup entry is the place of its transaction. */
  lemma {:induction false} EveryChainIndexed(c: Chain, acc: seq<Block>, ops: seq<Op>)
    requires Indexed(c, acc) && forall i :: 0 <= i < |ops| && ops[i].AddOp? ==> Ordinary(ops[i].b)
    ensures Indexed(Run(c, ops), Accepted(acc, ops))
  {
    hide Indexed, Ordinary, Add, Restart, ByHash;
    if ops != [] {
      var init := ops[..|ops| - 1];
      EveryChainIndexed(c, acc, init);
      StepKeepsIndexed(Run(c, init), Accepted(acc, init), ops[|ops| - 1]);
    }
  }

  lemma StepKeepsIndexed(c: Chain, acc: seq<Block>, op: Op)
    requires Indexed(c, acc) && (op.AddOp? ==> Ordinary(op.b))
    ensures Indexed(Step(c, op), Accept(acc, op))
  {
    match op
    case AddOp(b, receipts) =>
      assert ReadBlock(c.disk, b.hash) == ByHash(acc, b.hash);
      if ByHash(acc, b.hash).None? { AddKeepsIndexed(c, acc, b, receipts); }
    case RestartOp => RestartIsNoChange(c, acc);
  }
}
