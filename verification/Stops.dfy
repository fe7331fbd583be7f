/** `AddBlock` puts its entries one after the other. What a restart finds after a stop between any
    two of them: always a head with its block, but an index that no later call completes. */
module Stops {
  import opened Base
  import opened Database
  import opened Chain
  import B = Blockchain

  datatype PutOp = PutOp(k: DbKey, v: Datum)

  function PutOps(d: Disk, ps: seq<PutOp>): (r: Disk) {
    if ps == [] then d else PutOps(d, ps[..|ps| - 1])[Slot(ps[|ps| - 1].k) := ps[|ps| - 1].v]
  }

  function LookupPuts(b: Block, n: nat): (ps: seq<PutOp>)
    requires n <= |b.txs|
    ensures |ps| == n && forall i :: 0 <= i < n ==> ps[i].k == Lookup(b.txs[i])
  {
    seq(n, i requires 0 <= i < n => PutOp(Lookup(b.txs[i]), EntryData(Entry(b.hash, b.number % TWO_64, i))))
  }

  /** Body, receipts and lookups. */
  function BodyPuts(b: Block, receipts: Option<Bytes>): (ps: seq<PutOp>)
    ensures |ps| > 0 && ps[0] == PutOp(Body(b.hash), BlockData(b))
    ensures forall i :: 0 < i < |ps| ==> ps[i].k == Receipts(b.hash) || ps[i].k.Lookup?
  {
    [PutOp(Body(b.hash), BlockData(b))] +
    (if receipts.Some? then [PutOp(Receipts(b.hash), Raw(receipts.value))] else []) + LookupPuts(b, |b.txs|)
  }

  /** All the puts of an addition, in order. */
  function Puts(c: Chain, b: Block, receipts: Option<Bytes>): (ps: seq<PutOp>) {
    BodyPuts(b, receipts) + (if IsNewer(c, b) then [PutOp(Head, Raw(b.hash))] else []) +
    [PutOp(Canonical(b.number % TWO_64), Raw(b.hash))]
  }

  predicate IsNewer(c: Chain, b: Block) { c.head.None? || b.number > c.head.value.number }

  lemma {:induction false} PutOpsConcat(d: Disk, a: seq<PutOp>, b: seq<PutOp>)
    ensures PutOps(d, a + b) == PutOps(PutOps(d, a), b)
  {
    if b == [] {
      assert a + b == a;
    } else {
      assert (a + b)[..|a + b| - 1] == a + b[..|b| - 1];
      PutOpsConcat(d, a, b[..|b| - 1]);
    }
  }

  lemma PutOne(d: Disk, p: PutOp)
    ensures PutOps(d, [p]) == d[Slot(p.k) := p.v]
  {
    assert [p][..0] == [];
    assert PutOps(d, []) == d;
  }

  lemma {:induction false} LookupsAreOps(d: Disk, b: Block, n: nat)
    requires n <= |b.txs|
    ensures PutOps(d, LookupPuts(b, n)) == PutLookups(d, b, n)
  {
    if n > 0 {
      LookupsAreOps(d, b, n - 1);
      assert LookupPuts(b, n)[..n - 1] == LookupPuts(b, n - 1);
    }
  }

  lemma BodyIsOps(d: Disk, b: Block, receipts: Option<Bytes>)
    ensures PutOps(d, BodyPuts(b, receipts)) ==
      PutLookups(PutReceipts(d[Body(b.hash) := BlockData(b)], b, receipts), b, |b.txs|)
  {
    hide LookupPuts, PutLookups;
    var p0 := PutOp(Body(b.hash), BlockData(b));
    var rs := if receipts.Some? then [PutOp(Receipts(b.hash), Raw(receipts.value))] else [];
    PutOpsConcat(d, [p0] + rs, LookupPuts(b, |b.txs|));
    PutOpsConcat(d, [p0], rs);
    PutOne(d, p0);
    if receipts.Some? { PutOne(PutOps(d, [p0]), rs[0]); }
    LookupsAreOps(PutOps(d, [p0] + rs), b, |b.txs|);
  }

  /** Made to the end, the puts are the addition. */
  lemma AddIsPuts(c: Chain, b: Block, receipts: Option<Bytes>)
    requires ReadBlock(c.disk, b.hash).None?
    ensures Add(c, b, receipts).disk == PutOps(c.disk, Puts(c, b, receipts))
  {
    hide BodyPuts, PutLookups, PutOps;
    var body := BodyPuts(b, receipts);
    var last := PutOp(Canonical(b.number % TWO_64), Raw(b.hash));
    BodyIsOps(c.disk, b, receipts);
    var d2 := PutOps(c.disk, body);
    if IsNewer(c, b) {
      var h := PutOp(Head, Raw(b.hash));
      PutOpsConcat(c.disk, body, [h]);
      PutOne(d2, h);
      PutOpsConcat(c.disk, body + [h], [last]);
      PutOne(PutOps(d2, [h]), last);
    } else {
      assert body + [] == body;
      PutOpsConcat(c.disk, body, [last]);
      PutOne(d2, last);
    }
  }

  // ---------- A stop ----------

  /** The database after the first `k` puts. */
  function Stopped(c: Chain, b: Block, receipts: Option<Bytes>, k: nat): (d: Disk)
    requires k <= |Puts(c, b, receipts)|
  {
    PutOps(c.disk, Puts(c, b, receipts)[..k])
  }

  ghost predicate Untouched(d: Disk, d': Disk, key: DbKey) {
    (key in d' <==> key in d) && (key in d ==> d'[key] == d[key])
  }

  lemma {:induction false} OthersUntouched(d: Disk, ps: seq<PutOp>, key: DbKey)
    requires forall i :: 0 <= i < |ps| ==> Slot(ps[i].k) != key
    ensures Untouched(d, PutOps(d, ps), key)
  {
    if ps != [] { OthersUntouched(d, ps[..|ps| - 1], key); }
  }

  /** The put at `i` shows if no later one has its slot. */
  lemma LastPut(d: Disk, ps: seq<PutOp>, i: nat)
    requires i < |ps| && forall j :: i < j < |ps| ==> Slot(ps[j].k) != Slot(ps[i].k)
    ensures Slot(ps[i].k) in PutOps(d, ps) && PutOps(d, ps)[Slot(ps[i].k)] == ps[i].v
  {
    hide PutOps;
    assert ps == ps[..i] + [ps[i]] + ps[i + 1..];
    PutOpsConcat(d, ps[..i] + [ps[i]], ps[i + 1..]);
    PutOpsConcat(d, ps[..i], [ps[i]]);
    PutOne(PutOps(d, ps[..i]), ps[i]);
    OthersUntouched(PutOps(d, ps[..i] + [ps[i]]), ps[i + 1..], Slot(ps[i].k));
  }

  /** Which kind of entry each put is for. */
  lemma PutKinds(c: Chain, b: Block, receipts: Option<Bytes>)
    requires Ordinary(b)
    ensures var ps := Puts(c, b, receipts); var n := |ps|;
      && n >= (if IsNewer(c, b) then 3 else 2)
      && ps[0] == PutOp(Body(b.hash), BlockData(b))
      && ps[n - 1] == PutOp(Canonical(b.number), Raw(b.hash))
      && (IsNewer(c, b) ==> ps[n - 2] == PutOp(Head, Raw(b.hash)))
      && (forall i :: 0 < i < n ==> !ps[i].k.Body?)
      && (forall i :: 0 <= i < n - 1 ==> !ps[i].k.Canonical?)
      && (forall i :: 0 <= i < n && ps[i].k == Head ==> IsNewer(c, b) && i == n - 2)
  {
    hide BodyPuts, LookupPuts;
    SmallMod(b.number, TWO_64);
  }

  lemma BodyAfterStop(c: Chain, b: Block, receipts: Option<Bytes>, k: nat, h: Bytes)
    requires Ordinary(b) && k <= |Puts(c, b, receipts)|
    ensures ReadBlock(Stopped(c, b, receipts, k), h) == if k > 0 && h == b.hash then Some(b) else ReadBlock(c.disk, h)
  {
    hide Puts, PutOps;
    PutKinds(c, b, receipts);
    var ps := Puts(c, b, receipts)[..k];
    if k > 0 && h == b.hash {
      LastPut(c.disk, ps, 0);
    } else {
      OthersUntouched(c.disk, ps, Body(h));
    }
  }

  lemma HeadAfterStop(c: Chain, b: Block, receipts: Option<Bytes>, k: nat)
    requires Ordinary(b) && k <= |Puts(c, b, receipts)|
    ensures ReadHash(Stopped(c, b, receipts, k), Head) ==
      if IsNewer(c, b) && k >= |Puts(c, b, receipts)| - 1 then b.hash else ReadHash(c.disk, Head)
  {
    hide Puts, PutOps;
    PutKinds(c, b, receipts);
    var n, ps := |Puts(c, b, receipts)|, Puts(c, b, receipts)[..k];
    if IsNewer(c, b) && k >= n - 1 {
      LastPut(c.disk, ps, n - 2);
    } else {
      OthersUntouched(c.disk, ps, Head);
    }
  }

  lemma CanonicalAfterStop(c: Chain, b: Block, receipts: Option<Bytes>, k: nat)
    requires Ordinary(b) && k < |Puts(c, b, receipts)|
    ensures ReadHash(Stopped(c, b, receipts, k), Canonical(b.number)) == ReadHash(c.disk, Canonical(b.number))
  {
    hide Puts, PutOps;
    PutKinds(c, b, receipts);
    OthersUntouched(c.disk, Puts(c, b, receipts)[..k], Canonical(b.number));
  }

  /** Before the lookups come body and receipts, after them the head and canonical entries. */
  function Early(b: Block, receipts: Option<Bytes>): (ps: seq<PutOp>) {
    [PutOp(Body(b.hash), BlockData(b))] +
    if receipts.Some? then [PutOp(Receipts(b.hash), Raw(receipts.value))] else []
  }

  function Late(c: Chain, b: Block): (ps: seq<PutOp>) {
    (if IsNewer(c, b) then [PutOp(Head, Raw(b.hash))] else []) + [PutOp(Canonical(b.number % TWO_64), Raw(b.hash))]
  }

  /** How many lookups the first `k` puts include. */
  function LookupsIn(b: Block, receipts: Option<Bytes>, k: nat): (m: nat)
    ensures m <= |b.txs|
  {
    var first := if receipts.Some? then 2 else 1;
    if k <= first then 0 else if k - first <= |b.txs| then k - first else |b.txs|
  }

  /** The first `k` puts: some of the early ones, or all of them and some lookups and late ones. */
  lemma PutsTo(c: Chain, b: Block, receipts: Option<Bytes>, k: nat) returns (x: nat, y: nat)
    requires k <= |Puts(c, b, receipts)|
    ensures x == (if k < |Early(b, receipts)| then k else |Early(b, receipts)|) && y <= |Late(c, b)|
    ensures Puts(c, b, receipts)[..k] ==
      Early(b, receipts)[..x] + LookupPuts(b, LookupsIn(b, receipts, k)) + Late(c, b)[..y]
  {
    var e, l, n := Early(b, receipts), LookupPuts(b, |b.txs|), LookupsIn(b, receipts, k);
    assert Puts(c, b, receipts) == e + l + Late(c, b);
    x := if k < |e| then k else |e|;
    y := if k <= |e| + |l| then 0 else k - |e| - |l|;
    assert LookupPuts(b, n) == l[..n];
  }

  lemma EarlyLate(c: Chain, b: Block, receipts: Option<Bytes>)
    ensures forall i :: 0 <= i < |Early(b, receipts)| ==> !Slot(Early(b, receipts)[i].k).Lookup?
    ensures forall i :: 0 <= i < |Late(c, b)| ==> !Slot(Late(c, b)[i].k).Lookup? && !Slot(Late(c, b)[i].k).Receipts?
  {
  }

  /** The lookups after a stop are those of the transactions whose puts were made. */
  lemma LookupsAfterStop(c: Chain, b: Block, receipts: Option<Bytes>, k: nat, tx: Bytes)
    requires k <= |Puts(c, b, receipts)|
    ensures ReadLookup(Stopped(c, b, receipts, k), tx) ==
      InBlock(b, LookupsIn(b, receipts, k), tx, ReadLookup(c.disk, tx))
  {
    hide Puts, PutOps, Early, Late, LookupPuts, LookupsIn, InBlock, PutLookups;
    var x, y := PutsTo(c, b, receipts, k);
    var m, e, l := LookupsIn(b, receipts, k), Early(b, receipts)[..x], Late(c, b)[..y];
    EarlyLate(c, b, receipts);
    PutOpsConcat(c.disk, e + LookupPuts(b, m), l);
    PutOpsConcat(c.disk, e, LookupPuts(b, m));
    var d := PutOps(c.disk, e);
    OthersUntouched(c.disk, e, Lookup(tx));
    LookupsAreOps(d, b, m);
    LookupsPut(d, b, m);
    OthersUntouched(PutLookups(d, b, m), l, Lookup(tx));
    assert ReadLookup(d, tx) == ReadLookup(c.disk, tx);
    assert ReadLookup(PutLookups(d, b, m), tx) == InBlock(b, m, tx, ReadLookup(d, tx));
  }

  /** The receipts are there from the second put on, if there are any. */
  lemma ReceiptsAfterStop(c: Chain, b: Block, receipts: Option<Bytes>, k: nat)
    requires k <= |Puts(c, b, receipts)|
    ensures ReadReceipts(Stopped(c, b, receipts, k), b.hash) ==
      if receipts.Some? && k >= 2 then receipts else ReadReceipts(c.disk, b.hash)
  {
    hide Puts, PutOps, Late, LookupPuts, LookupsIn, PutLookups;
    var x, y := PutsTo(c, b, receipts, k);
    var m, e, l := LookupsIn(b, receipts, k), Early(b, receipts)[..x], Late(c, b)[..y];
    EarlyLate(c, b, receipts);
    PutOpsConcat(c.disk, e + LookupPuts(b, m), l);
    PutOpsConcat(c.disk, e, LookupPuts(b, m));
    var d := PutOps(c.disk, e);
    if receipts.Some? && k >= 2 {
      LastPut(c.disk, e, 1);
    } else {
      OthersUntouched(c.disk, e, Receipts(b.hash));
    }
    LookupsAreOps(d, b, m);
    LookupsPut(d, b, m);
    OthersUntouched(PutLookups(d, b, m), l, Receipts(b.hash));
  }

  /** The chain a restart finds after a stop. */
  function Found(c: Chain, b: Block, receipts: Option<Bytes>, k: nat): (r: Chain)
    requires k <= |Puts(c, b, receipts)|
  {
    Restart(Chain(Stopped(c, b, receipts, k), None))
  }

  /** After a stop anywhere in an addition a restart finds a head whose block is there: the old
      one, or, once the head entry is put, the new one. And once the first put is made, the block
      is known: adding it again, with any receipts, changes nothing. */
  lemma StopFindsHead(c: Chain, acc: seq<Block>, b: Block, receipts: Option<Bytes>, k: nat, again: Option<Bytes>)
    requires Indexed(c, acc) && Ordinary(b) && ByHash(acc, b.hash).None? && k <= |Puts(c, b, receipts)|
    ensures Found(c, b, receipts, k).head ==
      if IsNewer(c, b) && k >= |Puts(c, b, receipts)| - 1 then Some(b) else c.head
    ensures k > 0 ==> Add(Found(c, b, receipts, k), b, again) == Found(c, b, receipts, k)
  {
    hide Puts, Stopped, Indexed, Ordinary, ReadBlock, ReadHash, ByHash, PutLookups;
    PutKinds(c, b, receipts);
    HeadAfterStop(c, b, receipts, k);
    var h := ReadHash(Stopped(c, b, receipts, k), Head);
    BodyAfterStop(c, b, receipts, k, h);
    BodyAfterStop(c, b, receipts, k, b.hash);
    RestartIsNoChange(c, acc);
    HeadNotNew(c, acc, b);
  }

  lemma HeadNotNew(c: Chain, acc: seq<Block>, b: Block)
    requires Indexed(c, acc) && Ordinary(b) && ByHash(acc, b.hash).None?
    ensures ReadHash(c.disk, Head) != b.hash
  {
    if c.head.Some? { HeadIn(acc, c.head.value); }
  }

  lemma NotYetCanonical(c: Chain, acc: seq<Block>, b: Block)
    requires Indexed(c, acc) && Ordinary(b) && ByHash(acc, b.hash).None?
    ensures ReadHash(c.disk, Canonical(b.number)) != b.hash
  {
    if LastAt(acc, b.number).Some? {
      var x := LastAt(acc, b.number).value;
      assert Ordinary(x) && ByHash(acc, x.hash) == Some(x);
    }
  }

  lemma IndexedCanonical(c: Chain, acc: seq<Block>, b: Block)
    requires Indexed(c, acc + [b]) && Ordinary(b)
    ensures ReadHash(c.disk, Canonical(b.number)) == b.hash
  {
    SnocReads(acc, b);
  }

  /** The indices a restart finds are those of the old blocks exactly when no put was made, and
      those with the new block exactly when all were. */
  lemma StopIndexedExactly(c: Chain, acc: seq<Block>, b: Block, receipts: Option<Bytes>, k: nat)
    requires Indexed(c, acc) && Ordinary(b) && ByHash(acc, b.hash).None? && k <= |Puts(c, b, receipts)|
    ensures Indexed(Found(c, b, receipts, k), acc) <==> k == 0
    ensures Indexed(Found(c, b, receipts, k), acc + [b]) <==> k == |Puts(c, b, receipts)|
  {
    hide Puts, Stopped, Indexed, Ordinary, ReadBlock, ReadHash, ByHash, PutLookups;
    var n, r := |Puts(c, b, receipts)|, Found(c, b, receipts, k);
    PutKinds(c, b, receipts);
    if k == 0 {
      NothingPut(c, b, receipts);
      RestartIsNoChange(c, acc);
    } else {
      BodyAfterStop(c, b, receipts, k, b.hash);
      if Indexed(r, acc) { B.IndexedReads(r, acc, b.hash); }
    }
    if k == n {
      AllPut(c, acc, b, receipts);
    } else {
      CanonicalAfterStop(c, b, receipts, k);
      NotYetCanonical(c, acc, b);
      if Indexed(r, acc + [b]) { IndexedCanonical(r, acc, b); }
    }
  }

  lemma NothingPut(c: Chain, b: Block, receipts: Option<Bytes>)
    ensures Found(c, b, receipts, 0) == Restart(c)
  {
    assert Puts(c, b, receipts)[..0] == [];
  }

  lemma AllPut(c: Chain, acc: seq<Block>, b: Block, receipts: Option<Bytes>)
    requires Indexed(c, acc) && Ordinary(b) && ByHash(acc, b.hash).None?
    ensures Indexed(Found(c, b, receipts, |Puts(c, b, receipts)|), acc + [b])
  {
    hide Puts, Indexed, Add, PutOps, Ordinary, ByHash;
    var ps := Puts(c, b, receipts);
    assert ps[..|ps|] == ps;
    B.IndexedReads(c, acc, b.hash);
    AddIsPuts(c, b, receipts);
    AddKeepsIndexed(c, acc, b, receipts);
    RestartIsNoChange(Add(c, b, receipts), acc + [b]);
  }
}
