/** The node's one key-value database: the byte layout of its keys, and what a key of one kind
    can do to entries of another. */
module Database {
  import opened Base

  /** What a database key stands for. Hashes are 32 bytes, block numbers uint64. */
  datatype DbKey =
    | Body(hash: Bytes)
    | Receipts(hash: Bytes)
    | Lookup(txHash: Bytes)
    | Canonical(number: nat)
    | Head
    | Leaf(key: Key)
    | Code(hash: Bytes)

  predicate ValidKey(k: DbKey) {
    k.Canonical? ==> k.number < TWO_64
  }

  function Tag(k: DbKey): (t: byte) {
    match k
    case Body(_) => 98       // b
    case Receipts(_) => 114  // r
    case Lookup(_) => 108    // l
    case Canonical(_) => 72  // H
    case Head => 72          // H
    case Leaf(_) => 118      // v
    case Code(_) => 99       // c
  }

  const EAD_BLOCK: Bytes := [0x65, 0x61, 0x64, 0x42, 0x6c, 0x6f, 0x63, 0x6b]

  function Payload(k: DbKey): (p: Bytes) {
    match k
    case Body(h) => h
    case Receipts(h) => h
    case Lookup(h) => h
    case Canonical(n) => FixedBytes(n, 8)
    case Head => EAD_BLOCK
    case Leaf(key) => key
    case Code(h) => h
  }

  /** The bytes under which an entry is stored: a one-letter prefix and the identifier; the head
      entry lies under the plain word HeadBlock. */
  function Encode(k: DbKey): (b: Bytes)
    ensures |b| > 0 && b[0] == Tag(k) && b[1..] == Payload(k)
  {
    [Tag(k)] + Payload(k)
  }

  /** The bytes of an ASCII string. */
  function Ascii(s: string): (b: Bytes)
    requires forall i :: 0 <= i < |s| ==> s[i] as int < 256
    ensures |b| == |s| && forall i :: 0 <= i < |s| ==> b[i] == s[i] as int
  {
    seq(|s|, i requires 0 <= i < |s| => s[i] as int)
  }

  /** The keys as strings and identifiers. */
  lemma KeyLayout(h: Bytes, n: nat)
    ensures Encode(Body(h)) == Ascii("b") + h
    ensures Encode(Receipts(h)) == Ascii("r") + h
    ensures Encode(Lookup(h)) == Ascii("l") + h
    ensures Encode(Canonical(n)) == Ascii("H") + FixedBytes(n, 8)
    ensures Encode(Head) == Ascii("HeadBlock")
    ensures Encode(Leaf(h)) == Ascii("v") + h
    ensures Encode(Code(h)) == Ascii("c") + h
  {
    hide Encode, FixedBytes;
    OneLetter('b', Body(h), h);
    OneLetter('r', Receipts(h), h);
    OneLetter('l', Lookup(h), h);
    OneLetter('H', Canonical(n), FixedBytes(n, 8));
    OneLetter('v', Leaf(h), h);
    OneLetter('c', Code(h), h);
    HeadKey();
  }

  lemma OneLetter(c: char, k: DbKey, id: Bytes)
    requires c as int < 256 && Tag(k) == c as int && Payload(k) == id
    ensures Encode(k) == Ascii([c]) + id
  {
    hide Tag, Payload;
    assert Ascii([c]) == [c as int];
  }

  lemma HeadKey()
    ensures Encode(Head) == Ascii("HeadBlock")
  {
    hide Encode;
    var b := Encode(Head);
    assert b == [b[0]] + b[1..];
    assert b == [0x48, 0x65, 0x61, 0x64, 0x42, 0x6c, 0x6f, 0x63, 0x6b];
  }

  /** The block number whose canonical key is the head key. */
  const HEAD_NUMBER: nat := 0x656164426c6f636b

  lemma HeadNumberBytes()
    ensures FixedBytes(HEAD_NUMBER, 8) == EAD_BLOCK
  {
    assert FixedBytes(0x65, 1) == [0x65];
    assert FixedBytes(0x6561, 2) == [0x65, 0x61];
    assert FixedBytes(0x656164, 3) == [0x65, 0x61, 0x64];
    assert FixedBytes(0x65616442, 4) == [0x65, 0x61, 0x64, 0x42];
    assert FixedBytes(0x656164426c, 5) == [0x65, 0x61, 0x64, 0x42, 0x6c];
    assert FixedBytes(0x656164426c6f, 6) == [0x65, 0x61, 0x64, 0x42, 0x6c, 0x6f];
    assert FixedBytes(0x656164426c6f63, 7) == [0x65, 0x61, 0x64, 0x42, 0x6c, 0x6f, 0x63];
  }

  lemma CanonicalBytes(m: nat, n: nat)
    requires m < TWO_64 && n < TWO_64 && FixedBytes(m, 8) == FixedBytes(n, 8)
    ensures m == n
  {
    WordSizes();
    FixedBytesInjective(m, n, 8);
  }

  /** Keys of different kinds or identifiers never coincide, with one exception. */
  lemma KeysCollideExactly(a: DbKey, b: DbKey)
    requires ValidKey(a) && ValidKey(b)
    ensures Encode(a) == Encode(b) <==>
      || a == b
      || (a == Head && b == Canonical(HEAD_NUMBER))
      || (a == Canonical(HEAD_NUMBER) && b == Head)
  {
    HeadNumberBytes();
    if Encode(a) == Encode(b) {
      assert Tag(a) == Tag(b) && Payload(a) == Payload(b);
      if a.Canonical? && b.Canonical? { CanonicalBytes(a.number, b.number); }
      if a.Canonical? && b.Head? { CanonicalBytes(a.number, HEAD_NUMBER); }
      if a.Head? && b.Canonical? { CanonicalBytes(HEAD_NUMBER, b.number); }
    }
  }

  /** One key for each class of keys sharing their bytes. */
  function Slot(k: DbKey): (r: DbKey) {
    if k == Canonical(HEAD_NUMBER) then Head else k
  }

  /** Two keys share their bytes exactly when they share their slot, so that a database over
      bytes is a map over slots. */
  lemma SlotsAreBytes(a: DbKey, b: DbKey)
    requires ValidKey(a) && ValidKey(b)
    ensures Slot(a) == Slot(b) <==> Encode(a) == Encode(b)
  {
    KeysCollideExactly(a, b);
  }

  // ---------- Contents ----------

  /** What the chain indices see of a block. */
  datatype Block = Block(hash: Bytes, number: nat, txs: seq<Bytes>)

  /** Where a transaction is to be found. */
  datatype Entry = Entry(blockHash: Bytes, blockNumber: nat, txIndex: nat)

  /** A stored value; the JSON codecs of blocks and entries are taken to round-trip. */
  datatype Datum = Raw(bytes: Bytes) | BlockData(block: Block) | EntryData(entry: Entry)

  /** Database contents, by slot. */
  type Disk = map<DbKey, Datum>

  function RawBytes(d: Datum): (b: Bytes) { if d.Raw? then d.bytes else [] }

  // ---------- The state leaves ----------

  /** The state a database holds: what `New` rebuilds. */
  function Leaves(d: Disk): (s: Store)
    ensures forall k: Key :: k in s <==> Leaf(k) in d
    ensures forall k: Key :: k in s ==> s[k] == RawBytes(d[Leaf(k)])
  {
    var ks := set dk | dk in d && dk.Leaf? :: dk.key;
    assert forall k: Key :: Leaf(k) in d ==> Leaf(k).key in ks;
    map k | k in ks && Leaf(k) in d :: RawBytes(d[Leaf(k)])
  }

  /** The puts of a commit: the dirty leaves and the cached code. */
  function Batch(dirty: Store, code: map<Bytes, Bytes>): (b: Disk)
    ensures forall k: Key :: Leaf(k) in b <==> k in dirty
    ensures forall k: Key :: k in dirty ==> b[Leaf(k)] == Raw(dirty[k])
    ensures forall h: Bytes :: Code(h) in b <==> h in code
    ensures forall h: Bytes :: h in code ==> b[Code(h)] == Raw(code[h])
    ensures forall dk :: dk in b ==> dk.Leaf? || dk.Code?
  {
    var ks := (set k | k in dirty :: Leaf(k)) + (set h | h in code :: Code(h));
    assert forall k: Key :: k in dirty ==> Leaf(k) in ks;
    assert forall h: Bytes :: h in code ==> Code(h) in ks;
    map dk | dk in ks && (dk.Leaf? || dk.Code?) ::
      Raw(if dk.Leaf? then Fetch(dirty, dk.key) else Fetch(code, dk.hash))
  }

  /** Writing a commit's batch makes the stored state the old one with the dirty keys put over. */
  lemma BatchLeaves(d: Disk, dirty: Store, code: map<Bytes, Bytes>)
    ensures Leaves(d + Batch(dirty, code)) == Leaves(d) + dirty
  {
    hide Leaves, Batch;
    var a, b := Leaves(d + Batch(dirty, code)), Leaves(d) + dirty;
    forall k: Key ensures (k in a <==> k in b) && (k in a ==> a[k] == b[k]) {}
    assert a == b;
  }

  /** The code a database holds under a hash. */
  function ReadCode(d: Disk, h: Bytes): (c: Option<Bytes>) {
    if Code(h) in d then Some(RawBytes(d[Code(h)])) else None
  }

  /** Writing a commit's batch stores all cached code, and leaves other code as it was. */
  lemma BatchCode(d: Disk, dirty: Store, code: map<Bytes, Bytes>, h: Bytes)
    ensures ReadCode(d + Batch(dirty, code), h) == if h in code then Some(code[h]) else ReadCode(d, h)
  {
    hide Batch;
  }

  /** A put under any other kind of key leaves the stored state alone. */
  lemma ChainPutKeepsState(d: Disk, k: DbKey, v: Datum)
    requires !k.Leaf?
    ensures Leaves(d[Slot(k) := v]) == Leaves(d)
  {
    hide Leaves;
    var a, b := Leaves(d[Slot(k) := v]), Leaves(d);
    forall s: Key ensures (s in a <==> s in b) && (s in a ==> a[s] == b[s]) {}
    assert a == b;
  }

  /** A state commit leaves every chain index alone. */
  lemma CommitKeepsChain(d: Disk, dirty: Store, code: map<Bytes, Bytes>, k: DbKey)
    requires !k.Leaf? && !k.Code?
    ensures var d' := d + Batch(dirty, code);
      (Slot(k) in d' <==> Slot(k) in d) && (Slot(k) in d ==> d'[Slot(k)] == d[Slot(k)])
  {
  }
}
