/** Accounts and contract storage inside a state: the keys of an account's fields, the byte
    encodings of their values, and the plain maps they amount to. The Keccak hash of a key is
    modelled by its preimage: the only property of it used is that distinct inputs have
    distinct keys. */
module Accounts {
  import opened Base

  // ---------- Keys ----------

  datatype Field = NonceOf | BalanceOf | CodeHashOf | SlotOf(k: nat)

  predicate ValidField(a: Address, f: Field) {
    a < TWO_160 && (f.SlotOf? ==> f.k < TWO_256)
  }

  /** `nonceKey`, `balanceKey`, `codeHashKey` and `storageKey`. */
  function FieldKey(a: Address, f: Field): (k: Key) {
    FixedBytes(a, 20) + match f
      case NonceOf => [0]
      case BalanceOf => [1]
      case CodeHashOf => [2]
      case SlotOf(k) => FixedBytes(k, 32)
  }

  lemma FieldKeysDiffer(a: Address, f: Field, b: Address, g: Field)
    requires ValidField(a, f) && ValidField(b, g) && FieldKey(a, f) == FieldKey(b, g)
    ensures a == b && f == g
  {
    var x, y := FieldKey(a, f), FieldKey(b, g);
    WordSizes();
    assert x[..20] == FixedBytes(a, 20) && y[..20] == FixedBytes(b, 20);
    FixedBytesInjective(a, b, 20);
    if f.SlotOf? && g.SlotOf? {
      assert x[20..] == FixedBytes(f.k, 32) && y[20..] == FixedBytes(g.k, 32);
      FixedBytesInjective(f.k, g.k, 32);
    } else {
      assert |x| == |y|;
      assert x[20] == y[20];
    }
  }

  /** The keys taken apart: twenty address bytes, then a zero, one or two for nonce, balance and code
      hash, or the 32 bytes of a storage slot. */
  lemma FieldKeyLayout(a: Address, f: Field)
    requires ValidField(a, f)
    ensures var k := FieldKey(a, f);
      && |k| == (if f.SlotOf? then 52 else 21) && FromBytes(k[..20]) == a
      && (f == NonceOf ==> k[20] == 0) && (f == BalanceOf ==> k[20] == 1) && (f == CodeHashOf ==> k[20] == 2)
      && (f.SlotOf? ==> FromBytes(k[20..]) == f.k)
  {
    var k := FieldKey(a, f);
    WordSizes();
    assert k[..20] == FixedBytes(a, 20);
    FixedBytesValue(a, 20);
    SmallMod(a, TWO_160);
    if f.SlotOf? {
      assert k[20..] == FixedBytes(f.k, 32);
      FixedBytesValue(f.k, 32);
      SmallMod(f.k, TWO_256);
    }
  }

  /** The address at the front of a key. */
  function AddressIn(k: Key): (a: Address) {
    if |k| < 20 then 0 else FromBytes(k[..20])
  }

  lemma AddressOfField(a: Address, f: Field)
    requires a < TWO_160
    ensures AddressIn(FieldKey(a, f)) == a
  {
    assert FieldKey(a, f)[..20] == FixedBytes(a, 20);
    WordSizes();
    FixedBytesValue(a, 20);
    SmallMod(a, TWO_160);
  }

  // ---------- Values ----------

  /** `GetBalance` and `GetState`: at most 32 bytes count. */
  function Word(v: Store, a: Address, f: Field): (n: nat)
    ensures n < TWO_256
  {
    FromBytes(Fetch(v, FieldKey(a, f))) % TWO_256
  }

  function PutBalance(v: Store, a: Address, n: nat): (r: Store) {
    v[FieldKey(a, BalanceOf) := MinBytes(n)]
  }

  function PutSlot(v: Store, a: Address, k: nat, n: nat): (r: Store) {
    v[FieldKey(a, SlotOf(k)) := FixedBytes(n, 32)]
  }

  /** Writing one balance shows in that balance and nowhere else. */
  lemma BalanceRoundTrip(v: Store, a: Address, n: nat, b: Address, f: Field)
    requires a < TWO_160 && ValidField(b, f) && n < TWO_256
    ensures Word(PutBalance(v, a, n), b, f) == if a == b && f == BalanceOf then n else Word(v, b, f)
  {
    SmallMod(n, TWO_256);
    if FieldKey(a, BalanceOf) == FieldKey(b, f) { FieldKeysDiffer(a, BalanceOf, b, f); }
  }

  /** Writing one storage slot shows in that slot and nowhere else; a word keeps 256 bits. */
  lemma SlotRoundTrip(v: Store, a: Address, k: nat, n: nat, b: Address, f: Field)
    requires ValidField(a, SlotOf(k)) && ValidField(b, f)
    ensures Word(PutSlot(v, a, k, n), b, f) == if a == b && f == SlotOf(k) then n % TWO_256 else Word(v, b, f)
  {
    WordSizes();
    FixedBytesValue(n, 32);
    SmallMod(n % TWO_256, TWO_256);
    if FieldKey(a, SlotOf(k)) == FieldKey(b, f) { FieldKeysDiffer(a, SlotOf(k), b, f); }
  }

  // ---------- Grants ----------

  /** A balance after `AddBalance`. */
  function Granted(s: Store, a: Address, n: nat): (v: Value) {
    MinBytes((Word(s, a, BalanceOf) + n) % TWO_256)
  }

  ghost predicate RealAddresses(alloc: map<Address, nat>) {
    forall a :: a in alloc ==> a < TWO_160
  }

  /** What adding an allocation to the balances of a state writes. */
  function Grants(s: Store, alloc: map<Address, nat>): (d: Store) {
    var ks := set a | a in alloc :: FieldKey(a, BalanceOf);
    map k | k in ks && AddressIn(k) in alloc :: Granted(s, AddressIn(k), alloc[AddressIn(k)])
  }

  lemma GrantsAt(s: Store, alloc: map<Address, nat>, k: Key)
    requires RealAddresses(alloc)
    ensures k in Grants(s, alloc) <==> exists a :: a in alloc && k == FieldKey(a, BalanceOf)
    ensures forall a :: a in alloc && k == FieldKey(a, BalanceOf) ==>
      k in Grants(s, alloc) && Grants(s, alloc)[k] == Granted(s, a, alloc[a])
  {
    hide FieldKey, AddressIn, Granted;
    forall a | a in alloc ensures AddressIn(FieldKey(a, BalanceOf)) == a { AddressOfField(a, BalanceOf); }
  }

  /** Adding the allocation of one more address. */
  lemma GrantsAdd(s: Store, alloc: map<Address, nat>, left: set<Address>, a: Address)
    requires RealAddresses(alloc) && a in left && a in alloc
    ensures Grants(s, alloc - (left - {a})) ==
      Grants(s, alloc - left)[FieldKey(a, BalanceOf) := Granted(s, a, alloc[a])]
    ensures FieldKey(a, BalanceOf) !in Grants(s, alloc - left)
  {
    hide FieldKey, Grants, Granted;
    var l, r := Grants(s, alloc - (left - {a})), Grants(s, alloc - left);
    var key := FieldKey(a, BalanceOf);
    forall b | b in alloc && FieldKey(b, BalanceOf) == key ensures b == a {
      FieldKeysDiffer(b, BalanceOf, a, BalanceOf);
    }
    GrantsAt(s, alloc - left, key);
    forall k: Key
      ensures k in l <==> k in r || k == key
      ensures k in l ==> l[k] == if k == key then Granted(s, a, alloc[a]) else r[k]
    {
      GrantsAt(s, alloc - (left - {a}), k);
      GrantsAt(s, alloc - left, k);
    }
    assert l == r[key := Granted(s, a, alloc[a])];
  }

  /** Every balance grows by its allocation, and nothing else changes. */
  lemma GrantsRead(s: Store, alloc: map<Address, nat>, a: Address, f: Field)
    requires RealAddresses(alloc) && ValidField(a, f)
    ensures Word(s + Grants(s, alloc), a, f) ==
      if f == BalanceOf && a in alloc then (Word(s, a, BalanceOf) + alloc[a]) % TWO_256 else Word(s, a, f)
  {
    hide Grants;
    var k := FieldKey(a, f);
    GrantsAt(s, alloc, k);
    forall b | b in alloc && k == FieldKey(b, BalanceOf) ensures b == a && f == BalanceOf {
      FieldKeysDiffer(a, f, b, BalanceOf);
    }
    if f == BalanceOf && a in alloc {
      SmallMod((Word(s, a, BalanceOf) + alloc[a]) % TWO_256, TWO_256);
    }
  }

  // ---------- Nonces ----------

  /** `big.NewInt(int64(nonce)).Bytes()`: the absolute value of the signed reading. */
  function NonceBytes(n: nat): (b: Bytes)
    requires n < TWO_64
  {
    MinBytes(if n < TWO_63 then n else TWO_64 - n)
  }

  function NonceIn(b: Bytes): (n: nat) {
    FromBytes(b) % TWO_64
  }

  /** A nonce survives being stored exactly up to 2^63. */
  lemma NonceRoundTripExactly(n: nat)
    requires n < TWO_64
    ensures NonceIn(NonceBytes(n)) == n <==> n <= TWO_63
    ensures n > TWO_63 ==> NonceIn(NonceBytes(n)) == TWO_64 - n
  {
    SmallMod(n, TWO_64);
    if n >= TWO_63 { SmallMod(TWO_64 - n, TWO_64); }
  }

  // ---------- Plain maps ----------

  /** Balances and storage words, zero where absent. */
  datatype World = World(bal: map<Address, nat>, words: map<(Address, nat), nat>)

  function Bal(w: World, a: Address): (n: nat) { if a in w.bal then w.bal[a] else 0 }

  function At(w: World, a: Address, k: nat): (n: nat) { if (a, k) in w.words then w.words[(a, k)] else 0 }

  function WithBal(w: World, a: Address, n: nat): (r: World) { w.(bal := w.bal[a := n]) }

  function WithAt(w: World, a: Address, k: nat, n: nat): (r: World) { w.(words := w.words[(a, k) := n]) }

  /** A state reads as the given maps. */
  ghost predicate Reads(v: Store, w: World) {
    && (forall a: Address :: a < TWO_160 ==> Word(v, a, BalanceOf) == Bal(w, a))
    && (forall a: Address, k: nat :: a < TWO_160 && k < TWO_256 ==> Word(v, a, SlotOf(k)) == At(w, a, k))
  }

  lemma ReadsBalance(v: Store, w: World, a: Address)
    requires Reads(v, w) && a < TWO_160
    ensures Word(v, a, BalanceOf) == Bal(w, a)
  {
  }

  lemma ReadsPutBalance(v: Store, w: World, a: Address, n: nat)
    requires Reads(v, w) && a < TWO_160 && n < TWO_256
    ensures Reads(PutBalance(v, a, n), WithBal(w, a, n))
  {
    hide Word, PutBalance;
    forall b: Address | b < TWO_160
      ensures Word(PutBalance(v, a, n), b, BalanceOf) == Bal(WithBal(w, a, n), b)
    {
      BalanceRoundTrip(v, a, n, b, BalanceOf);
    }
    forall b: Address, k: nat | b < TWO_160 && k < TWO_256
      ensures Word(PutBalance(v, a, n), b, SlotOf(k)) == At(WithBal(w, a, n), b, k)
    {
      BalanceRoundTrip(v, a, n, b, SlotOf(k));
    }
  }

  lemma ReadsPutSlot(v: Store, w: World, a: Address, k: nat, n: nat)
    requires Reads(v, w) && a < TWO_160 && k < TWO_256
    ensures Reads(PutSlot(v, a, k, n), WithAt(w, a, k, n % TWO_256))
  {
    hide Word, PutSlot;
    var w' := WithAt(w, a, k, n % TWO_256);
    forall b: Address | b < TWO_160
      ensures Word(PutSlot(v, a, k, n), b, BalanceOf) == Bal(w', b)
    {
      SlotRoundTrip(v, a, k, n, b, BalanceOf);
    }
    forall b: Address, j: nat | b < TWO_160 && j < TWO_256
      ensures Word(PutSlot(v, a, k, n), b, SlotOf(j)) == At(w', b, j)
    {
      SlotRoundTrip(v, a, k, n, b, SlotOf(j));
    }
  }

  /** The balances and storage words of a state. */
  ghost function WorldOf(s: Store): (w: World) {
    World(map a: nat | a < TWO_160 :: Word(s, a, BalanceOf),
          map a: nat, k: nat | a < TWO_160 && k < TWO_256 :: (a, k) := Word(s, a, SlotOf(k)))
  }

  lemma WorldReads(s: Store)
    ensures Reads(s, WorldOf(s))
  {
    hide Word;
  }
}
