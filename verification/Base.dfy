/** Vocabulary shared by every component: optional values, byte strings, the big-endian
    encodings of go-ethereum's fixed-width types, and transactions. */
module Base {
  datatype Option<+T> = None | Some(value: T)

  type byte = b: int | 0 <= b < 256
  type Bytes = seq<byte>

  /** 20-byte account addresses and 32-byte words, read as unsigned integers. */
  type Address = nat

  const TWO_63: nat := 0x8000_0000_0000_0000
  const TWO_64: nat := 0x1_0000_0000_0000_0000
  const TWO_160: nat := 0x1_0000000000_0000000000_0000000000_0000000000
  const TWO_256: nat := 0x1_0000000000000000_0000000000000000_0000000000000000_0000000000000000

  /** A signed transaction as the executor sees it. `sender` is the recovered signer. */
  datatype Tx = Tx(hash: nat, sender: Address, to: Option<Address>, gasPrice: nat, tipCap: nat)

  /** State keys and values are raw bytes; a state is a finite map. */
  type Key = Bytes
  type Value = Bytes
  type Store = map<Key, Value>

  /** Reading an absent key gives nil, which every reader treats like the empty value. */
  function Fetch(s: Store, k: Key): (v: Value) {
    if k in s then s[k] else []
  }

  // ---------- Big-endian integers ----------

  /** Minimal big-endian bytes: `big.Int.Bytes` and `uint256.Int.Bytes`. Zero is the empty string. */
  function MinBytes(n: nat): (b: Bytes)
    ensures FromBytes(b) == n
    ensures b != [] ==> b[0] != 0
    decreases n
  {
    if n == 0 then [] else
      var hi := MinBytes(n / 256);
      var b := hi + [n % 256];
      assert b[..|b| - 1] == hi;
      b
  }

  /** `SetBytes`: the unsigned integer a byte string denotes. */
  function FromBytes(b: Bytes): (n: nat)
  {
    if b == [] then 0 else 256 * FromBytes(b[..|b| - 1]) + b[|b| - 1]
  }

  /** The last `width` bytes of the big-endian form: `common.BigToHash`, `PutUint64`, ... */
  function FixedBytes(n: nat, width: nat): (b: Bytes)
    ensures |b| == width
  {
    if width == 0 then [] else FixedBytes(n / 256, width - 1) + [n % 256]
  }

  function Pow256(width: nat): (p: nat)
    ensures p > 0
  {
    if width == 0 then 1 else 256 * Pow256(width - 1)
  }

  /** A fixed-width encoding keeps exactly the low `width` bytes. */
  lemma {:induction false} FixedBytesValue(n: nat, width: nat)
    ensures FromBytes(FixedBytes(n, width)) == n % Pow256(width)
  {
    if width > 0 {
      var b := FixedBytes(n, width);
      var hi := FixedBytes(n / 256, width - 1);
      assert b[..width - 1] == hi;
      FixedBytesValue(n / 256, width - 1);
      ModSplit(n, Pow256(width - 1));
    }
  }

  lemma ModSplit(n: nat, m: nat)
    requires m > 0
    ensures 256 * (n / 256 % m) + n % 256 == n % (256 * m)
  {
    var q, r := n / 256 / m, n / 256 % m;
    var low := 256 * r + n % 256;
    assert n / 256 == q * m + r;
    assert n == q * (256 * m) + low;
    assert 0 <= low < 256 * m;
    DivModUnique(n, 256 * m, q, low);
  }

  lemma DivModUnique(n: int, d: int, q: int, r: int)
    requires d > 0 && n == q * d + r && 0 <= r < d
    ensures n / d == q && n % d == r
  {
    var k := n / d - q;
    assert k * d == r - n % d;
    assert k >= 1 ==> k * d >= d;
    assert k <= -1 ==> k * d <= -d;
  }

  /** Values that fit their width are told apart by their encodings. */
  lemma FixedBytesInjective(m: nat, n: nat, width: nat)
    requires m < Pow256(width) && n < Pow256(width)
    requires FixedBytes(m, width) == FixedBytes(n, width)
    ensures m == n
  {
    FixedBytesValue(m, width);
    FixedBytesValue(n, width);
    SmallMod(m, Pow256(width));
    SmallMod(n, Pow256(width));
  }

  lemma SmallMod(n: nat, d: nat)
    requires n < d
    ensures n % d == n
  {
  }

  lemma WordSizes()
    ensures Pow256(8) == TWO_64
    ensures Pow256(20) == TWO_160
    ensures Pow256(32) == TWO_256
  {
    assert Pow256(4) == 0x1_0000_0000;
    assert Pow256(8) == 0x1_0000_0000_0000_0000;
    assert Pow256(12) == 0x1_0000_0000_0000_0000_0000_0000;
    assert Pow256(16) == 0x1_0000_0000_0000_0000_0000_0000_0000_0000;
    assert Pow256(20) == TWO_160;
    assert Pow256(24) == 0x1_0000000000000000_0000000000000000_0000000000000000;
    assert Pow256(28) == 0x1_00000000_0000000000000000_0000000000000000_0000000000000000;
    assert Pow256(32) == TWO_256;
  }

  // ---------- Sums ----------

  function Total(xs: seq<nat>): (n: nat) {
    if xs == [] then 0 else Total(xs[..|xs| - 1]) + xs[|xs| - 1]
  }

  lemma {:induction false} TotalUpdate(xs: seq<nat>, i: nat, v: nat)
    requires i < |xs|
    ensures Total(xs[i := v]) + xs[i] == Total(xs) + v
  {
    var n := |xs| - 1;
    if i == n {
      assert xs[i := v][..n] == xs[..n];
    } else {
      assert xs[i := v][..n] == xs[..n][i := v];
      TotalUpdate(xs[..n], i, v);
    }
  }

  lemma {:induction false} TotalZero(xs: seq<nat>)
    requires forall i :: 0 <= i < |xs| ==> xs[i] == 0
    ensures Total(xs) == 0
  {
    if xs != [] { TotalZero(xs[..|xs| - 1]); }
  }

  lemma ModAdd(a: nat, b: nat, m: nat)
    requires m > 0
    ensures (a % m + b) % m == (a + b) % m
  {
    var q := a / m;
    var r := (a % m + b) % m;
    var q' := (a % m + b) / m;
    assert a == q * m + a % m;
    assert a + b == (q + q') * m + r;
    DivModUnique(a + b, m, q + q', r);
  }
}
