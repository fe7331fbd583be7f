/** Reordering transactions. Two orders of the same block positions that agree on every clashing
    pair lead to the same state; and when the waves reverse a clashing pair, some programs
    can tell. */
module Traces {
  import opened Base
  import opened Scheduler
  import opened Wave
  import Order

  /** The keys of an address set, apart from the shared ones. */
  ghost function KeysOf(foot: set<Address>, owner: Key -> Address, shared: set<Key>): (ks: iset<Key>) {
    iset k: Key | owner(k) in foot && k !in shared
  }

  /** A block's transactions with their programs; every program keeps to the keys of its sender
      and recipient, and uses the shared keys blindly. */
  ghost predicate FramedBlock(txs: seq<Tx>, ps: seq<Program>, owner: Key -> Address, shared: set<Key>) {
    && |ps| == |txs|
    && (forall i :: 0 <= i < |txs| ==> Fits(ps[i], KeysOf(Footprint(txs[i]), owner, shared), shared))
  }

  /** Running block positions one at a time in the given order. */
  ghost function SeqAt(ps: seq<Program>, order: seq<nat>, base: Store): (s: Store)
    requires InRange(order, |ps|)
  {
    if order == [] then base else
      Effect(ps[order[|order| - 1]], SeqAt(ps, order[..|order| - 1], base))
  }

  lemma SeqAtSnoc(ps: seq<Program>, order: seq<nat>, i: nat, base: Store)
    requires InRange(order, |ps|) && i < |ps|
    ensures InRange(order + [i], |ps|) && SeqAt(ps, order + [i], base) == Effect(ps[i], SeqAt(ps, order, base))
  {
    assert (order + [i])[..|order|] == order;
  }

  lemma {:induction false} SeqAtConcat(ps: seq<Program>, a: seq<nat>, b: seq<nat>, base: Store)
    requires InRange(a, |ps|) && InRange(b, |ps|)
    ensures InRange(a + b, |ps|) && SeqAt(ps, a + b, base) == SeqAt(ps, b, SeqAt(ps, a, base))
  {
    if b == [] {
      assert a + b == a;
    } else {
      var b0, i := b[..|b| - 1], b[|b| - 1];
      assert a + b == (a + b0) + [i] && b == b0 + [i];
      SeqAtConcat(ps, a, b0, base);
      SeqAtSnoc(ps, a + b0, i, base);
      SeqAtSnoc(ps, b0, i, SeqAt(ps, a, base));
    }
  }

  // ---------- Commuting ----------

  lemma AgreeOutside(a: Store, b: Store, own: iset<Key>, shared: set<Key>)
    requires a - shared == b - shared && forall k :: k in shared ==> k !in own
    ensures Agree(a, b, own)
  {
    forall k | k in own ensures Fetch(a, k) == Fetch(b, k) {
      FetchOutside(a, shared, k);
      FetchOutside(b, shared, k);
    }
  }

  /** States equal outside the shared keys stay so, and a transaction ends alike on both. */
  lemma EffectSame(p: Program, own: iset<Key>, shared: set<Key>, a: Store, b: Store)
    requires Fits(p, own, shared) && a - shared == b - shared
    ensures Effect(p, a) - shared == Effect(p, b) - shared && SoloOut(p, a) == SoloOut(p, b)
  {
    hide Effect, Delta, SoloOut, Framed, Blind;
    AgreeOutside(a, b, own, shared);
    DeltaTwins(p, own, shared, a, b);
    EffectIsDelta(p, shared, a);
    EffectIsDelta(p, shared, b);
  }

  /** Running one transaction does not show on disjoint keys. */
  lemma EffectUnseen(p: Program, own: iset<Key>, other: iset<Key>, shared: set<Key>, base: Store)
    requires Fits(p, own, shared) && own !! other && forall k :: k in shared ==> k !in other
    ensures Agree(base, Effect(p, base), other)
  {
    hide Effect, Delta, Framed, Blind;
    EffectIsDelta(p, shared, base);
    DeltaOwned(p, own, shared, base);
    forall k | k in other ensures Fetch(base, k) == Fetch(Effect(p, base), k) {
      FetchOutside(base, shared, k);
      FetchOutside(Effect(p, base), shared, k);
    }
  }

  lemma SwapUnion(s: Store, a: Store, b: Store)
    requires a.Keys !! b.Keys
    ensures s + a + b == s + b + a
  {
  }

  /** Transactions with disjoint keys commute, outside the shared ones. */
  lemma Commute(p: Program, q: Program, op: iset<Key>, oq: iset<Key>, shared: set<Key>, s: Store)
    requires Fits(p, op, shared) && Fits(q, oq, shared) && op !! oq
    ensures Effect(q, Effect(p, s)) - shared == Effect(p, Effect(q, s)) - shared
  {
    hide Effect, Delta, Framed, Blind;
    EffectUnseen(p, op, oq, shared, s);
    EffectUnseen(q, oq, op, shared, s);
    DeltaTwins(p, op, shared, s, Effect(q, s));
    DeltaTwins(q, oq, shared, s, Effect(p, s));
    DeltaOwned(p, op, shared, s);
    DeltaOwned(q, oq, shared, s);
    EffectIsDelta(p, shared, s);
    EffectIsDelta(q, shared, s);
    EffectIsDelta(q, shared, Effect(p, s));
    EffectIsDelta(p, shared, Effect(q, s));
    SwapUnion(s - shared, Delta(p, shared, s), Delta(q, shared, s));
  }

  lemma {:induction false} SeqAtSame(txs: seq<Tx>, ps: seq<Program>, owner: Key -> Address, shared: set<Key>,
                                     order: seq<nat>, a: Store, b: Store)
    requires FramedBlock(txs, ps, owner, shared) && InRange(order, |ps|) && a - shared == b - shared
    ensures SeqAt(ps, order, a) - shared == SeqAt(ps, order, b) - shared
  {
    hide Fits, Effect;
    if order != [] {
      var o, x := order[..|order| - 1], order[|order| - 1];
      SeqAtSame(txs, ps, owner, shared, o, a, b);
      EffectSame(ps[x], KeysOf(Footprint(txs[x]), owner, shared), shared, SeqAt(ps, o, a), SeqAt(ps, o, b));
    }
  }

  ghost predicate ClearOf(txs: seq<Tx>, x: nat, rest: seq<nat>) {
    forall j :: 0 <= j < |rest| ==> !Clash(txs, x, rest[j])
  }

  lemma Unclashing(txs: seq<Tx>, owner: Key -> Address, shared: set<Key>, x: nat, y: nat)
    requires x < |txs| && y < |txs| && !Clash(txs, x, y)
    ensures KeysOf(Footprint(txs[x]), owner, shared) !! KeysOf(Footprint(txs[y]), owner, shared)
  {
  }

  /** A transaction can be put off past others it does not clash with. */
  lemma {:induction false} MoveToEnd(txs: seq<Tx>, ps: seq<Program>, owner: Key -> Address, shared: set<Key>, x: nat,
                                     rest: seq<nat>, base: Store)
    requires FramedBlock(txs, ps, owner, shared) && x < |ps| && InRange(rest, |ps|) && ClearOf(txs, x, rest)
    ensures SeqAt(ps, rest, Effect(ps[x], base)) - shared == Effect(ps[x], SeqAt(ps, rest, base)) - shared
  {
    hide Fits, Effect, KeysOf, Clash;
    if rest != [] {
      var r, y := rest[..|rest| - 1], rest[|rest| - 1];
      var s := SeqAt(ps, r, base);
      var ox, oy := KeysOf(Footprint(txs[x]), owner, shared), KeysOf(Footprint(txs[y]), owner, shared);
      MoveToEnd(txs, ps, owner, shared, x, r, base);
      EffectSame(ps[y], oy, shared, SeqAt(ps, r, Effect(ps[x], base)), Effect(ps[x], s));
      assert !Clash(txs, x, y);
      Unclashing(txs, owner, shared, x, y);
      Commute(ps[x], ps[y], ox, oy, shared, s);
    }
  }

  // ---------- Orders that agree on clashing pairs ----------

  ghost predicate Distinct(s: seq<nat>) {
    forall i, j :: 0 <= i < j < |s| ==> s[i] != s[j]
  }

  /** `x` comes before `y`. */
  ghost predicate Precedes(s: seq<nat>, x: nat, y: nat) {
    exists i, j :: 0 <= i < j < |s| && s[i] == x && s[j] == y
  }

  ghost predicate SameElements(a: seq<nat>, b: seq<nat>) {
    forall x: nat :: x in a <==> x in b
  }

  ghost predicate Agreeing(txs: seq<Tx>, a: seq<nat>, b: seq<nat>) {
    forall x: nat, y: nat :: Precedes(a, x, y) && Clash(txs, x, y) ==> Precedes(b, x, y)
  }

  lemma DropIndex(s: seq<nat>, j: nat)
    requires j < |s| && Distinct(s)
    ensures var r := s[..j] + s[j + 1..];
      && Distinct(r)
      && (forall x: nat :: x in r <==> x in s && x != s[j])
      && (forall x: nat, y: nat :: Precedes(r, x, y) ==> Precedes(s, x, y))
  {
    var r := s[..j] + s[j + 1..];
    forall x: nat ensures x in r <==> x in s && x != s[j] {
      if x in s && x != s[j] {
        var i :| 0 <= i < |s| && s[i] == x;
        assert r[if i < j then i else i - 1] == x;
      }
    }
    forall x: nat, y: nat | Precedes(r, x, y) ensures Precedes(s, x, y) {
      var i, k :| 0 <= i < k < |r| && r[i] == x && r[k] == y;
      var i', k' := if i < j then i else i + 1, if k < j then k else k + 1;
      assert s[i'] == x && s[k'] == y && i' < k';
    }
  }

  lemma NothingAfterLast(s: seq<nat>, y: nat)
    requires s != [] && Distinct(s)
    ensures !Precedes(s, s[|s| - 1], y)
  {
  }

  lemma AgreeingDrops(txs: seq<Tx>, a: seq<nat>, b: seq<nat>, j: nat)
    requires Distinct(a) && Distinct(b) && b != [] && j < |a| && a[j] == b[|b| - 1]
    requires Agreeing(txs, a, b) && SameElements(a, b)
    ensures Agreeing(txs, a[..j] + a[j + 1..], b[..|b| - 1])
    ensures SameElements(a[..j] + a[j + 1..], b[..|b| - 1])
    ensures ClearOf(txs, a[j], a[j + 1..])
  {
    var r, b0 := a[..j] + a[j + 1..], b[..|b| - 1];
    DropIndex(a, j);
    DropIndex(b, |b| - 1);
    assert b0 == b[..|b| - 1] + b[|b|..];
    forall x: nat, y: nat | Precedes(r, x, y) && Clash(txs, x, y) ensures Precedes(b0, x, y) {
      assert Precedes(b, x, y);
      var i, k :| 0 <= i < k < |b| && b[i] == x && b[k] == y;
      assert y in r;
      assert k < |b| - 1;
      assert b0[i] == x && b0[k] == y;
    }
    var post := a[j + 1..];
    forall k | 0 <= k < |post| ensures !Clash(txs, a[j], post[k]) {
      var y := post[k];
      assert a[j + 1 + k] == y;
      assert Precedes(a, a[j], y);
      NothingAfterLast(b, y);
    }
  }

  lemma NonEmptyDiffers(a: seq<nat>)
    requires a != []
    ensures !SameElements(a, [])
  {
    assert a[0] in a;
  }

  lemma PutOff(txs: seq<Tx>, ps: seq<Program>, owner: Key -> Address, shared: set<Key>, a: seq<nat>, j: nat,
               base: Store)
    requires FramedBlock(txs, ps, owner, shared) && InRange(a, |ps|) && j < |a| && ClearOf(txs, a[j], a[j + 1..])
    ensures InRange(a[..j] + a[j + 1..], |ps|)
    ensures SeqAt(ps, a, base) - shared == Effect(ps[a[j]], SeqAt(ps, a[..j] + a[j + 1..], base)) - shared
  {
    hide Effect, FramedBlock;
    var pre, x, post := a[..j], a[j], a[j + 1..];
    assert a == pre + [x] + post;
    SeqAtSnoc(ps, pre, x, base);
    SeqAtConcat(ps, pre + [x], post, base);
    MoveToEnd(txs, ps, owner, shared, x, post, SeqAt(ps, pre, base));
    SeqAtConcat(ps, pre, post, base);
  }

  lemma LastSame(txs: seq<Tx>, ps: seq<Program>, owner: Key -> Address, shared: set<Key>, x: nat, a: Store, b: Store)
    requires FramedBlock(txs, ps, owner, shared) && x < |ps| && a - shared == b - shared
    ensures Effect(ps[x], a) - shared == Effect(ps[x], b) - shared
  {
    hide Fits, Effect, SoloOut;
    EffectSame(ps[x], KeysOf(Footprint(txs[x]), owner, shared), shared, a, b);
  }

  /** The last of one order, in the other. */
  lemma LastIn(a: seq<nat>, b: seq<nat>) returns (j: nat)
    requires b != [] && SameElements(a, b)
    ensures j < |a| && a[j] == b[|b| - 1]
  {
    assert b[|b| - 1] in b;
    j :| 0 <= j < |a| && a[j] == b[|b| - 1];
  }

  lemma DropStays(s: seq<nat>, j: nat, n: nat)
    requires j < |s| && Distinct(s) && InRange(s, n)
    ensures Distinct(s[..j] + s[j + 1..]) && InRange(s[..j] + s[j + 1..], n) && s[j] < n
  {
    DropIndex(s, j);
  }

  /** Orders of the same positions that agree on clashing pairs give the same state outside the
      shared keys. */
  lemma {:induction false} TraceEquivalent(txs: seq<Tx>, ps: seq<Program>, owner: Key -> Address, shared: set<Key>,
                                           a: seq<nat>, b: seq<nat>, base: Store)
    requires FramedBlock(txs, ps, owner, shared) && InRange(a, |ps|) && InRange(b, |ps|)
    requires Distinct(a) && Distinct(b) && SameElements(a, b) && Agreeing(txs, a, b)
    ensures SeqAt(ps, a, base) - shared == SeqAt(ps, b, base) - shared
    decreases |b|
  {
    hide FramedBlock, Effect, SeqAt, Distinct, SameElements, Agreeing, InRange, ClearOf;
    if b == [] {
      if a != [] { NonEmptyDiffers(a); }
    } else {
      var x, b0 := b[|b| - 1], b[..|b| - 1];
      var j := LastIn(a, b);
      var r := a[..j] + a[j + 1..];
      AgreeingDrops(txs, a, b, j);
      DropStays(a, j, |ps|);
      DropStays(b, |b| - 1, |ps|);
      assert b0 == b[..|b| - 1] + b[|b|..] && b == b0 + [x];
      SeqAtSnoc(ps, b0, x, base);
      PutOff(txs, ps, owner, shared, a, j, base);
      TraceEquivalent(txs, ps, owner, shared, r, b0, base);
      LastSame(txs, ps, owner, shared, x, SeqAt(ps, r, base), SeqAt(ps, b0, base));
    }
  }

  /** Positions that do not clash at all may run in any order. */
  lemma AnyOrder(txs: seq<Tx>, ps: seq<Program>, owner: Key -> Address, shared: set<Key>, a: seq<nat>, b: seq<nat>,
                 base: Store)
    requires FramedBlock(txs, ps, owner, shared) && InRange(a, |ps|) && InRange(b, |ps|)
    requires Distinct(a) && Distinct(b) && SameElements(a, b)
    requires forall x, y :: x in a && y in a && x != y ==> !Clash(txs, x, y)
    ensures SeqAt(ps, a, base) - shared == SeqAt(ps, b, base) - shared
  {
    forall x: nat, y: nat | Precedes(a, x, y) ensures !Clash(txs, x, y) {
      var i, j :| 0 <= i < j < |a| && a[i] == x && a[j] == y;
      assert x in a && y in a;
    }
    TraceEquivalent(txs, ps, owner, shared, a, b, base);
  }

  // ---------- The waves one after the other ----------

  /** The positions of the first `w` waves, wave after wave. */
  ghost function Flat(lv: seq<nat>, w: nat): (s: seq<nat>)
    ensures InRange(s, |lv|)
  {
    if w == 0 then [] else Flat(lv, w - 1) + Members(lv, w - 1, |lv|)
  }

  lemma FlatEmpty(lv: seq<nat>)
    ensures Flat(lv, 0) == [] && Rising(lv, Flat(lv, 0))
  {
  }

  lemma FlatNext(lv: seq<nat>, w: nat)
    ensures Flat(lv, w + 1) == Flat(lv, w) + Members(lv, w, |lv|)
  {
  }

  lemma InConcat(a: seq<nat>, b: seq<nat>, i: nat)
    ensures i in a + b <==> i in a || i in b
  {
  }

  lemma MemberAt(lv: seq<nat>, w: nat, i: nat)
    ensures i in Members(lv, w, |lv|) <==> i < |lv| && lv[i] == w
  {
    MembersAscend(lv, w, |lv|);
  }

  lemma {:induction false} FlatMember(lv: seq<nat>, w: nat, i: nat)
    ensures i in Flat(lv, w) <==> i < |lv| && lv[i] < w
  {
    hide *;
    if w == 0 {
      FlatEmpty(lv);
    } else {
      FlatMember(lv, w - 1, i);
      FlatNext(lv, w - 1);
      InConcat(Flat(lv, w - 1), Members(lv, w - 1, |lv|), i);
      MemberAt(lv, w - 1, i);
    }
  }

  /** Levels never fall along the order, and positions differ. */
  ghost predicate Rising(lv: seq<nat>, s: seq<nat>) {
    InRange(s, |lv|) && forall i, j :: 0 <= i < j < |s| ==> s[i] != s[j] && lv[s[i]] <= lv[s[j]]
  }

  lemma RisingConcat(lv: seq<nat>, s: seq<nat>, t: seq<nat>, w: nat)
    requires Rising(lv, s) && Ascending(t, |lv|)
    requires forall i: nat :: i in s ==> i < |lv| && lv[i] < w
    requires forall i: nat :: i in t ==> i < |lv| && lv[i] == w
    ensures Rising(lv, s + t)
  {
    forall i | 0 <= i < |s| ensures lv[s[i]] < w { assert s[i] in s; }
    forall i | 0 <= i < |t| ensures lv[t[i]] == w { assert t[i] in t; }
  }

  lemma {:induction false} FlatRising(lv: seq<nat>, w: nat)
    ensures Rising(lv, Flat(lv, w))
  {
    hide *;
    if w == 0 {
      FlatEmpty(lv);
    } else {
      FlatRising(lv, w - 1);
      FlatNext(lv, w - 1);
      var f := Flat(lv, w - 1);
      forall i: nat | i in f ensures i < |lv| && lv[i] < w - 1 { FlatMember(lv, w - 1, i); }
      MembersAscend(lv, w - 1, |lv|);
      RisingConcat(lv, f, Members(lv, w - 1, |lv|), w - 1);
    }
  }

  lemma FlatElements(lv: seq<nat>, w: nat)
    ensures forall i: nat :: i in Flat(lv, w) <==> i < |lv| && lv[i] < w
    ensures Distinct(Flat(lv, w)) && Rising(lv, Flat(lv, w))
  {
    hide Flat;
    forall i: nat ensures i in Flat(lv, w) <==> i < |lv| && lv[i] < w { FlatMember(lv, w, i); }
    FlatRising(lv, w);
  }

  /** Block order. */
  ghost function Identity(n: nat): (s: seq<nat>)
    ensures |s| == n && InRange(s, n) && forall i :: 0 <= i < n ==> s[i] == i
  {
    seq(n, i => i)
  }

  lemma IdentityElements(n: nat)
    ensures Distinct(Identity(n))
    ensures forall i: nat :: i in Identity(n) <==> i < n
  {
    forall i: nat | i < n ensures i in Identity(n) { assert Identity(n)[i] == i; }
  }

  /** With the order of clashing pairs kept, wave after wave equals block order, for every block
      of framed programs. */
  lemma KeptOrderIsBlockOrder(txs: seq<Tx>, lv: seq<nat>, w: nat, ps: seq<Program>, owner: Key -> Address,
                              shared: set<Key>, base: Store)
    requires FramedBlock(txs, ps, owner, shared) && |lv| == |txs|
    requires FirstFit(txs, lv) && forall i :: 0 <= i < |lv| ==> lv[i] < w
    requires Order.OrderKept(txs, lv)
    ensures SeqAt(ps, Flat(lv, w), base) - shared == SeqAt(ps, Identity(|txs|), base) - shared
  {
    hide Fits;
    var f, id := Flat(lv, w), Identity(|txs|);
    FlatElements(lv, w);
    IdentityElements(|txs|);
    forall x: nat, y: nat | Precedes(f, x, y) && Clash(txs, x, y) ensures Precedes(id, x, y) {
      var i, j :| 0 <= i < j < |f| && f[i] == x && f[j] == y;
      ClashApart(txs, lv, x, y);
      assert Clash(txs, y, x);
      assert x < y;
      assert id[x] == x && id[y] == y;
    }
    TraceEquivalent(txs, ps, owner, shared, f, id, base);
  }

  // ---------- A reversed pair can be told ----------

  /** Writes one value under one key, once. */
  function WriteOnce(k: Key, v: Value): (p: Program) {
    obs => if obs == [] then Write(k, v) else Halt(Applied(0, false))
  }

  function Idle(): (p: Program) { obs => Halt(Skipped) }

  lemma WriteOnceEffect(k: Key, v: Value, base: Store)
    ensures Effect(WriteOnce(k, v), base) == base[k := v]
  {
    var p := WriteOnce(k, v);
    assert SoloAt(p, base, 0) == Local([], map[]);
    assert SoloAt(p, base, 1) == Local([v], map[k := v]);
    assert HaltsAt(p, base, 1);
    SoloEndIs(p, base, 1);
  }

  lemma IdleEffect(base: Store)
    ensures Effect(Idle(), base) == base
  {
    assert HaltsAt(Idle(), base, 0);
    SoloEndIs(Idle(), base, 0);
  }

  function Writer(x: nat, i: nat, j: nat, k: Key): (p: Program) {
    if x == i then WriteOnce(k, [0]) else if x == j then WriteOnce(k, [1]) else Idle()
  }

  function Writers(n: nat, i: nat, j: nat, k: Key): (ps: seq<Program>)
    ensures |ps| == n && forall x :: 0 <= x < n ==> ps[x] == Writer(x, i, j, k)
  {
    seq(n, x requires 0 <= x < n => Writer(x, i, j, k))
  }

  /** With only two writers left, the later one in the order decides. */
  lemma {:induction false} LaterWriterWins(n: nat, i: nat, j: nat, k: Key, order: seq<nat>, base: Store)
    requires i < n && j < n && i != j && InRange(order, n) && Distinct(order)
    ensures Precedes(order, i, j) ==> Fetch(SeqAt(Writers(n, i, j, k), order, base), k) == [1]
    ensures Precedes(order, j, i) ==> Fetch(SeqAt(Writers(n, i, j, k), order, base), k) == [0]
  {
    if order != [] {
      var o, x := order[..|order| - 1], order[|order| - 1];
      LaterWriterWins(n, i, j, k, o, base);
      var s := SeqAt(Writers(n, i, j, k), o, base);
      WriteOnceEffect(k, [0], s);
      WriteOnceEffect(k, [1], s);
      IdleEffect(s);
      if Precedes(order, i, j) { PrecedesInit(order, i, j); }
      if Precedes(order, j, i) { PrecedesInit(order, j, i); }
    }
  }

  lemma PrecedesInit(s: seq<nat>, x: nat, y: nat)
    requires s != [] && Distinct(s) && Precedes(s, x, y)
    ensures s[|s| - 1] == y || (s[|s| - 1] != x && Precedes(s[..|s| - 1], x, y))
  {
    var i, j :| 0 <= i < j < |s| && s[i] == x && s[j] == y;
    if j < |s| - 1 {
      var r := s[..|s| - 1];
      assert r[i] == x && r[j] == y;
    }
  }

  lemma WritersFramed(txs: seq<Tx>, i: nat, j: nat, a: Address, k: Key, owner: Key -> Address)
    requires i < |txs| && j < |txs| && owner(k) == a && a in Footprint(txs[i]) && a in Footprint(txs[j])
    ensures FramedBlock(txs, Writers(|txs|, i, j, k), owner, {})
  {
    var ps := Writers(|txs|, i, j, k);
    forall x | 0 <= x < |txs| ensures Fits(ps[x], KeysOf(Footprint(txs[x]), owner, {}), {}) {
      forall obs ensures Within(ps[x](obs), KeysOf(Footprint(txs[x]), owner, {}), {}) {}
      FitsAlone(ps[x], KeysOf(Footprint(txs[x]), owner, {}));
    }
  }

  /** Where the waves reverse a clashing pair, framed programs exist whose final state differs
      from block order. */
  lemma ReversedOrderShows(txs: seq<Tx>, lv: seq<nat>, w: nat, owner: Key -> Address, keyOf: Address -> Key,
                           base: Store)
    returns (ps: seq<Program>)
    requires |lv| == |txs| && FirstFit(txs, lv) && forall i :: 0 <= i < |lv| ==> lv[i] < w
    requires !Order.OrderKept(txs, lv)
    requires forall a: Address :: owner(keyOf(a)) == a
    ensures FramedBlock(txs, ps, owner, {})
    ensures SeqAt(ps, Flat(lv, w), base) != SeqAt(ps, Identity(|txs|), base)
  {
    var i: nat, j: nat :| i < j < |lv| && Clash(txs, i, j) && lv[i] >= lv[j];
    var a :| a in Footprint(txs[i]) && a in Footprint(txs[j]);
    hide FirstFit, Flat, SeqAt, Writers, FramedBlock, Footprint, Precedes;
    var k := keyOf(a);
    ps := Writers(|txs|, i, j, k);
    WritersFramed(txs, i, j, a, k, owner);
    ClashApart(txs, lv, i, j);
    FlatElements(lv, w);
    IdentityElements(|txs|);
    ReversedInFlat(lv, w, i, j);
    LaterWriterWins(|txs|, i, j, k, Flat(lv, w), base);
    LaterWriterWins(|txs|, i, j, k, Identity(|txs|), base);
  }

  lemma ReversedInFlat(lv: seq<nat>, w: nat, i: nat, j: nat)
    requires i < j < |lv| && lv[j] < lv[i] < w
    ensures Precedes(Flat(lv, w), j, i) && Precedes(Identity(|lv|), i, j)
  {
    hide Flat;
    var f, id := Flat(lv, w), Identity(|lv|);
    FlatElements(lv, w);
    assert id[i] == i && id[j] == j;
    assert i in f && j in f;
    var x :| 0 <= x < |f| && f[x] == i;
    var y :| 0 <= y < |f| && f[y] == j;
    assert y < x;
  }

  /** Wave after wave gives the state of block order. */
  ghost predicate LikeBlockOrder(txs: seq<Tx>, lv: seq<nat>, w: nat, ps: seq<Program>, base: Store)
    requires |ps| == |txs| == |lv|
  {
    SeqAt(ps, Flat(lv, w), base) == SeqAt(ps, Identity(|txs|), base)
  }

  /** Wave after wave equals block order, for all programs that keep to their footprints and all
      starting states, exactly when the waves keep the order of clashing pairs. */
  lemma BlockOrderExactly(txs: seq<Tx>, lv: seq<nat>, w: nat, owner: Key -> Address, keyOf: Address -> Key)
    requires |lv| == |txs| && FirstFit(txs, lv) && forall i :: 0 <= i < |lv| ==> lv[i] < w
    requires forall a: Address :: owner(keyOf(a)) == a
    ensures Order.OrderKept(txs, lv) <==>
      forall ps: seq<Program>, base: Store :: FramedBlock(txs, ps, owner, {}) ==> LikeBlockOrder(txs, lv, w, ps, base)
  {
    hide Fits, FirstFit, Order.OrderKept;
    if Order.OrderKept(txs, lv) {
      forall ps: seq<Program>, base: Store | FramedBlock(txs, ps, owner, {})
        ensures LikeBlockOrder(txs, lv, w, ps, base)
      {
        KeptOrderIsBlockOrder(txs, lv, w, ps, owner, {}, base);
        NothingShared(SeqAt(ps, Flat(lv, w), base));
        NothingShared(SeqAt(ps, Identity(|txs|), base));
      }
    } else {
      var base: Store := map[];
      var ps := ReversedOrderShows(txs, lv, w, owner, keyOf, base);
      assert !LikeBlockOrder(txs, lv, w, ps, base);
    }
  }
}
