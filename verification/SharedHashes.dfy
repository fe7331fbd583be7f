/** When the header's gas is the gas counter. Two transactions with one hash share a receipt slot:
    the first is executed, the second refused for its nonce, and its receipt wipes out the first,
    so the receipts lose gas the counter keeps. This module says exactly when that can happen. */
module SharedHashes {
  import opened Base
  import opened Scheduler
  import opened Wave
  import opened Traces
  import opened Receipts
  import opened BlockExec
  import opened BlockReceipts
  import opened BlockProgress
  import opened Scripts
  import A = Accounts

  // ---------- Transactions guarded by a nonce ----------

  function OnNonce(nk: Key, m: nat, g: nat): (f: Value -> Script)
    requires m + 1 < TWO_64
  {
    (v: Value) =>
      if A.NonceIn(v) == m then Put(nk, A.NonceBytes(m + 1), Done(Applied(g, false))) else Done(Rejected)
  }

  /** What the executor does with a transaction of nonce `m`: refuse it if the account's nonce is
      another, else raise the nonce and use the gas. */
  function Guard(nk: Key, m: nat, g: nat): (sc: Script)
    requires m + 1 < TWO_64
  {
    Get(nk, OnNonce(nk, m, g))
  }

  /** One transaction, in the block more than once: `a` is the copy the waves run first, `c` another
      one. All copies are guarded by the nonce; the rest of the block does nothing. */
  ghost predicate Doubled(b: Block, a: nat, c: nat, m: nat, g: nat) {
    && Scheduled(b) && HashNames(b.txs) && a < |b.txs| && c < |b.txs| && a != c && IsCopy(b, a, c) && !IsSystem(b, a)
    && (forall x :: 0 <= x < |b.txs| && x != a && IsCopy(b, a, x) ==> b.lv[a] < b.lv[x])
    && 0 < g <= BLOCK_GAS && m + 1 <= TWO_63
    && b.ps == Copies(b, a, m, g)
  }

  predicate IsCopy(b: Block, a: nat, x: nat)
    requires a < |b.txs| && x < |b.txs|
  {
    b.txs[x].hash == b.txs[a].hash
  }

  function NonceKey(b: Block, a: nat): (k: Key)
    requires a < |b.txs|
  {
    A.FieldKey(b.txs[a].sender, A.NonceOf)
  }

  function CopyAt(b: Block, a: nat, m: nat, g: nat, x: nat): (p: Program)
    requires a < |b.txs| && x < |b.txs| && m + 1 < TWO_64
  {
    if IsCopy(b, a, x) then ProgramOf(Guard(NonceKey(b, a), m, g)) else Idle()
  }

  function Copies(b: Block, a: nat, m: nat, g: nat): (ps: seq<Program>)
    requires a < |b.txs| && m + 1 < TWO_64
    ensures |ps| == |b.txs| && forall x :: 0 <= x < |b.txs| ==> ps[x] == CopyAt(b, a, m, g, x)
  {
    seq(|b.txs|, x requires 0 <= x < |b.txs| => CopyAt(b, a, m, g, x))
  }

  lemma GuardSteps(nk: Key, m: nat, g: nat, s: Store)
    requires m + 1 < TWO_64
    ensures Steps(Conf(Guard(nk, m, g), s), 2) ==
      if A.NonceIn(Fetch(s, nk)) == m then Conf(Done(Applied(g, false)), s[nk := A.NonceBytes(m + 1)])
      else Conf(Done(Rejected), s)
  {
    hide A.NonceIn, A.NonceBytes;
    var c1 := StepOf(Conf(Guard(nk, m, g), s));
    assert Steps(c1, 1) == Steps(StepOf(c1), 0);
  }

  /** The first of two runs is applied, the second refused. */
  lemma GuardEnds(nk: Key, m: nat, g: nat, s: Store)
    requires m + 1 < TWO_64
    ensures var p, ok := ProgramOf(Guard(nk, m, g)), A.NonceIn(Fetch(s, nk)) == m;
      && HaltsAt(p, s, 2)
      && SoloOut(p, s) == Some(if ok then Applied(g, false) else Rejected)
      && Effect(p, s) == if ok then s[nk := A.NonceBytes(m + 1)] else s
  {
    hide Steps, A.NonceIn, A.NonceBytes, ProgramOf, Effect, SoloOut, HaltsAt;
    GuardSteps(nk, m, g, s);
    var ok := A.NonceIn(Fetch(s, nk)) == m;
    ScriptEffect(Guard(nk, m, g), s, 2, if ok then Applied(g, false) else Rejected,
                 if ok then s[nk := A.NonceBytes(m + 1)] else s);
  }

  /** Every key belongs to the sender of the doubled transaction. */
  function AllOf(a: Address): (f: Key -> Address) { (k: Key) => a }

  lemma GuardFits(nk: Key, m: nat, g: nat, own: iset<Key>)
    requires m + 1 < TWO_64 && nk in own
    ensures Fits(ProgramOf(Guard(nk, m, g)), own, {}) && AlwaysHalts(ProgramOf(Guard(nk, m, g)))
  {
    hide A.NonceIn, A.NonceBytes, Framed, ProgramOf, HaltsAt, Fits;
    forall v ensures Keeps(OnNonce(nk, m, g)(v), own, 1) {}
    assert Keeps(Guard(nk, m, g), own, 2);
    ScriptFramed(Guard(nk, m, g), own, 2);
    FitsAlone(ProgramOf(Guard(nk, m, g)), own);
    forall s: Store ensures Halts(ProgramOf(Guard(nk, m, g)), s) { GuardEnds(nk, m, g, s); }
  }

  lemma IdleFits(own: iset<Key>)
    ensures Fits(Idle(), own, {}) && AlwaysHalts(Idle())
  {
    forall obs ensures Within(Idle()(obs), own, {}) {}
    FitsAlone(Idle(), own);
    forall s: Store ensures Halts(Idle(), s) { assert HaltsAt(Idle(), s, 0); }
  }

  lemma CopiesFit(b: Block, a: nat, c: nat, m: nat, g: nat)
    requires Doubled(b, a, c, m, g)
    ensures FramedBlock(b.txs, b.ps, AllOf(b.txs[a].sender), {})
    ensures forall p :: 0 <= p < |b.ps| ==> AlwaysHalts(b.ps[p])
  {
    hide Fits, AlwaysHalts, FirstFit, IsSystem, Idle, ProgramOf;
    var owner := AllOf(b.txs[a].sender);
    forall x | 0 <= x < |b.ps|
      ensures Fits(b.ps[x], KeysOf(Footprint(b.txs[x]), owner, {}), {}) && AlwaysHalts(b.ps[x])
    {
      var own := KeysOf(Footprint(b.txs[x]), owner, {});
      IdleFits(own);
      if IsCopy(b, a, x) {
        SameTx(b, a, x);
        GuardFits(NonceKey(b, a), m, g, own);
      }
    }
  }

  lemma SameTx(b: Block, a: nat, x: nat)
    requires HashNames(b.txs) && a < |b.txs| && x < |b.txs| && IsCopy(b, a, x)
    ensures b.txs[x] == b.txs[a] && IsSystem(b, x) == IsSystem(b, a) && SlotOf(b, x) == SlotOf(b, a)
  {
    var i, j := if a < x then a else x, if a < x then x else a;
    assert i < j ==> b.txs[i] == b.txs[j];
  }

  // ---------- The nonce ----------

  function Nonce(b: Block, a: nat, s: Store): (n: nat)
    requires a < |b.txs|
  {
    A.NonceIn(Fetch(s, NonceKey(b, a)))
  }

  ghost predicate HasCopy(b: Block, a: nat, order: seq<nat>)
    requires a < |b.txs|
  {
    exists i :: 0 <= i < |order| && order[i] < |b.txs| && IsCopy(b, a, order[i])
  }

  lemma OneCopy(b: Block, a: nat, c: nat, m: nat, g: nat, x: nat, s: Store)
    requires Doubled(b, a, c, m, g) && x < |b.txs|
    ensures Nonce(b, a, Effect(b.ps[x], s)) == if IsCopy(b, a, x) && Nonce(b, a, s) == m then m + 1 else Nonce(b, a, s)
    ensures SoloOut(b.ps[x], s) ==
      Some(if !IsCopy(b, a, x) then Skipped else if Nonce(b, a, s) == m then Applied(g, false) else Rejected)
  {
    hide FirstFit, HashNames, A.NonceIn, A.NonceBytes, Effect, ProgramOf, Guard, A.FieldKey;
    A.NonceRoundTripExactly(m + 1);
    if IsCopy(b, a, x) {
      GuardEnds(NonceKey(b, a), m, g, s);
    } else {
      IdleEnds(s);
    }
  }

  lemma IdleEnds(s: Store)
    ensures Effect(Idle(), s) == s && SoloOut(Idle(), s) == Some(Skipped)
  {
    IdleEffect(s);
    assert HaltsAt(Idle(), s, 0);
    SoloEndIs(Idle(), s, 0);
  }

  lemma {:induction false} NonceAfter(b: Block, a: nat, c: nat, m: nat, g: nat, order: seq<nat>, s: Store)
    requires Doubled(b, a, c, m, g) && InRange(order, |b.ps|)
    ensures Nonce(b, a, SeqAt(b.ps, order, s)) ==
      if Nonce(b, a, s) == m && HasCopy(b, a, order) then m + 1 else Nonce(b, a, s)
  {
    hide Effect, Nonce, Doubled, SoloOut;
    DoubledSized(b, a, c, m, g);
    if order != [] {
      var o, x := order[..|order| - 1], order[|order| - 1];
      NonceAfter(b, a, c, m, g, o, s);
      OneCopy(b, a, c, m, g, x, SeqAt(b.ps, o, s));
      assert HasCopy(b, a, order) <==> HasCopy(b, a, o) || IsCopy(b, a, x) by {
        if i :| 0 <= i < |order| && order[i] < |b.txs| && IsCopy(b, a, order[i]) {
          if i < |o| { assert o[i] == order[i]; }
        }
        if i :| 0 <= i < |o| && o[i] < |b.txs| && IsCopy(b, a, o[i]) { assert order[i] == o[i]; }
        assert order[|order| - 1] == x;
      }
    }
  }

  lemma DoubledSized(b: Block, a: nat, c: nat, m: nat, g: nat)
    requires Doubled(b, a, c, m, g)
    ensures Sized(b) && a < |b.txs| && c < |b.txs| && b.lv[a] < b.lv[c] && IsCopy(b, a, c) && !IsSystem(b, a)
    ensures m + 1 < TWO_64 && 0 < g <= BLOCK_GAS
  {
  }

  lemma WaveHasCopy(b: Block, a: nat, c: nat, m: nat, g: nat, w: nat)
    requires Doubled(b, a, c, m, g) && w <= b.lv[a]
    ensures HasCopy(b, a, Members(b.lv, w, |b.lv|)) <==> w == b.lv[a]
  {
    hide FirstFit, HashNames, Copies;
    var wave := Members(b.lv, w, |b.lv|);
    MembersAscend(b.lv, w, |b.lv|);
    if w == b.lv[a] {
      assert a in wave;
      var i :| 0 <= i < |wave| && wave[i] == a;
      assert IsCopy(b, a, wave[i]);
    }
    if i :| 0 <= i < |wave| && wave[i] < |b.txs| && IsCopy(b, a, wave[i]) {
      assert wave[i] in wave;
    }
  }

  // ---------- The counter ----------

  lemma CopyGas(b: Block, a: nat, c: nat, m: nat, g: nat, p: nat, s: Store)
    requires Doubled(b, a, c, m, g) && p < |b.txs|
    ensures SoloGas(JobAt(b, p), s) == if IsCopy(b, a, p) && Nonce(b, a, s) == m then g else 0
  {
    hide SoloOut, FirstFit, Nonce;
    OneCopy(b, a, c, m, g, p, s);
    if IsCopy(b, a, p) { SameTx(b, a, p); }
  }

  lemma GasesSnoc(b: Block, wave: seq<nat>, p: nat, store: Store)
    requires Sized(b) && InRange(wave, |b.txs|) && p < |b.txs|
    ensures InRange(wave + [p], |b.txs|)
    ensures Total(SoloGases(JobsAt(b, wave + [p]), store))
         == Total(SoloGases(JobsAt(b, wave), store)) + SoloGas(JobAt(b, p), store)
  {
    hide SoloGas, JobAt;
    var xs, ys := SoloGases(JobsAt(b, wave), store), SoloGases(JobsAt(b, wave + [p]), store);
    assert ys == xs + [SoloGas(JobAt(b, p), store)];
    assert ys[..|xs|] == xs;
  }

  lemma NoGases(b: Block, store: Store)
    requires Sized(b)
    ensures Total(SoloGases(JobsAt(b, []), store)) == 0
  {
  }

  /** Only the first copy uses gas. */
  lemma {:induction false} WaveGas(b: Block, a: nat, c: nat, m: nat, g: nat, w: nat, mm: nat, s: Store)
    requires Doubled(b, a, c, m, g) && mm <= |b.lv| && (w <= b.lv[a] || Nonce(b, a, s) != m)
    ensures Total(SoloGases(JobsAt(b, Members(b.lv, w, mm)), s))
         == if Nonce(b, a, s) == m && w == b.lv[a] && a < mm then g else 0
  {
    hide SoloGas, SoloGases, JobsAt, Total, IsSystem, Nonce, FirstFit, Copies, HashNames;
    if mm == 0 {
      NoGases(b, s);
    } else {
      WaveGas(b, a, c, m, g, w, mm - 1, s);
      if b.lv[mm - 1] == w {
        CopyGas(b, a, c, m, g, mm - 1, s);
        GasesSnoc(b, Members(b.lv, w, mm - 1), mm - 1, s);
      } else {
        assert Members(b.lv, w, mm) == Members(b.lv, w, mm - 1);
      }
    }
  }

  /** Counter and nonce before wave `w`. */
  ghost predicate AtWave(b: Block, a: nat, m: nat, g: nat, w: nat, o: Outline)
    requires Sized(b) && a < |b.txs|
  {
    && Nonce(b, a, o.store) == (if w <= b.lv[a] then m else m + 1)
    && o.gas == if w <= b.lv[a] then 0 else g
  }

  lemma NextWave(b: Block, a: nat, c: nat, m: nat, g: nat, w: nat, o: Outline)
    requires Doubled(b, a, c, m, g) && AtWave(b, a, m, g, w, o)
    ensures AtWave(b, a, m, g, w + 1, AfterJobs(b, w, o))
  {
    hide SoloGases, JobsAt, SeqRun, SoloFees, Total, Progs, Members, Nonce, FirstFit, HashNames, Copies, SeqAt, HasCopy;
    WaveGas(b, a, c, m, g, w, |b.lv|, o.store);
    WaveIsFlat(b, w, o);
    NonceAfter(b, a, c, m, g, Members(b.lv, w, |b.lv|), o.store);
    if w <= b.lv[a] { WaveHasCopy(b, a, c, m, g, w); }
    SmallMod(g, TWO_64);
  }

  lemma {:induction false} WaveByWave(b: Block, a: nat, c: nat, m: nat, g: nat, base: Store, n: nat)
    requires Doubled(b, a, c, m, g) && Nonce(b, a, base) == m
    ensures AtWave(b, a, m, g, n, Sequential(b, base, n))
  {
    hide AfterJobs, FirstFit, HashNames, Copies, Nonce;
    if n > 0 {
      WaveByWave(b, a, c, m, g, base, n - 1);
      NextWave(b, a, c, m, g, n - 1, Sequential(b, base, n - 1));
    }
  }

  // ---------- The receipts ----------

  lemma {:induction false} CounterFits(b: Block, base: Store, css: seq<seq<Choice>>, n: nat)
    requires Sized(b) && n <= |css|
    ensures Exec(b, base, css, n).ledger.gas < TWO_64
  {
    if n > 0 {
      var s := Exec(b, base, css, n - 1);
      CounterFits(b, base, css, n - 1);
      TallyRun(b.baseFee, WaveJobs(b, n - 1), s.store, s.ledger, css[n - 1]);
    }
  }

  /** Slots other than the doubled transaction's get no gas. */
  lemma {:induction false} NoOtherGas(b: Block, a: nat, c: nat, m: nat, g: nat, base: Store, css: seq<seq<Choice>>,
                                      n: nat, p: nat)
    requires Doubled(b, a, c, m, g) && n <= |css| && p < |b.txs| && p != SlotOf(b, a)
    ensures GasIn(Exec(b, base, css, n).ledger.receipts[p]) == 0
  {
    hide LastWith, Run, FirstFit, HashNames, ProgramOf;
    if n > 0 {
      var s, js := Exec(b, base, css, n - 1), WaveJobs(b, n - 1);
      var wave := Members(b.lv, n - 1, |b.lv|);
      NoOtherGas(b, a, c, m, g, base, css, n - 1, p);
      CounterFits(b, base, css, n - 1);
      forall x, obs | 0 <= x < |js| && js[x].slot == p ensures GasOf(js[x], js[x].prog(obs)) <= 0 {
        assert js[x] == JobAt(b, wave[x]);
      }
      GasCapped(b.baseFee, js, s.store, s.ledger, css[n - 1], p, 0);
    }
  }

  lemma CopiesClash(b: Block, a: nat, x: nat, y: nat)
    requires HashNames(b.txs) && a < |b.txs| && x < |b.txs| && y < |b.txs| && IsCopy(b, a, x)
    requires SlotOf(b, y) == SlotOf(b, x)
    ensures Clash(b.txs, x, y)
  {
    SlotsNameHashes(b, y, x);
    SameTx(b, a, x);
    SameTx(b, a, y);
    assert b.txs[a].sender in Footprint(b.txs[x]) && b.txs[a].sender in Footprint(b.txs[y]);
  }

  /** Copies of one transaction never share a wave, so a copy has its slot to itself there. */
  lemma SoleCopy(b: Block, a: nat, c: nat, m: nat, g: nat, w: nat, x: nat)
    requires Doubled(b, a, c, m, g) && x < |WaveJobs(b, w)| && IsCopy(b, a, Members(b.lv, w, |b.lv|)[x])
    ensures Sole(WaveJobs(b, w), x)
  {
    hide LastWith, Copies;
    var wave, js := Members(b.lv, w, |b.lv|), WaveJobs(b, w);
    WaveApart(b.txs, b.lv, w);
    SameTx(b, a, wave[x]);
    forall y | 0 <= y < |js| && y != x ensures js[y].slot != js[x].slot {
      assert wave[x] in wave && wave[y] in wave && wave[x] != wave[y];
      if SlotOf(b, wave[y]) == SlotOf(b, wave[x]) { CopiesClash(b, a, wave[x], wave[y]); }
    }
  }

  /** Past the first copy, a wave with another copy leaves a receipt without gas. */
  lemma CopyWipes(b: Block, a: nat, c: nat, m: nat, g: nat, w: nat, s: BlockState, cs: seq<Choice>, x: nat)
    requires Doubled(b, a, c, m, g) && x < |WaveJobs(b, w)| && IsCopy(b, a, Members(b.lv, w, |b.lv|)[x])
    requires Nonce(b, a, s.store) != m && |s.ledger.receipts| == |b.txs|
    requires s.ledger.gas <= BLOCK_GAS && RunToEnd(b, w, s, cs)
    ensures GasIn(AfterWave(b, w, s, cs).ledger.receipts[SlotOf(b, a)]) == 0
  {
    hide FirstFit, HashNames, Copies, Run, SoloOut, Independent, SeqRun, Nonce, FramedBlock, Sole, LastWith,
      AlwaysHalts;
    var js, p, owner := WaveJobs(b, w), Members(b.lv, w, |b.lv|)[x], AllOf(b.txs[a].sender);
    SameTx(b, a, p);
    SoleCopy(b, a, c, m, g, w, x);
    IndexNames(b.txs, p, |b.txs|);
    CopiesFit(b, a, c, m, g);
    WaveIndependent(b, owner, {}, w);
    WaveIsSequential(b.baseFee, js, WaveKeys(b, owner, {}, w), {}, s.store, s.ledger, cs);
    SoleRun(b.baseFee, js, s.store, s.ledger, cs, x);
    OneCopy(b, a, c, m, g, p, s.store);
    var end := WaveRun(b, w, s, cs);
    assert EndsAs(js[x], end.threads[x], SoloOut(js[x].prog, s.store));
    assert Left(js[x], end.threads[x]) == Some(Receipt(js[x].tx.hash, 0, 0, 0));
  }

  /** A wave without a copy leaves the slot as it is. */
  lemma NoCopyKeeps(b: Block, a: nat, c: nat, m: nat, g: nat, w: nat, s: BlockState, cs: seq<Choice>)
    requires Doubled(b, a, c, m, g) && !HasCopy(b, a, Members(b.lv, w, |b.lv|))
    requires s.ledger.gas < TWO_64 && |s.ledger.receipts| == |b.txs| && GasIn(s.ledger.receipts[SlotOf(b, a)]) == 0
    ensures GasIn(WaveRun(b, w, s, cs).ledger.receipts[SlotOf(b, a)]) == 0
  {
    hide LastWith, Run, FirstFit, HashNames, ProgramOf, IsCopy;
    var js, wave := WaveJobs(b, w), Members(b.lv, w, |b.lv|);
    IndexNames(b.txs, a, |b.txs|);
    forall x, obs | 0 <= x < |js| && js[x].slot == SlotOf(b, a) ensures GasOf(js[x], js[x].prog(obs)) <= 0 {
      assert js[x] == JobAt(b, wave[x]);
      assert !IsCopy(b, a, wave[x]);
    }
    GasCapped(b.baseFee, js, s.store, s.ledger, cs, SlotOf(b, a), 0);
  }

  /** Once another copy has run, the transaction's slot shows no gas. */
  lemma {:induction false} SlotWiped(b: Block, a: nat, c: nat, m: nat, g: nat, base: Store, css: seq<seq<Choice>>,
                                     n: nat)
    requires Doubled(b, a, c, m, g) && Nonce(b, a, base) == m
    requires b.lv[c] < n <= |css| && Complete(b, base, css, n)
    ensures SlotOf(b, a) < |b.txs| && GasIn(Exec(b, base, css, n).ledger.receipts[SlotOf(b, a)]) == 0
  {
    hide FirstFit, HashNames, Copies, RunToEnd, Nonce, FramedBlock, HasCopy, LastWith, AlwaysHalts, WaveRun, GasIn;
    var w := n - 1;
    var s, wave := Exec(b, base, css, w), Members(b.lv, w, |b.lv|);
    IndexNames(b.txs, a, |b.txs|);
    assert RunToEnd(b, w, s, css[w]);
    AfterFirst(b, a, c, m, g, base, css, w);
    if HasCopy(b, a, wave) {
      var x := CopyIn(b, a, wave);
      CopyWipes(b, a, c, m, g, w, s, css[w], x);
    } else {
      assert b.lv[c] != w by { if b.lv[c] == w { CopyThere(b, a, c, w); } }
      SlotWiped(b, a, c, m, g, base, css, w);
      NoCopyKeeps(b, a, c, m, g, w, s, css[w]);
    }
  }

  lemma CopyIn(b: Block, a: nat, wave: seq<nat>) returns (x: nat)
    requires a < |b.txs| && HasCopy(b, a, wave)
    ensures x < |wave| && wave[x] < |b.txs| && IsCopy(b, a, wave[x])
  {
    x :| 0 <= x < |wave| && wave[x] < |b.txs| && IsCopy(b, a, wave[x]);
  }

  lemma CopyThere(b: Block, a: nat, c: nat, w: nat)
    requires Sized(b) && a < |b.txs| && c < |b.txs| && IsCopy(b, a, c) && b.lv[c] == w
    ensures HasCopy(b, a, Members(b.lv, w, |b.lv|))
  {
    var wave := Members(b.lv, w, |b.lv|);
    MembersAscend(b.lv, w, |b.lv|);
    assert c in wave;
    var i :| 0 <= i < |wave| && wave[i] == c;
  }

  /** Past the first copy the nonce has moved on, and the counter shows its gas alone. */
  lemma AfterFirst(b: Block, a: nat, c: nat, m: nat, g: nat, base: Store, css: seq<seq<Choice>>, n: nat)
    requires Doubled(b, a, c, m, g) && Nonce(b, a, base) == m && b.lv[a] < n <= |css| && Complete(b, base, css, n)
    ensures Nonce(b, a, Exec(b, base, css, n).store) != m && Exec(b, base, css, n).ledger.gas == g
  {
    hide FirstFit, HashNames, Copies, Exec, Complete, Sequential, FramedBlock, AlwaysHalts, A.NonceIn, A.FieldKey;
    CopiesFit(b, a, c, m, g);
    BlockIsDeterministic(b, AllOf(b.txs[a].sender), {}, base, css, n);
    WaveByWave(b, a, c, m, g, base, n);
    NothingShared(Exec(b, base, css, n).store);
    NothingShared(Sequential(b, base, n).store);
  }

  /** In every complete run of a block that holds a transaction more than once, from a state in which
      its nonce is due: the counter ends at the gas of its one execution, the header at zero. */
  lemma HeaderFallsBehind(b: Block, a: nat, c: nat, m: nat, g: nat, base: Store, css: seq<seq<Choice>>,
                          final: seq<Receipt>)
    requires Doubled(b, a, c, m, g) && Nonce(b, a, base) == m && Complete(b, base, css, |css|)
    requires forall p :: 0 <= p < |b.txs| ==> b.lv[p] < |css|
    requires Compacted(b.txs, Exec(b, base, css, |css|).ledger.receipts, final, |b.txs|)
    ensures Exec(b, base, css, |css|).ledger.gas == g && HeaderGas(final) == 0
  {
    hide Exec, Complete, FirstFit, Compacted, HeaderGas, SlotOf, Nonce, HashNames, Copies, GasIn;
    var rs := Exec(b, base, css, |css|).ledger.receipts;
    AfterFirst(b, a, c, m, g, base, css, |css|);
    SlotWiped(b, a, c, m, g, base, css, |css|);
    forall p | 0 <= p < |rs| ensures GasSlots(rs)[p] == 0 {
      if p != SlotOf(b, a) { NoOtherGas(b, a, c, m, g, base, css, |css|, p); }
    }
    TotalZero(GasSlots(rs));
    HeaderGasIsSum(b.txs, rs, final);
  }

  // ---------- The exact condition ----------

  /** The header's gas after a run is the gas counter. */
  ghost predicate HeaderAgrees(b: Block, base: Store, css: seq<seq<Choice>>)
    requires Sized(b)
  {
    var l := Exec(b, base, css, |css|).ledger;
    HeaderGas(FinalOf(b.txs, l.receipts)) == l.gas
  }

  /** The header's gas equals the counter for all programs, starting states and interleavings
      exactly when no two charged transactions of the block share a hash. */
  lemma HeaderGasExactly(b: Block)
    requires Scheduled(b) && HashNames(b.txs)
    ensures ChargedHashesDiffer(b) <==>
      forall ps: seq<Program>, base: Store, css: seq<seq<Choice>> ::
        |ps| == |b.txs| ==> HeaderAgrees(b.(ps := ps), base, css)
  {
    if ChargedHashesDiffer(b) {
      forall ps: seq<Program>, base: Store, css: seq<seq<Choice>> | |ps| == |b.txs|
        ensures HeaderAgrees(b.(ps := ps), base, css)
      {
        HeaderKept(b, ps, base, css);
      }
    } else {
      var ps, base, css := HeaderLost(b);
    }
  }

  lemma HeaderKept(b: Block, ps: seq<Program>, base: Store, css: seq<seq<Choice>>)
    requires Sized(b) && HashNames(b.txs) && ChargedHashesDiffer(b) && |ps| == |b.txs|
    ensures HeaderAgrees(b.(ps := ps), base, css)
  {
    hide Exec, Compacted, FinalOf, HeaderGas;
    var b' := b.(ps := ps);
    assert ChargedHashesDiffer(b') by {
      forall i, j | 0 <= i < j < |b'.txs| && b'.txs[i].hash == b'.txs[j].hash
        ensures IsSystem(b', i) && IsSystem(b', j)
      {
        assert IsSystem(b, i) && IsSystem(b, j);
      }
    }
    var rs := Exec(b', base, css, |css|).ledger.receipts;
    HeaderMatchesCounters(b', base, css, FinalOf(b'.txs, rs));
  }

  function Bound(lv: seq<nat>): (n: nat)
    ensures forall i :: 0 <= i < |lv| ==> lv[i] < n
  {
    if lv == [] then 0 else
      var n := Bound(lv[..|lv| - 1]);
      if lv[|lv| - 1] < n then n else lv[|lv| - 1] + 1
  }

  /** The copy of a transaction that the waves run first. */
  lemma {:induction false} FirstCopy(b: Block, a: nat, n: nat) returns (f: nat)
    requires Sized(b) && a < |b.txs| && n <= |b.txs|
    ensures f < |b.txs| && IsCopy(b, a, f) && b.lv[f] <= b.lv[a]
    ensures forall x :: 0 <= x < n && IsCopy(b, a, x) ==> b.lv[f] <= b.lv[x]
  {
    f := a;
    if n > 0 {
      f := FirstCopy(b, a, n - 1);
      if IsCopy(b, a, n - 1) && b.lv[n - 1] < b.lv[f] { f := n - 1; }
    }
  }

  /** Copies of one transaction clash, so their levels differ. */
  lemma CopiesApart(b: Block, a: nat, x: nat)
    requires Scheduled(b) && HashNames(b.txs) && a < |b.txs| && x < |b.txs| && x != a && IsCopy(b, a, x)
    ensures b.lv[x] != b.lv[a]
  {
    SameTx(b, a, x);
    assert b.txs[a].sender in Footprint(b.txs[a]);
    assert Clash(b.txs, a, x);
    ClashApart(b.txs, b.lv, a, x);
  }

  lemma HeaderLost(b: Block) returns (ps: seq<Program>, base: Store, css: seq<seq<Choice>>)
    requires Scheduled(b) && HashNames(b.txs) && !ChargedHashesDiffer(b)
    ensures |ps| == |b.txs| && !HeaderAgrees(b.(ps := ps), base, css)
  {
    hide Exec, Complete, FirstFit, FramedBlock, HeaderGas, AlwaysHalts, Compacted, FinalOf, LastWith, CopyAt,
      A.FieldKey;
    var i, j :| 0 <= i < j < |b.txs| && b.txs[i].hash == b.txs[j].hash && !(IsSystem(b, i) && IsSystem(b, j));
    SameTx(b, i, j);
    var a := FirstCopy(b, i, |b.txs|);
    SameTx(b, i, a);
    var c := if a == i then j else i;
    forall x | 0 <= x < |b.txs| && x != a && IsCopy(b, a, x) ensures b.lv[a] < b.lv[x] { CopiesApart(b, a, x); }
    ps, base := Copies(b, a, 0, 1), map[];
    var b' := b.(ps := ps);
    SameCopies(b, b', a, 0, 1);
    assert Doubled(b', a, c, 0, 1);
    CopiesFit(b', a, c, 0, 1);
    css := BlockCanComplete(b', AllOf(b.txs[a].sender), {}, base, Bound(b'.lv));
    NoNonce(b', a);
    HeaderFallsBehind(b', a, c, 0, 1, base, css, FinalOf(b'.txs, Exec(b', base, css, |css|).ledger.receipts));
  }

  lemma SameCopies(b: Block, b': Block, a: nat, m: nat, g: nat)
    requires b'.txs == b.txs && a < |b.txs| && m + 1 < TWO_64
    ensures Copies(b', a, m, g) == Copies(b, a, m, g)
  {
  }

  lemma NoNonce(b: Block, a: nat)
    requires a < |b.txs|
    ensures Nonce(b, a, map[]) == 0
  {
  }
}
