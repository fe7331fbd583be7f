/** The receipts of a block: one per transaction, the same for every interleaving, and in step
    with the gas and fee counters. */
module BlockReceipts {
  import opened Base
  import opened Scheduler
  import opened Wave
  import opened Traces
  import opened Receipts
  import opened BlockExec
  import Accounts

  // ---------- The ledger, whatever the programs ----------

  /** Only transactions to system contracts, which are not charged, may share a hash. */
  ghost predicate ChargedHashesDiffer(b: Block) {
    forall i, j :: 0 <= i < j < |b.txs| && b.txs[i].hash == b.txs[j].hash ==> IsSystem(b, i) && IsSystem(b, j)
  }

  lemma DistinctIsEnough(b: Block)
    requires DistinctHashes(b.txs)
    ensures HashNames(b.txs) && ChargedHashesDiffer(b)
  {
  }

  /** Positions that share a slot share their hash. */
  lemma SlotsNameHashes(b: Block, p: nat, q: nat)
    requires p < |b.txs| && q < |b.txs| && SlotOf(b, p) == SlotOf(b, q)
    ensures b.txs[p].hash == b.txs[q].hash
  {
    IndexNames(b.txs, p, |b.txs|);
    IndexNames(b.txs, q, |b.txs|);
  }

  lemma SharersAreSystem(b: Block, p: nat, q: nat)
    requires ChargedHashesDiffer(b) && p < |b.txs| && q < |b.txs| && p != q && SlotOf(b, p) == SlotOf(b, q)
    ensures IsSystem(b, p) && IsSystem(b, q)
  {
    SlotsNameHashes(b, p, q);
    var i, j := if p < q then p else q, if p < q then q else p;
    assert b.txs[i].hash == b.txs[j].hash;
  }

  /** No gas yet under the slots of positions still to run, nor ever under those of uncharged ones. */
  ghost predicate Ready(b: Block, rs: seq<Option<Receipt>>, w: nat)
    requires Sized(b)
  {
    forall p :: 0 <= p < |b.txs| && (b.lv[p] >= w || IsSystem(b, p)) ==> NoGasAt(rs, SlotOf(b, p))
  }

  lemma WaveShape(b: Block, w: nat)
    requires Sized(b) && HashNames(b.txs) && ChargedHashesDiffer(b)
    ensures JobsOf(WaveJobs(b, w), b.txs) && ChargedApart(WaveJobs(b, w))
  {
    var wave, js := Members(b.lv, w, |b.lv|), WaveJobs(b, w);
    MembersAscend(b.lv, w, |b.lv|);
    forall i | 0 <= i < |js| ensures js[i].slot < |b.txs| && b.txs[js[i].slot] == js[i].tx {
      IndexNames(b.txs, wave[i], |b.txs|);
      var p, q := wave[i], js[i].slot;
      var x, y := if p < q then p else q, if p < q then q else p;
      assert x < y ==> b.txs[x] == b.txs[y];
    }
    forall i, j | 0 <= i < j < |js| && js[i].slot == js[j].slot ensures js[i].system && js[j].system {
      SharersAreSystem(b, wave[i], wave[j]);
    }
  }

  lemma WaveStartsUnbilled(b: Block, w: nat, s: BlockState)
    requires Sized(b) && Ready(b, s.ledger.receipts, w)
    ensures Unbilled(WaveJobs(b, w), Start(WaveJobs(b, w), s.store, s.ledger))
  {
    var wave := Members(b.lv, w, |b.lv|);
    MembersAscend(b.lv, w, |b.lv|);
    forall i | 0 <= i < |wave| ensures NoGasAt(s.ledger.receipts, SlotOf(b, wave[i])) {
      assert wave[i] in wave;
    }
  }

  /** A slot waiting for a later wave, or for uncharged transactions only, gets no gas. */
  lemma WaveKeepsReady(b: Block, w: nat, s: BlockState, cs: seq<Choice>, p: nat)
    requires Sized(b) && ChargedHashesDiffer(b) && |s.ledger.receipts| == |b.txs| && s.ledger.gas < TWO_64
    requires p < |b.txs| && (b.lv[p] > w || IsSystem(b, p)) && NoGasAt(s.ledger.receipts, SlotOf(b, p))
    ensures NoGasAt(WaveRun(b, w, s, cs).ledger.receipts, SlotOf(b, p))
  {
    hide Run, NoGasAt, LastWith, ChargedHashesDiffer;
    var wave, js := Members(b.lv, w, |b.lv|), WaveJobs(b, w);
    IndexNames(b.txs, p, |b.txs|);
    MembersAscend(b.lv, w, |b.lv|);
    forall i, obs | 0 <= i < |js| && js[i].slot == SlotOf(b, p) ensures GasOf(js[i], js[i].prog(obs)) <= 0 {
      assert wave[i] in wave;
      if wave[i] != p { SharersAreSystem(b, wave[i], p); }
    }
    NoGasMeans(s.ledger.receipts, SlotOf(b, p));
    GasCapped(b.baseFee, js, s.store, s.ledger, cs, SlotOf(b, p), 0);
    NoGasMeans(WaveRun(b, w, s, cs).ledger.receipts, SlotOf(b, p));
  }

  lemma NoGasMeans(rs: seq<Option<Receipt>>, p: nat)
    requires p < |rs|
    ensures NoGasAt(rs, p) <==> GasIn(rs[p]) <= 0
  {
  }

  lemma WaveKeepsBalance(b: Block, w: nat, s: BlockState, cs: seq<Choice>)
    requires Sized(b) && HashNames(b.txs) && ChargedHashesDiffer(b)
    requires Balanced(b.baseFee, b.txs, s.ledger) && Ready(b, s.ledger.receipts, w)
    ensures Balanced(b.baseFee, b.txs, AfterWave(b, w, s, cs).ledger)
    ensures Ready(b, AfterWave(b, w, s, cs).ledger.receipts, w + 1)
  {
    hide Run, HashNames, ChargedHashesDiffer, NoGasAt, SlotOf, JobsOf, ChargedApart, Unbilled, GasSlots, FeeSlots;
    hide Total;
    if s.ledger.gas <= BLOCK_GAS {
      WaveShape(b, w);
      WaveStartsUnbilled(b, w, s);
      BalancedRun(b.baseFee, b.txs, WaveJobs(b, w), s.store, s.ledger, cs);
      forall p | 0 <= p < |b.txs| && (b.lv[p] >= w + 1 || IsSystem(b, p))
        ensures NoGasAt(WaveRun(b, w, s, cs).ledger.receipts, SlotOf(b, p))
      {
        WaveKeepsReady(b, w, s, cs, p);
      }
    }
  }

  lemma LedgerStart(b: Block, base: Store)
    requires Sized(b)
    ensures Balanced(b.baseFee, b.txs, Fresh(b, base).ledger) && Ready(b, Fresh(b, base).ledger.receipts, 0)
  {
    TotalZero(GasSlots(Fresh(b, base).ledger.receipts));
    TotalZero(FeeSlots(b.baseFee, b.txs, Fresh(b, base).ledger.receipts));
  }

  /** Whatever the programs and the interleavings, complete or not, the counters are the sums over
      the receipt slots, as long as only uncharged transactions share hashes. */
  lemma {:induction false} LedgerBalanced(b: Block, base: Store, css: seq<seq<Choice>>, n: nat)
    requires Sized(b) && HashNames(b.txs) && ChargedHashesDiffer(b) && n <= |css|
    ensures Balanced(b.baseFee, b.txs, Exec(b, base, css, n).ledger)
    ensures Ready(b, Exec(b, base, css, n).ledger.receipts, n)
  {
    hide Balanced, Ready, HashNames, ChargedHashesDiffer, AfterWave, Fresh;
    if n == 0 {
      LedgerStart(b, base);
    } else {
      LedgerBalanced(b, base, css, n - 1);
      WaveKeepsBalance(b, n - 1, Exec(b, base, css, n - 1), css[n - 1]);
    }
  }

  /** For every block in which only uncharged transactions share hashes, whatever its programs and
      interleavings: the header's gas is the merge-time counter, and the fees are the sum of gas
      times effective price over the receipts. */
  lemma HeaderMatchesCounters(b: Block, base: Store, css: seq<seq<Choice>>, final: seq<Receipt>)
    requires Sized(b) && HashNames(b.txs) && ChargedHashesDiffer(b)
    requires Compacted(b.txs, Exec(b, base, css, |css|).ledger.receipts, final, |b.txs|)
    ensures var l := Exec(b, base, css, |css|).ledger;
      HeaderGas(final) == l.gas && l.fees == Total(FeeSlots(b.baseFee, b.txs, l.receipts))
  {
    hide Exec, Compacted, HeaderGas;
    LedgerBalanced(b, base, css, |css|);
    HeaderGasIsCounter(b.baseFee, b.txs, Exec(b, base, css, |css|).ledger, final);
  }

  // ---------- The receipts of solo runs ----------

  /** The receipt a transaction leaves when it runs alone on `store`. */
  ghost function SoloReceipt(b: Block, p: nat, store: Store): (r: Option<Receipt>)
    requires Sized(b) && p < |b.txs|
  {
    Leaves(JobAt(b, p), SoloHalt(b.ps[p], store))
  }

  /** The receipt of a position: that of a run alone from the state its wave starts in, or none
      when the gas limit stops the block first. */
  ghost function ReceiptOf(b: Block, base: Store, p: nat): (r: Option<Receipt>)
    requires Sized(b) && p < |b.txs|
  {
    var o := Sequential(b, base, b.lv[p]);
    if o.gas > BLOCK_GAS then None else SoloReceipt(b, p, o.store)
  }

  lemma WaveSlots(b: Block, w: nat, l: Ledger)
    requires Scheduled(b) && DistinctHashes(b.txs) && |l.receipts| == |b.txs|
    requires forall p :: 0 <= p < |b.txs| && b.lv[p] == w ==> l.receipts[p].None?
    ensures OwnSlots(WaveJobs(b, w), l) && JobsOf(WaveJobs(b, w), b.txs)
    ensures forall i :: 0 <= i < |WaveJobs(b, w)| ==> WaveJobs(b, w)[i] == JobAt(b, WaveJobs(b, w)[i].slot)
    ensures forall p: nat :: IsSlot(WaveJobs(b, w), p) <==> p < |b.txs| && b.lv[p] == w
  {
    var wave, js := Members(b.lv, w, |b.lv|), WaveJobs(b, w);
    WaveApart(b.txs, b.lv, w);
    forall i | 0 <= i < |js| ensures js[i].slot == wave[i] && b.lv[wave[i]] == w {
      OwnIndex(b.txs, wave[i], |b.txs|);
      assert wave[i] in wave;
    }
    forall p: nat | p < |b.txs| && b.lv[p] == w ensures IsSlot(js, p) {
      assert p in wave;
      var i :| 0 <= i < |wave| && wave[i] == p;
      assert js[i].slot == p;
    }
  }

  /** What one wave does to the receipt slots. */
  lemma WaveReceipts(b: Block, owner: Key -> Address, shared: set<Key>, w: nat, s: BlockState, cs: seq<Choice>)
    requires Scheduled(b) && FramedBlock(b.txs, b.ps, owner, shared) && DistinctHashes(b.txs)
    requires s.ledger.gas <= BLOCK_GAS && RunToEnd(b, w, s, cs) && |s.ledger.receipts| == |b.txs|
    requires forall p :: 0 <= p < |b.txs| && b.lv[p] == w ==> s.ledger.receipts[p].None?
    ensures var r := AfterWave(b, w, s, cs).ledger;
      && (forall p :: 0 <= p < |b.txs| && b.lv[p] == w ==> Settle(r.receipts[p]) == SoloReceipt(b, p, s.store))
      && (forall p :: 0 <= p < |b.txs| && b.lv[p] != w ==> r.receipts[p] == s.ledger.receipts[p])
  {
    hide FramedBlock, FirstFit, DistinctHashes, Run, SoloOut, Independent, SeqRun, OwnSlots;
    var js, end := WaveJobs(b, w), WaveRun(b, w, s, cs);
    WaveIndependent(b, owner, shared, w);
    WaveSlots(b, w, s.ledger);
    SlottedRun(b.baseFee, js, s.store, s.ledger, cs);
    WaveIsSequential(b.baseFee, js, WaveKeys(b, owner, shared, w), shared, s.store, s.ledger, cs);
    forall p: nat | p < |b.txs| && b.lv[p] == w
      ensures Settle(end.ledger.receipts[p]) == SoloReceipt(b, p, s.store)
    {
      assert IsSlot(js, p);
      var i :| 0 <= i < |js| && js[i].slot == p;
      assert js[i] == JobAt(b, p);
      assert EndsAs(js[i], end.threads[i], SoloOut(js[i].prog, s.store));
    }
  }

  /** The receipt slots after `n` waves. */
  ghost predicate SlotsAfter(b: Block, base: Store, l: Ledger, n: nat)
    requires Sized(b)
  {
    && |l.receipts| == |b.txs|
    && (forall p :: 0 <= p < |b.txs| ==>
          Settle(l.receipts[p]) == if b.lv[p] < n then ReceiptOf(b, base, p) else None)
  }

  lemma SoloReceiptSame(b: Block, owner: Key -> Address, shared: set<Key>, p: nat, a: Store, c: Store)
    requires Sized(b) && FramedBlock(b.txs, b.ps, owner, shared) && p < |b.txs| && a - shared == c - shared
    ensures SoloReceipt(b, p, a) == SoloReceipt(b, p, c)
  {
    hide Fits, Effect, SoloOut;
    EffectSame(b.ps[p], KeysOf(Footprint(b.txs[p]), owner, shared), shared, a, c);
  }

  lemma SlotsStep(b: Block, owner: Key -> Address, shared: set<Key>, base: Store, w: nat, s: BlockState,
                  cs: seq<Choice>)
    requires Scheduled(b) && FramedBlock(b.txs, b.ps, owner, shared) && DistinctHashes(b.txs) && RunToEnd(b, w, s, cs)
    requires Same(Summary(s), Sequential(b, base, w), shared) && SlotsAfter(b, base, s.ledger, w)
    ensures SlotsAfter(b, base, AfterWave(b, w, s, cs).ledger, w + 1)
  {
    hide RunToEnd, FramedBlock, DistinctHashes, FirstFit, Sequential, SoloReceipt;
    var r := AfterWave(b, w, s, cs).ledger;
    assert forall p :: 0 <= p < |b.txs| ==> Settle(s.ledger.receipts[p]).None? ==> s.ledger.receipts[p].None?;
    if s.ledger.gas <= BLOCK_GAS {
      WaveReceipts(b, owner, shared, w, s, cs);
    }
    forall p | 0 <= p < |b.txs|
      ensures Settle(r.receipts[p]) == if b.lv[p] < w + 1 then ReceiptOf(b, base, p) else None
    {
      if b.lv[p] == w {
        SoloReceiptSame(b, owner, shared, p, s.store, Sequential(b, base, w).store);
      }
    }
  }

  lemma SlotsStart(b: Block, base: Store)
    requires Sized(b)
    ensures SlotsAfter(b, base, Fresh(b, base).ledger, 0)
  {
  }

  lemma {:induction false} SlotsAfterWaves(b: Block, owner: Key -> Address, shared: set<Key>, base: Store,
                                           css: seq<seq<Choice>>, n: nat)
    requires Scheduled(b) && FramedBlock(b.txs, b.ps, owner, shared) && DistinctHashes(b.txs)
    requires n <= |css| && Complete(b, base, css, n)
    ensures SlotsAfter(b, base, Exec(b, base, css, n).ledger, n)
  {
    hide FramedBlock, FirstFit, AfterWave, RunToEnd, SlotsAfter, DistinctHashes, Fresh;
    if n == 0 {
      SlotsStart(b, base);
    } else {
      SlotsAfterWaves(b, owner, shared, base, css, n - 1);
      BlockIsDeterministic(b, owner, shared, base, css, n - 1);
      assert RunToEnd(b, n - 1, Exec(b, base, css, n - 1), css[n - 1]);
      SlotsStep(b, owner, shared, base, n - 1, Exec(b, base, css, n - 1), css[n - 1]);
    }
  }

  ghost function ReceiptsOf(b: Block, base: Store): (rs: seq<Option<Receipt>>)
    requires Sized(b)
    ensures |rs| == |b.txs| && forall p :: 0 <= p < |b.txs| ==> rs[p] == ReceiptOf(b, base, p)
  {
    seq(|b.txs|, p requires 0 <= p < |b.txs| => ReceiptOf(b, base, p))
  }

  /** Under the frame hypothesis, the receipts of every complete interleaving of a block with
      distinct hashes are those of solo runs, cut-off included. */
  lemma BlockReceiptsAre(b: Block, owner: Key -> Address, shared: set<Key>, base: Store, css: seq<seq<Choice>>,
                         final: seq<Receipt>)
    requires Scheduled(b) && FramedBlock(b.txs, b.ps, owner, shared) && DistinctHashes(b.txs)
    requires Complete(b, base, css, |css|) && forall i :: 0 <= i < |b.txs| ==> b.lv[i] < |css|
    requires Compacted(b.txs, Exec(b, base, css, |css|).ledger.receipts, final, |b.txs|)
    ensures Compacted(b.txs, ReceiptsOf(b, base), final, |b.txs|)
    ensures Exec(b, base, css, |css|).ledger.fees == Total(FeeSlots(b.baseFee, b.txs, ReceiptsOf(b, base)))
  {
    hide FramedBlock, FirstFit, DistinctHashes, Complete, Exec, Compacted, ReceiptOf, HeaderGas, Total, FeeSlots;
    SlotsAfterWaves(b, owner, shared, base, css, |css|);
    DistinctIsEnough(b);
    HeaderMatchesCounters(b, base, css, final);
    SettledReceipts(b, base, Exec(b, base, css, |css|).ledger, final);
  }

  lemma SettledReceipts(b: Block, base: Store, l: Ledger, final: seq<Receipt>)
    requires Sized(b) && |l.receipts| == |b.txs| && Compacted(b.txs, l.receipts, final, |b.txs|)
    requires forall p :: 0 <= p < |b.txs| ==> Settle(l.receipts[p]) == ReceiptOf(b, base, p)
    ensures Compacted(b.txs, ReceiptsOf(b, base), final, |b.txs|)
    ensures FeeSlots(b.baseFee, b.txs, l.receipts) == FeeSlots(b.baseFee, b.txs, ReceiptsOf(b, base))
  {
    hide ReceiptOf;
    var rs := ReceiptsOf(b, base);
    forall p | 0 <= p < |b.txs| ensures GasIn(l.receipts[p]) == GasIn(rs[p]) {
      assert Settle(l.receipts[p]) == rs[p];
    }
    assert GasSlots(l.receipts) == GasSlots(rs);
    forall i | 0 <= i < |b.txs|
      ensures Filled(b.txs[i], l.receipts[i]).(cumulative := 0) == Filled(b.txs[i], rs[i]).(cumulative := 0)
    {
      assert Settle(l.receipts[i]) == rs[i];
    }
  }

  // ---------- The whole of ApplyBlock ----------

  const BLOCK_REWARD: nat := 10_000_000_000_000_000_000

  /** The state `ApplyBlock` leaves: the waves', with block reward and fees credited to the
      coinbase. A reward past 256 bits would panic. */
  function WithReward(s: BlockState, coinbase: Address): (r: Store) {
    var cur := Accounts.Word(s.store, coinbase, Accounts.BalanceOf);
    Accounts.PutBalance(s.store, coinbase, (cur + BLOCK_REWARD + s.ledger.fees) % TWO_256)
  }

  lemma CompactedUnique(txs: seq<Tx>, rs: seq<Option<Receipt>>, a: seq<Receipt>, b: seq<Receipt>)
    requires |rs| == |txs| && Compacted(txs, rs, a, |txs|) && Compacted(txs, rs, b, |txs|)
    ensures a == b
  {
  }

  lemma RewardSame(s: BlockState, s': BlockState, coinbase: Address, shared: set<Key>)
    requires s.store - shared == s'.store - shared && s.ledger.fees == s'.ledger.fees
    ensures WithReward(s, coinbase) - shared == WithReward(s', coinbase) - shared
  {
    var k := Accounts.FieldKey(coinbase, Accounts.BalanceOf);
    if k !in shared {
      FetchOutside(s.store, shared, k);
      FetchOutside(s'.store, shared, k);
    }
    MinusPut(s.store, k, WithReward(s, coinbase)[k], shared);
    MinusPut(s'.store, k, WithReward(s', coinbase)[k], shared);
  }

  /** Under the frame hypothesis, any two complete interleavings of a block end in the same
      receipts and, outside the shared keys, the same state. */
  lemma ApplyBlockDeterministic(b: Block, owner: Key -> Address, shared: set<Key>, base: Store, coinbase: Address,
                                css: seq<seq<Choice>>, css': seq<seq<Choice>>, final: seq<Receipt>,
                                final': seq<Receipt>)
    requires Scheduled(b) && FramedBlock(b.txs, b.ps, owner, shared) && DistinctHashes(b.txs)
    requires |css| == |css'| && Complete(b, base, css, |css|) && Complete(b, base, css', |css|)
    requires forall i :: 0 <= i < |b.txs| ==> b.lv[i] < |css|
    requires Compacted(b.txs, Exec(b, base, css, |css|).ledger.receipts, final, |b.txs|)
    requires Compacted(b.txs, Exec(b, base, css', |css|).ledger.receipts, final', |b.txs|)
    ensures WithReward(Exec(b, base, css, |css|), coinbase) - shared
         == WithReward(Exec(b, base, css', |css|), coinbase) - shared
    ensures final == final'
  {
    hide Exec, Complete, FramedBlock, FirstFit, Compacted, ReceiptsOf, Sequential, DistinctHashes, WithReward;
    BlockIsDeterministic(b, owner, shared, base, css, |css|);
    BlockIsDeterministic(b, owner, shared, base, css', |css|);
    RewardSame(Exec(b, base, css, |css|), Exec(b, base, css', |css|), coinbase, shared);
    BlockReceiptsAre(b, owner, shared, base, css, final);
    BlockReceiptsAre(b, owner, shared, base, css', final');
    CompactedUnique(b.txs, ReceiptsOf(b, base), final, final');
  }

  // ---------- What receipts say and what the coinbase is paid ----------

  function Least(x: nat, y: nat): (z: nat) { if x <= y then x else y }

  /** The gas price, or base fee plus tip where there is a base fee and that is less. */
  function Rate(baseFee: Option<nat>, tx: Tx): (p: nat) {
    if baseFee.None? then tx.gasPrice else Least(tx.gasPrice, baseFee.value + tx.tipCap)
  }

  /** What each receipt is worth: its gas used at that rate. */
  function Owed(b: Block, final: seq<Receipt>): (s: seq<nat>)
    requires |final| == |b.txs|
    ensures |s| == |final|
    ensures forall p :: 0 <= p < |final| ==> s[p] == final[p].gasUsed * Rate(b.baseFee, b.txs[p])
  {
    seq(|final|, p requires 0 <= p < |final| => final[p].gasUsed * Rate(b.baseFee, b.txs[p]))
  }

  lemma OwedIsFees(b: Block, rs: seq<Option<Receipt>>, final: seq<Receipt>)
    requires |rs| == |b.txs| && Compacted(b.txs, rs, final, |b.txs|)
    ensures FeeSlots(b.baseFee, b.txs, rs) == Owed(b, final)
  {
    hide Total, Price;
    var xs := FeeSlots(b.baseFee, b.txs, rs);
    forall p | 0 <= p < |b.txs| ensures xs[p] == Owed(b, final)[p] {
      PriceIs(b.baseFee, b.txs[p]);
      assert final[p].gasUsed == GasIn(rs[p]);
    }
  }

  /** Whatever the programs and interleavings, as long as only uncharged transactions share hashes:
      the coinbase ends with the balance the waves left it, plus 10 ZEE, plus what the receipts
      are worth, in 256 bits; and no other key differs from what the waves left. */
  lemma CoinbasePaid(b: Block, base: Store, css: seq<seq<Choice>>, final: seq<Receipt>, coinbase: Address)
    requires Sized(b) && HashNames(b.txs) && ChargedHashesDiffer(b)
    requires Compacted(b.txs, Exec(b, base, css, |css|).ledger.receipts, final, |b.txs|)
    ensures var s, t := Exec(b, base, css, |css|).store, WithReward(Exec(b, base, css, |css|), coinbase);
      && Accounts.Word(t, coinbase, Accounts.BalanceOf) ==
         (Accounts.Word(s, coinbase, Accounts.BalanceOf) + 10_000_000_000_000_000_000 + Total(Owed(b, final))) % TWO_256
      && (forall k: Key :: k != Accounts.FieldKey(coinbase, Accounts.BalanceOf) ==> Fetch(t, k) == Fetch(s, k))
  {
    hide Exec, Compacted, Total, FeeSlots, Owed, Accounts.FieldKey, HashNames, ChargedHashesDiffer;
    var e := Exec(b, base, css, |css|);
    HeaderMatchesCounters(b, base, css, final);
    OwedIsFees(b, e.ledger.receipts, final);
    var n := (Accounts.Word(e.store, coinbase, Accounts.BalanceOf) + BLOCK_REWARD + e.ledger.fees) % TWO_256;
    SmallMod(n, TWO_256);
  }

  function GasUsed(final: seq<Receipt>): (s: seq<nat>)
    ensures |s| == |final| && forall p :: 0 <= p < |final| ==> s[p] == final[p].gasUsed
  {
    seq(|final|, p requires 0 <= p < |final| => final[p].gasUsed)
  }

  /** The receipt of a transaction that starts with counter `gas` and ends alone as `out`: a
      transaction that is executed has status one unless it failed, and its gas, none if it goes
      to a system contract; all others, and those the gas limit cuts off, have status and gas
      zero. */
  ghost predicate Says(b: Block, p: nat, gas: nat, out: Option<Outcome>, r: Receipt)
    requires p < |b.txs|
  {
    && r.txHash == b.txs[p].hash
    && (if gas <= 60_000_000 && out.Some? && out.value.Applied? then
          && r.status == (if out.value.failed then 0 else 1)
          && r.gasUsed == if b.txs[p].to.Some? && b.txs[p].to.value in b.system then 0 else out.value.gas
        else r.status == 0 && r.gasUsed == 0)
  }

  lemma FilledSays(b: Block, base: Store, p: nat)
    requires Sized(b) && p < |b.txs|
    ensures var o := Sequential(b, base, b.lv[p]);
      Says(b, p, o.gas, SoloOut(b.ps[p], o.store), Filled(b.txs[p], ReceiptOf(b, base, p)))
  {
    hide SoloOut, Sequential;
  }

  lemma CompleteTo(b: Block, base: Store, css: seq<seq<Choice>>, n: nat)
    requires Sized(b) && n <= |css| && Complete(b, base, css, |css|)
    ensures Complete(b, base, css, n)
  {
  }

  lemma SaysSame(b: Block, owner: Key -> Address, shared: set<Key>, p: nat, o: Outline, o': Outline, r: Receipt)
    requires Sized(b) && FramedBlock(b.txs, b.ps, owner, shared) && p < |b.txs| && Same(o, o', shared)
    requires Says(b, p, o'.gas, SoloOut(b.ps[p], o'.store), r)
    ensures Says(b, p, o.gas, SoloOut(b.ps[p], o.store), r)
  {
    hide Fits, Effect, SoloOut;
    EffectSame(b.ps[p], KeysOf(Footprint(b.txs[p]), owner, shared), shared, o.store, o'.store);
  }

  /** Under the frame hypothesis, for distinct hashes: every receipt of every complete interleaving
      says how its transaction ends alone on the state its wave starts from, and its cumulative
      gas is that of all receipts up to it. */
  lemma ReceiptsSay(b: Block, owner: Key -> Address, shared: set<Key>, base: Store, css: seq<seq<Choice>>,
                    final: seq<Receipt>, p: nat)
    requires Scheduled(b) && FramedBlock(b.txs, b.ps, owner, shared) && DistinctHashes(b.txs)
    requires Complete(b, base, css, |css|) && forall i :: 0 <= i < |b.txs| ==> b.lv[i] < |css|
    requires Compacted(b.txs, Exec(b, base, css, |css|).ledger.receipts, final, |b.txs|) && p < |b.txs|
    ensures |final| == |b.txs| && final[p].cumulative == Total(GasUsed(final)[..p + 1]) % TWO_64
    ensures var s := Exec(b, base, css, b.lv[p]); Says(b, p, s.ledger.gas, SoloOut(b.ps[p], s.store), final[p])
  {
    hide FramedBlock, FirstFit, DistinctHashes, Complete, Exec, Total, FeeSlots, Sequential, SoloOut, ReceiptOf, Says;
    BlockReceiptsAre(b, owner, shared, base, css, final);
    assert GasUsed(final) == GasSlots(ReceiptsOf(b, base));
    CompleteTo(b, base, css, b.lv[p]);
    BlockIsDeterministic(b, owner, shared, base, css, b.lv[p]);
    FilledSays(b, base, p);
    SaysOf(b, p, Sequential(b, base, b.lv[p]), Filled(b.txs[p], ReceiptOf(b, base, p)), final[p]);
    SaysSame(b, owner, shared, p, Summary(Exec(b, base, css, b.lv[p])), Sequential(b, base, b.lv[p]), final[p]);
  }

  lemma SaysOf(b: Block, p: nat, o: Outline, r: Receipt, r': Receipt)
    requires Sized(b) && p < |b.txs| && Says(b, p, o.gas, SoloOut(b.ps[p], o.store), r)
    requires r' == r.(cumulative := r'.cumulative)
    ensures Says(b, p, o.gas, SoloOut(b.ps[p], o.store), r')
  {
    hide SoloOut;
  }

  // ---------- Hashes in place, duplicates included ----------

  lemma WaveHashSlots(b: Block, w: nat)
    requires Sized(b)
    ensures HashSlots(b.txs, WaveJobs(b, w))
  {
    var wave := Members(b.lv, w, |b.lv|);
    forall i | 0 <= i < |wave| { IndexNames(b.txs, wave[i], |b.txs|); }
  }

  lemma {:induction false} SlotsNamed(b: Block, base: Store, css: seq<seq<Choice>>, n: nat)
    requires Sized(b) && n <= |css|
    ensures Named(b.txs, Exec(b, base, css, n).ledger.receipts)
  {
    if n > 0 {
      hide HashSlots, Run;
      SlotsNamed(b, base, css, n - 1);
      var s := Exec(b, base, css, n - 1);
      WaveHashSlots(b, n - 1);
      NamedRun(b.baseFee, b.txs, WaveJobs(b, n - 1), s.store, s.ledger, css[n - 1]);
    }
  }

  /** In every interleaving of every block, whatever its programs and also when it repeats a
      transaction: as many receipts as transactions, and receipt `i` carries the hash of
      transaction `i`. */
  lemma HashesInPlace(b: Block, base: Store, css: seq<seq<Choice>>, final: seq<Receipt>)
    requires Sized(b) && Compacted(b.txs, Exec(b, base, css, |css|).ledger.receipts, final, |b.txs|)
    ensures |final| == |b.txs| && forall i :: 0 <= i < |b.txs| ==> final[i].txHash == b.txs[i].hash
  {
    SlotsNamed(b, base, css, |css|);
  }
}
