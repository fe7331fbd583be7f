/** Gas, fees and receipts of a wave: what the accounting under the merge lock adds up to,
    whatever the order of the merges, and the compaction that turns receipt slots into the
    block's receipts. */
module Receipts {
  import opened Base
  import opened Wave

  // ---------- Gas and fees, by thread ----------

  /** The gas a transaction that ends this way adds to the block counter. */
  function GasOf(job: Job, a: Action): (g: nat) {
    match a
    case Halt(Applied(gas, _)) => Charged(job, gas)
    case _ => 0
  }

  /** The gas a thread has added to the block counter. */
  function Bill(job: Job, t: Thread): (g: nat) {
    if t.phase.Finished? then GasOf(job, job.prog(t.local.obs)) else 0
  }

  function Bills(jobs: seq<Job>, ts: seq<Thread>): (s: seq<nat>)
    requires |jobs| == |ts|
    ensures |s| == |jobs| && forall i :: 0 <= i < |jobs| ==> s[i] == Bill(jobs[i], ts[i])
  {
    seq(|jobs|, i requires 0 <= i < |jobs| => Bill(jobs[i], ts[i]))
  }

  function Fee(baseFee: Option<nat>, job: Job, g: nat): (f: nat) {
    g * Price(baseFee, job.tx)
  }

  function FeeBills(baseFee: Option<nat>, jobs: seq<Job>, ts: seq<Thread>): (s: seq<nat>)
    requires |jobs| == |ts|
    ensures |s| == |jobs| && forall i :: 0 <= i < |jobs| ==> s[i] == Fee(baseFee, jobs[i], Bill(jobs[i], ts[i]))
  {
    seq(|jobs|, i requires 0 <= i < |jobs| => Fee(baseFee, jobs[i], Bill(jobs[i], ts[i])))
  }

  ghost predicate Tallied(baseFee: Option<nat>, jobs: seq<Job>, l0: Ledger, s: State) {
    && |jobs| == |s.threads|
    && s.ledger.gas == (l0.gas + Total(Bills(jobs, s.threads))) % TWO_64
    && s.ledger.fees == l0.fees + Total(FeeBills(baseFee, jobs, s.threads))
  }

  lemma BillsMove(jobs: seq<Job>, s: State, s': State, i: nat)
    requires Moves(jobs, s, s', i)
    ensures Total(Bills(jobs, s'.threads)) == Total(Bills(jobs, s.threads)) + Bill(jobs[i], s'.threads[i])
  {
    var xs := Bills(jobs, s.threads);
    assert Bills(jobs, s'.threads) == xs[i := Bill(jobs[i], s'.threads[i])];
    TotalUpdate(xs, i, Bill(jobs[i], s'.threads[i]));
  }

  lemma FeesMove(baseFee: Option<nat>, jobs: seq<Job>, s: State, s': State, i: nat)
    requires Moves(jobs, s, s', i)
    ensures Total(FeeBills(baseFee, jobs, s'.threads))
         == Total(FeeBills(baseFee, jobs, s.threads)) + Fee(baseFee, jobs[i], Bill(jobs[i], s'.threads[i]))
  {
    var xs := FeeBills(baseFee, jobs, s.threads);
    var f := Fee(baseFee, jobs[i], Bill(jobs[i], s'.threads[i]));
    assert FeeBills(baseFee, jobs, s'.threads) == xs[i := f];
    assert xs[i] == Fee(baseFee, jobs[i], 0) == 0;
    TotalUpdate(xs, i, f);
  }

  lemma TallyMove(baseFee: Option<nat>, jobs: seq<Job>, l0: Ledger, s: State, s': State, i: nat, g: nat)
    requires Tallied(baseFee, jobs, l0, s) && Moves(jobs, s, s', i)
    requires Bill(jobs[i], s'.threads[i]) == g
    requires s'.ledger.gas == (s.ledger.gas + g) % TWO_64 && s'.ledger.fees == s.ledger.fees + Fee(baseFee, jobs[i], g)
    ensures Tallied(baseFee, jobs, l0, s')
  {
    hide Bill, Fee, Bills, FeeBills, Total;
    BillsMove(jobs, s, s', i);
    FeesMove(baseFee, jobs, s, s', i);
    ModAdd(l0.gas + Total(Bills(jobs, s.threads)), g, TWO_64);
  }

  lemma TallyFits(baseFee: Option<nat>, jobs: seq<Job>, l0: Ledger, s: State)
    requires Tallied(baseFee, jobs, l0, s)
    ensures s.ledger.gas < TWO_64
  {
  }

  lemma TallyStep(baseFee: Option<nat>, jobs: seq<Job>, l0: Ledger, s: State, c: Choice)
    requires Sound(jobs, s) && Tallied(baseFee, jobs, l0, s)
    ensures Tallied(baseFee, jobs, l0, Step(baseFee, jobs, s, c))
  {
    hide Tallied, Step, PhaseOk, LockOk;
    var s' := Step(baseFee, jobs, s, c);
    StepShape(baseFee, jobs, s, c);
    if s' != s {
      TallyFits(baseFee, jobs, l0, s);
      var g := Bill(jobs[c.i], s'.threads[c.i]);
      assert Fee(baseFee, jobs[c.i], 0) == 0;
      SmallMod(s.ledger.gas, TWO_64);
      TallyMove(baseFee, jobs, l0, s, s', c.i, g);
    }
  }

  /** Whatever the programs, at every point of every interleaving the counters are the sums over
      the finished transactions. */
  lemma {:induction false} TallyRun(baseFee: Option<nat>, jobs: seq<Job>, base: Store, l0: Ledger, cs: seq<Choice>)
    requires l0.gas < TWO_64
    ensures Tallied(baseFee, jobs, l0, Run(baseFee, jobs, Start(jobs, base, l0), cs))
  {
    var s := Start(jobs, base, l0);
    if cs == [] {
      TotalZero(Bills(jobs, s.threads));
      TotalZero(FeeBills(baseFee, jobs, s.threads));
    } else {
      SoundRun(baseFee, jobs, base, l0, cs[..|cs| - 1]);
      TallyRun(baseFee, jobs, base, l0, cs[..|cs| - 1]);
      TallyStep(baseFee, jobs, l0, Run(baseFee, jobs, s, cs[..|cs| - 1]), cs[|cs| - 1]);
    }
  }

  // ---------- What the counters end at ----------

  /** How a run alone ends, as an action. */
  ghost function SoloHalt(p: Program, base: Store): (a: Action) {
    match SoloOut(p, base) case Some(o) => Halt(o) case None => Halt(Skipped)
  }

  /** The gas a transaction is charged when run alone on `base`. */
  ghost function SoloGas(job: Job, base: Store): (g: nat) {
    GasOf(job, SoloHalt(job.prog, base))
  }

  ghost function SoloGases(jobs: seq<Job>, base: Store): (s: seq<nat>)
    ensures |s| == |jobs| && forall i :: 0 <= i < |jobs| ==> s[i] == SoloGas(jobs[i], base)
  {
    seq(|jobs|, i requires 0 <= i < |jobs| => SoloGas(jobs[i], base))
  }

  ghost function SoloFees(baseFee: Option<nat>, jobs: seq<Job>, base: Store): (s: seq<nat>)
    ensures |s| == |jobs| && forall i :: 0 <= i < |jobs| ==> s[i] == Fee(baseFee, jobs[i], SoloGas(jobs[i], base))
  {
    seq(|jobs|, i requires 0 <= i < |jobs| => Fee(baseFee, jobs[i], SoloGas(jobs[i], base)))
  }

  /** The block counters after a wave depend on no interleaving. */
  lemma WaveTally(baseFee: Option<nat>, jobs: seq<Job>, own: seq<iset<Key>>, shared: set<Key>, base: Store, l0: Ledger,
                  cs: seq<Choice>)
    requires Independent(jobs, own, shared) && l0.gas < TWO_64
    requires AllFinished(Run(baseFee, jobs, Start(jobs, base, l0), cs))
    ensures var s := Run(baseFee, jobs, Start(jobs, base, l0), cs);
      && s.ledger.gas == (l0.gas + Total(SoloGases(jobs, base))) % TWO_64
      && s.ledger.fees == l0.fees + Total(SoloFees(baseFee, jobs, base))
  {
    hide Run, Independent, Bills, FeeBills, SoloGases, SoloFees, Total, SoloOut;
    var s := Run(baseFee, jobs, Start(jobs, base, l0), cs);
    TallyRun(baseFee, jobs, base, l0, cs);
    WaveIsSequential(baseFee, jobs, own, shared, base, l0, cs);
    SoloBills(baseFee, jobs, base, s);
  }

  lemma SoloBills(baseFee: Option<nat>, jobs: seq<Job>, base: Store, s: State)
    requires |s.threads| == |jobs| && AllFinished(s)
    requires forall i :: 0 <= i < |jobs| ==> EndsAs(jobs[i], s.threads[i], SoloOut(jobs[i].prog, base))
    ensures Bills(jobs, s.threads) == SoloGases(jobs, base)
    ensures FeeBills(baseFee, jobs, s.threads) == SoloFees(baseFee, jobs, base)
  {
    hide SoloOut;
    forall i | 0 <= i < |jobs| ensures Bill(jobs[i], s.threads[i]) == SoloGas(jobs[i], base) {
      assert EndsAs(jobs[i], s.threads[i], SoloOut(jobs[i].prog, base));
    }
  }

  // ---------- Receipt slots ----------

  /** A receipt without its merge-time cumulative gas, which depends on the interleaving. */
  function Settle(r: Option<Receipt>): (s: Option<Receipt>) {
    match r case Some(v) => Some(v.(cumulative := 0)) case None => None
  }

  /** The receipt a goroutine that ends this way leaves. */
  function Leaves(job: Job, a: Action): (r: Option<Receipt>) {
    match a
    case Halt(Rejected) => Some(Receipt(job.tx.hash, 0, 0, 0))
    case Halt(Applied(gas, failed)) => Some(Receipt(job.tx.hash, Status(failed), Charged(job, gas), 0))
    case _ => None
  }

  function Left(job: Job, t: Thread): (r: Option<Receipt>) {
    if t.phase.Finished? then Leaves(job, job.prog(t.local.obs)) else None
  }

  /** Each transaction of the wave has a receipt slot of its own, still empty. */
  ghost predicate OwnSlots(jobs: seq<Job>, l0: Ledger) {
    && (forall i :: 0 <= i < |jobs| ==> jobs[i].slot < |l0.receipts| && l0.receipts[jobs[i].slot].None?)
    && (forall i, j :: 0 <= i < j < |jobs| ==> jobs[i].slot != jobs[j].slot)
  }

  ghost predicate IsSlot(jobs: seq<Job>, p: nat) {
    exists i :: 0 <= i < |jobs| && jobs[i].slot == p
  }

  ghost predicate Slotted(jobs: seq<Job>, l0: Ledger, s: State) {
    && |s.ledger.receipts| == |l0.receipts| && |s.threads| == |jobs|
    && (forall i :: 0 <= i < |jobs| ==> jobs[i].slot < |l0.receipts|)
    && (forall i :: 0 <= i < |jobs| ==> Settle(s.ledger.receipts[jobs[i].slot]) == Left(jobs[i], s.threads[i]))
    && (forall p: nat :: p < |l0.receipts| && !IsSlot(jobs, p) ==> s.ledger.receipts[p] == l0.receipts[p])
  }

  lemma SlottedMove(jobs: seq<Job>, l0: Ledger, s: State, s': State, i: nat)
    requires OwnSlots(jobs, l0) && Slotted(jobs, l0, s) && Moves(jobs, s, s', i)
    requires |s'.ledger.receipts| == |l0.receipts|
    requires forall p :: 0 <= p < |l0.receipts| && p != jobs[i].slot ==> s'.ledger.receipts[p] == s.ledger.receipts[p]
    requires Settle(s'.ledger.receipts[jobs[i].slot]) == Left(jobs[i], s'.threads[i])
    ensures Slotted(jobs, l0, s')
  {
    forall j | 0 <= j < |jobs| ensures Settle(s'.ledger.receipts[jobs[j].slot]) == Left(jobs[j], s'.threads[j]) {
      var a, b := if i < j then i else j, if i < j then j else i;
      assert a < b ==> jobs[a].slot != jobs[b].slot;
    }
    assert IsSlot(jobs, jobs[i].slot);
  }

  lemma SlottedStep(baseFee: Option<nat>, jobs: seq<Job>, l0: Ledger, s: State, c: Choice)
    requires Sound(jobs, s) && OwnSlots(jobs, l0) && Slotted(jobs, l0, s)
    ensures Slotted(jobs, l0, Step(baseFee, jobs, s, c))
  {
    hide Step, PhaseOk, LockOk;
    var s' := Step(baseFee, jobs, s, c);
    StepShape(baseFee, jobs, s, c);
    if s' != s {
      assert Settle(s.ledger.receipts[jobs[c.i].slot]) == Left(jobs[c.i], s.threads[c.i]) == None;
      SlottedMove(jobs, l0, s, s', c.i);
    }
  }

  /** Whatever the programs, in every interleaving each slot of the wave holds the receipt its
      own transaction has left. */
  lemma {:induction false} SlottedRun(baseFee: Option<nat>, jobs: seq<Job>, base: Store, l0: Ledger, cs: seq<Choice>)
    requires OwnSlots(jobs, l0)
    ensures Slotted(jobs, l0, Run(baseFee, jobs, Start(jobs, base, l0), cs))
  {
    if cs != [] {
      SoundRun(baseFee, jobs, base, l0, cs[..|cs| - 1]);
      SlottedRun(baseFee, jobs, base, l0, cs[..|cs| - 1]);
      SlottedStep(baseFee, jobs, l0, Run(baseFee, jobs, Start(jobs, base, l0), cs[..|cs| - 1]), cs[|cs| - 1]);
    }
  }

  /** No other transaction of the wave has this one's slot. */
  ghost predicate Sole(jobs: seq<Job>, x: nat) {
    x < |jobs| && forall y :: 0 <= y < |jobs| && y != x ==> jobs[y].slot != jobs[x].slot
  }

  /** The receipt a slot ends with: the one just left, or the one that was there. */
  function Over(r: Option<Receipt>, before: Option<Receipt>): (s: Option<Receipt>) {
    if r.Some? then r else Settle(before)
  }

  lemma SoleStep(baseFee: Option<nat>, jobs: seq<Job>, l0: Ledger, s: State, c: Choice, x: nat)
    requires Sound(jobs, s) && Sole(jobs, x) && jobs[x].slot < |l0.receipts| == |s.ledger.receipts|
    requires Settle(s.ledger.receipts[jobs[x].slot]) == Over(Left(jobs[x], s.threads[x]), l0.receipts[jobs[x].slot])
    ensures var s' := Step(baseFee, jobs, s, c);
      Settle(s'.ledger.receipts[jobs[x].slot]) == Over(Left(jobs[x], s'.threads[x]), l0.receipts[jobs[x].slot])
  {
    hide Step, PhaseOk, LockOk;
    StepShape(baseFee, jobs, s, c);
  }

  /** Whatever the programs and whatever the slot held: in every interleaving the slot of a
      transaction that shares it with no other of the wave holds the receipt that transaction has
      left, or else what it held before. */
  lemma {:induction false} SoleRun(baseFee: Option<nat>, jobs: seq<Job>, base: Store, l0: Ledger, cs: seq<Choice>,
                                   x: nat)
    requires Sole(jobs, x) && jobs[x].slot < |l0.receipts|
    ensures var s := Run(baseFee, jobs, Start(jobs, base, l0), cs);
      Settle(s.ledger.receipts[jobs[x].slot]) == Over(Left(jobs[x], s.threads[x]), l0.receipts[jobs[x].slot])
  {
    hide Sole;
    if cs != [] {
      var init := cs[..|cs| - 1];
      SoundRun(baseFee, jobs, base, l0, init);
      SoleRun(baseFee, jobs, base, l0, init, x);
      SoleStep(baseFee, jobs, l0, Run(baseFee, jobs, Start(jobs, base, l0), init), cs[|cs| - 1], x);
    } else {
      assert Start(jobs, base, l0).threads[x].phase.Running? by { SoleIn(jobs, x); }
    }
  }

  lemma SoleIn(jobs: seq<Job>, x: nat)
    requires Sole(jobs, x)
    ensures x < |jobs|
  {
  }

  // ---------- The counters and the receipts agree ----------

  function GasIn(r: Option<Receipt>): (g: nat) {
    match r case Some(v) => v.gasUsed case None => 0
  }

  function GasSlots(rs: seq<Option<Receipt>>): (s: seq<nat>)
    ensures |s| == |rs| && forall p :: 0 <= p < |rs| ==> s[p] == GasIn(rs[p])
  {
    seq(|rs|, p requires 0 <= p < |rs| => GasIn(rs[p]))
  }

  /** Gas used times effective price, per slot. */
  function FeeSlots(baseFee: Option<nat>, txs: seq<Tx>, rs: seq<Option<Receipt>>): (s: seq<nat>)
    requires |txs| == |rs|
    ensures |s| == |rs| && forall p :: 0 <= p < |rs| ==> s[p] == GasIn(rs[p]) * Price(baseFee, txs[p])
  {
    seq(|rs|, p requires 0 <= p < |rs| => GasIn(rs[p]) * Price(baseFee, txs[p]))
  }

  /** The block counters are the sums over the receipt slots, and every receipt names the
      transaction of its slot. */
  ghost predicate Balanced(baseFee: Option<nat>, txs: seq<Tx>, l: Ledger) {
    && |l.receipts| == |txs|
    && l.gas == Total(GasSlots(l.receipts)) % TWO_64
    && l.fees == Total(FeeSlots(baseFee, txs, l.receipts))
    && (forall p :: 0 <= p < |txs| && l.receipts[p].Some? ==> l.receipts[p].value.txHash == txs[p].hash)
  }

  lemma BalancedPut(baseFee: Option<nat>, txs: seq<Tx>, l: Ledger, l': Ledger, p: nat, r: Receipt)
    requires Balanced(baseFee, txs, l) && p < |txs| && GasIn(l.receipts[p]) == 0
    requires l'.receipts == l.receipts[p := Some(r)] && r.txHash == txs[p].hash
    requires l'.gas == (l.gas + r.gasUsed) % TWO_64
    requires l'.fees == l.fees + r.gasUsed * Price(baseFee, txs[p])
    ensures Balanced(baseFee, txs, l')
  {
    var f := r.gasUsed * Price(baseFee, txs[p]);
    assert GasSlots(l'.receipts) == GasSlots(l.receipts)[p := r.gasUsed];
    TotalUpdate(GasSlots(l.receipts), p, r.gasUsed);
    ModAdd(Total(GasSlots(l.receipts)), r.gasUsed, TWO_64);
    var xs := FeeSlots(baseFee, txs, l.receipts);
    assert FeeSlots(baseFee, txs, l'.receipts) == xs[p := f];
    assert xs[p] == 0;
    TotalUpdate(xs, p, f);
  }

  /** Jobs of a block sit in slots of their own transactions. */
  ghost predicate JobsOf(jobs: seq<Job>, txs: seq<Tx>) {
    forall i :: 0 <= i < |jobs| ==> jobs[i].slot < |txs| && txs[jobs[i].slot] == jobs[i].tx
  }

  /** Only uncharged transactions share a slot. */
  ghost predicate ChargedApart(jobs: seq<Job>) {
    forall i, j :: 0 <= i < j < |jobs| && jobs[i].slot == jobs[j].slot ==> jobs[i].system && jobs[j].system
  }

  predicate NotCharged(job: Job, t: Thread) { job.system || !t.phase.Finished? }

  predicate NoGasAt(rs: seq<Option<Receipt>>, p: nat) { p < |rs| ==> GasIn(rs[p]) == 0 }

  /** Slots of transactions still to run, and those of uncharged ones, have no gas in them. */
  ghost predicate Unbilled(jobs: seq<Job>, s: State) {
    && |s.threads| == |jobs|
    && (forall i :: 0 <= i < |jobs| && NotCharged(jobs[i], s.threads[i]) ==> NoGasAt(s.ledger.receipts, jobs[i].slot))
  }

  /** What a move does to the ledger: nothing, or one receipt with its gas and fee. */
  lemma MoveBills(baseFee: Option<nat>, jobs: seq<Job>, s: State, c: Choice)
    requires Sound(jobs, s) && s.ledger.gas < TWO_64
    ensures var s' := Step(baseFee, jobs, s, c);
      || s'.ledger == s.ledger
      || (exists r: Receipt :: Posted(baseFee, jobs, s, s', c.i, r))
    ensures Step(baseFee, jobs, s, c) == s || Moves(jobs, s, Step(baseFee, jobs, s, c), c.i)
  {
    hide Step, PhaseOk, LockOk;
    var s' := Step(baseFee, jobs, s, c);
    StepShape(baseFee, jobs, s, c);
    if s'.ledger != s.ledger {
      SmallMod(s.ledger.gas, TWO_64);
      var job := jobs[c.i];
      if RefusedMove(jobs, s, s', c.i) {
        assert Posted(baseFee, jobs, s, s', c.i, Receipt(job.tx.hash, 0, 0, 0));
      } else {
        var gas, failed :| AccountedMove(baseFee, jobs, s, s', c.i, gas, failed);
        var r := AccountedBills(baseFee, jobs, s, s', c.i, gas, failed);
      }
    }
  }

  lemma AccountedBills(baseFee: Option<nat>, jobs: seq<Job>, s: State, s': State, i: nat, gas: nat, failed: bool)
    returns (r: Receipt)
    requires AccountedMove(baseFee, jobs, s, s', i, gas, failed)
    ensures Posted(baseFee, jobs, s, s', i, r)
  {
    var g := Charged(jobs[i], gas);
    r := Receipt(jobs[i].tx.hash, Status(failed), g, (s.ledger.gas + g) % TWO_64);
  }

  ghost predicate Posted(baseFee: Option<nat>, jobs: seq<Job>, s: State, s': State, i: nat, r: Receipt) {
    && Moves(jobs, s, s', i) && s'.threads[i].phase.Finished?
    && r.txHash == jobs[i].tx.hash && r.gasUsed == GasOf(jobs[i], jobs[i].prog(s'.threads[i].local.obs))
    && s'.ledger.receipts == Put(s.ledger.receipts, jobs[i].slot, r)
    && s'.ledger.gas == (s.ledger.gas + r.gasUsed) % TWO_64
    && s'.ledger.fees == s.ledger.fees + r.gasUsed * Price(baseFee, jobs[i].tx)
  }

  lemma BalancedStep(baseFee: Option<nat>, txs: seq<Tx>, jobs: seq<Job>, s: State, c: Choice)
    requires Sound(jobs, s) && JobsOf(jobs, txs) && ChargedApart(jobs)
    requires Unbilled(jobs, s) && Balanced(baseFee, txs, s.ledger)
    ensures Balanced(baseFee, txs, Step(baseFee, jobs, s, c).ledger)
    ensures Unbilled(jobs, Step(baseFee, jobs, s, c))
  {
    hide Step, PhaseOk, LockOk, Total, FeeSlots, GasSlots;
    var s' := Step(baseFee, jobs, s, c);
    MoveBills(baseFee, jobs, s, c);
    if s'.ledger != s.ledger {
      var r :| Posted(baseFee, jobs, s, s', c.i, r);
      BalancedPut(baseFee, txs, s.ledger, s'.ledger, jobs[c.i].slot, r);
      PostedUnbilled(baseFee, jobs, s, s', c.i, r);
    }
  }

  lemma PostedUnbilled(baseFee: Option<nat>, jobs: seq<Job>, s: State, s': State, i: nat, r: Receipt)
    requires ChargedApart(jobs) && Unbilled(jobs, s) && Posted(baseFee, jobs, s, s', i, r)
    ensures Unbilled(jobs, s')
  {
    forall j | 0 <= j < |jobs| && NotCharged(jobs[j], s'.threads[j])
      ensures NoGasAt(s'.ledger.receipts, jobs[j].slot)
    {
      var a, b := if i < j then i else j, if i < j then j else i;
      assert a < b && jobs[a].slot == jobs[b].slot ==> jobs[a].system && jobs[b].system;
    }
  }

  /** Whatever the programs, with only uncharged transactions sharing slots every interleaving
      keeps the counters equal to the sums over the slots. */
  lemma {:induction false} BalancedRun(baseFee: Option<nat>, txs: seq<Tx>, jobs: seq<Job>, base: Store, l0: Ledger,
                                       cs: seq<Choice>)
    requires JobsOf(jobs, txs) && ChargedApart(jobs)
    requires Unbilled(jobs, Start(jobs, base, l0)) && Balanced(baseFee, txs, l0)
    ensures Balanced(baseFee, txs, Run(baseFee, jobs, Start(jobs, base, l0), cs).ledger)
    ensures Unbilled(jobs, Run(baseFee, jobs, Start(jobs, base, l0), cs))
  {
    hide Balanced, Unbilled, JobsOf, ChargedApart;
    if cs != [] {
      var init := cs[..|cs| - 1];
      SoundRun(baseFee, jobs, base, l0, init);
      BalancedRun(baseFee, txs, jobs, base, l0, init);
      BalancedStep(baseFee, txs, jobs, Run(baseFee, jobs, Start(jobs, base, l0), init), cs[|cs| - 1]);
    }
  }

  /** Whatever the programs, no interleaving puts more gas under a slot than a transaction of
      that slot can use. */
  lemma {:induction false} GasCapped(baseFee: Option<nat>, jobs: seq<Job>, base: Store, l0: Ledger, cs: seq<Choice>,
                                     p: nat, cap: nat)
    requires l0.gas < TWO_64 && p < |l0.receipts| && GasIn(l0.receipts[p]) <= cap
    requires forall i, obs :: 0 <= i < |jobs| && jobs[i].slot == p ==> GasOf(jobs[i], jobs[i].prog(obs)) <= cap
    ensures GasIn(Run(baseFee, jobs, Start(jobs, base, l0), cs).ledger.receipts[p]) <= cap
  {
    if cs != [] {
      var init := cs[..|cs| - 1];
      SoundRun(baseFee, jobs, base, l0, init);
      TallyRun(baseFee, jobs, base, l0, init);
      GasCapped(baseFee, jobs, base, l0, init, p, cap);
      MoveBills(baseFee, jobs, Run(baseFee, jobs, Start(jobs, base, l0), init), cs[|cs| - 1]);
    }
  }

  // ---------- Compaction ----------

  /** A receipt for every slot: an empty one becomes a failed receipt. */
  function Filled(tx: Tx, r: Option<Receipt>): (v: Receipt) {
    match r case Some(v) => v case None => Receipt(tx.hash, 0, 0, 0)
  }

  /** The receipts of the first `n` transactions: one each, the cumulative gas a prefix sum. */
  ghost predicate Compacted(txs: seq<Tx>, receipts: seq<Option<Receipt>>, final: seq<Receipt>, n: nat)
    requires |receipts| == |txs|
  {
    && |final| == n <= |txs|
    && (forall i :: 0 <= i < n ==>
          final[i] == Filled(txs[i], receipts[i]).(cumulative := Total(GasSlots(receipts)[..i + 1]) % TWO_64))
  }

  /** The receipts the compaction gives. */
  ghost function FinalOf(txs: seq<Tx>, receipts: seq<Option<Receipt>>): (final: seq<Receipt>)
    requires |receipts| == |txs|
    ensures Compacted(txs, receipts, final, |txs|)
  {
    seq(|txs|, i requires 0 <= i < |txs| =>
      Filled(txs[i], receipts[i]).(cumulative := Total(GasSlots(receipts)[..i + 1]) % TWO_64))
  }

  /** The loop that compacts the receipts. */
  method Compact(txs: seq<Tx>, receipts: seq<Option<Receipt>>) returns (final: seq<Receipt>)
    requires |receipts| == |txs|
    ensures Compacted(txs, receipts, final, |txs|)
  {
    final := [];
    var cumulative := 0;
    for i := 0 to |receipts|
      invariant cumulative == Total(GasSlots(receipts)[..i]) % TWO_64
      invariant Compacted(txs, receipts, final, i)
    {
      var r := Filled(txs[i], receipts[i]);
      ghost var xs := GasSlots(receipts);
      assert xs[..i + 1][..i] == xs[..i];
      ModAdd(Total(xs[..i]), r.gasUsed, TWO_64);
      cumulative := (cumulative + r.gasUsed) % TWO_64;
      r := r.(cumulative := cumulative);
      final := final + [r];
    }
  }

  /** `getGasUsed`: the header's gas. */
  function HeaderGas(final: seq<Receipt>): (g: nat) {
    if final == [] then 0 else final[|final| - 1].cumulative
  }

  /** The header's gas is the sum over the receipt slots. */
  lemma HeaderGasIsSum(txs: seq<Tx>, receipts: seq<Option<Receipt>>, final: seq<Receipt>)
    requires |receipts| == |txs| && Compacted(txs, receipts, final, |txs|)
    ensures HeaderGas(final) == Total(GasSlots(receipts)) % TWO_64
  {
    var xs := GasSlots(receipts);
    assert xs[..|xs|] == xs;
  }

  /** With balanced counters, the header's gas is the block's gas counter, overflow included. */
  lemma HeaderGasIsCounter(baseFee: Option<nat>, txs: seq<Tx>, l: Ledger, final: seq<Receipt>)
    requires Balanced(baseFee, txs, l) && Compacted(txs, l.receipts, final, |txs|)
    ensures HeaderGas(final) == l.gas
  {
    HeaderGasIsSum(txs, l.receipts, final);
  }

  // ---------- Receipts and hashes, duplicates included ----------

  /** Every receipt carries the hash of the transaction at its slot. */
  ghost predicate Named(txs: seq<Tx>, rs: seq<Option<Receipt>>) {
    |rs| == |txs| && forall p :: 0 <= p < |txs| && rs[p].Some? ==> rs[p].value.txHash == txs[p].hash
  }

  /** Every job was given a slot carrying its own hash. */
  ghost predicate HashSlots(txs: seq<Tx>, jobs: seq<Job>) {
    forall i :: 0 <= i < |jobs| ==> jobs[i].slot < |txs| && txs[jobs[i].slot].hash == jobs[i].tx.hash
  }

  lemma NamedStep(baseFee: Option<nat>, txs: seq<Tx>, jobs: seq<Job>, s: State, c: Choice)
    requires Sound(jobs, s) && HashSlots(txs, jobs) && Named(txs, s.ledger.receipts)
    ensures Named(txs, Step(baseFee, jobs, s, c).ledger.receipts)
  {
    hide Step, PhaseOk, LockOk;
    StepShape(baseFee, jobs, s, c);
  }

  /** Whatever the programs, every interleaving keeps each receipt under a slot of its hash. */
  lemma {:induction false} NamedRun(baseFee: Option<nat>, txs: seq<Tx>, jobs: seq<Job>, base: Store, l0: Ledger,
                                    cs: seq<Choice>)
    requires HashSlots(txs, jobs) && Named(txs, l0.receipts)
    ensures Named(txs, Run(baseFee, jobs, Start(jobs, base, l0), cs).ledger.receipts)
  {
    if cs != [] {
      var init := cs[..|cs| - 1];
      SoundRun(baseFee, jobs, base, l0, init);
      NamedRun(baseFee, txs, jobs, base, l0, init);
      NamedStep(baseFee, txs, jobs, Run(baseFee, jobs, Start(jobs, base, l0), init), cs[|cs| - 1]);
    }
  }
}
