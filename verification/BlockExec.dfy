/** `ApplyBlock`: the waves of a block run one after the other, each in any interleaving, until
    the gas counter passes the block limit. Gas, fees and receipts turn out the same for every
    interleaving, and so does the state outside the keys that transactions share. */
module BlockExec {
  import opened Base
  import opened Scheduler
  import opened Wave
  import opened Traces
  import opened Receipts
  import Order

  const BLOCK_GAS: nat := 60_000_000

  datatype Block =
    Block(txs: seq<Tx>, lv: seq<nat>, ps: seq<Program>, baseFee: Option<nat>, system: set<Address>)

  predicate Sized(b: Block) { |b.txs| == |b.ps| == |b.lv| }

  /** A block with the wave of each position, as `schedule` assigns it. */
  ghost predicate Scheduled(b: Block) {
    Sized(b) && FirstFit(b.txs, b.lv)
  }

  /** The slot `txIndex` holds for a hash: the last position carrying it. */
  function LastWith(txs: seq<Tx>, h: nat, n: nat): (i: nat)
    requires n <= |txs|
    ensures n > 0 ==> i < n
  {
    if n == 0 then 0 else if txs[n - 1].hash == h then n - 1 else LastWith(txs, h, n - 1)
  }

  ghost predicate DistinctHashes(txs: seq<Tx>) {
    forall i, j :: 0 <= i < j < |txs| ==> txs[i].hash != txs[j].hash
  }

  /** A hash names one transaction. */
  ghost predicate HashNames(txs: seq<Tx>) {
    forall i, j :: 0 <= i < j < |txs| && txs[i].hash == txs[j].hash ==> txs[i] == txs[j]
  }

  lemma {:induction false} OwnIndex(txs: seq<Tx>, p: nat, n: nat)
    requires DistinctHashes(txs) && p < n <= |txs|
    ensures LastWith(txs, txs[p].hash, n) == p
  {
    if n - 1 != p { OwnIndex(txs, p, n - 1); }
  }

  /** Every slot handed out carries the hash it was asked for. */
  lemma {:induction false} IndexNames(txs: seq<Tx>, p: nat, n: nat)
    requires p < n <= |txs|
    ensures LastWith(txs, txs[p].hash, n) < |txs| && txs[LastWith(txs, txs[p].hash, n)].hash == txs[p].hash
  {
    if n - 1 != p { IndexNames(txs, p, n - 1); }
  }

  /** The slot is the last position carrying the hash. */
  lemma {:induction false} IndexIsLast(txs: seq<Tx>, p: nat, n: nat)
    requires p < n <= |txs|
    ensures forall q :: LastWith(txs, txs[p].hash, n) < q < n ==> txs[q].hash != txs[p].hash
  {
    if n - 1 != p && txs[n - 1].hash != txs[p].hash { IndexIsLast(txs, p, n - 1); }
  }

  /** The receipt slot of a position. */
  function SlotOf(b: Block, p: nat): (i: nat)
    requires p < |b.txs|
    ensures i < |b.txs|
  {
    LastWith(b.txs, b.txs[p].hash, |b.txs|)
  }

  /** A transaction to a system contract, which is not charged. */
  predicate IsSystem(b: Block, p: nat)
    requires p < |b.txs|
  {
    b.txs[p].to.Some? && b.txs[p].to.value in b.system
  }

  function JobAt(b: Block, p: nat): (j: Job)
    requires Sized(b) && p < |b.txs|
  {
    Job(b.txs[p], SlotOf(b, p), b.ps[p], IsSystem(b, p))
  }

  function JobsAt(b: Block, wave: seq<nat>): (js: seq<Job>)
    requires Sized(b) && InRange(wave, |b.txs|)
    ensures |js| == |wave| && forall i :: 0 <= i < |wave| ==> js[i] == JobAt(b, wave[i])
  {
    seq(|wave|, i requires 0 <= i < |wave| => JobAt(b, wave[i]))
  }

  // ---------- The block machine ----------

  datatype BlockState = BlockState(store: Store, ledger: Ledger)

  function Fresh(b: Block, base: Store): (s: BlockState) {
    BlockState(base, Ledger(0, 0, seq(|b.txs|, _ => None)))
  }

  ghost function WaveJobs(b: Block, w: nat): (js: seq<Job>)
    requires Sized(b)
  {
    JobsAt(b, Members(b.lv, w, |b.lv|))
  }

  /** One wave under the given interleaving. */
  ghost function WaveRun(b: Block, w: nat, s: BlockState, cs: seq<Choice>): (r: State)
    requires Sized(b)
    ensures |r.threads| == |WaveJobs(b, w)| && |r.ledger.receipts| == |s.ledger.receipts|
  {
    Run(b.baseFee, WaveJobs(b, w), Start(WaveJobs(b, w), s.store, s.ledger), cs)
  }

  /** The block after `n` waves: no further wave starts once the counter passes the limit. */
  ghost function Exec(b: Block, base: Store, css: seq<seq<Choice>>, n: nat): (s: BlockState)
    requires Sized(b) && n <= |css|
    ensures |s.ledger.receipts| == |b.txs|
  {
    if n == 0 then Fresh(b, base) else
      AfterWave(b, n - 1, Exec(b, base, css, n - 1), css[n - 1])
  }

  ghost function AfterWave(b: Block, w: nat, s: BlockState, cs: seq<Choice>): (r: BlockState)
    requires Sized(b)
    ensures |r.ledger.receipts| == |s.ledger.receipts|
  {
    if s.ledger.gas > BLOCK_GAS then s else
      var r := WaveRun(b, w, s, cs);
      BlockState(r.parent, r.ledger)
  }

  /** `waveWg.Wait`: every wave that starts runs to its end. */
  ghost predicate Complete(b: Block, base: Store, css: seq<seq<Choice>>, n: nat)
    requires Sized(b) && n <= |css|
  {
    forall w: nat :: w < n ==> RunToEnd(b, w, Exec(b, base, css, w), css[w])
  }

  ghost predicate RunToEnd(b: Block, w: nat, s: BlockState, cs: seq<Choice>)
    requires Sized(b)
  {
    s.ledger.gas <= BLOCK_GAS ==> AllFinished(WaveRun(b, w, s, cs))
  }

  // ---------- The same, one transaction at a time ----------

  datatype Outline = Outline(store: Store, gas: nat, fees: nat)

  function Summary(s: BlockState): (o: Outline) {
    Outline(s.store, s.ledger.gas, s.ledger.fees)
  }

  /** A whole wave, its transactions run alone from the state the wave starts in. */
  ghost function AfterJobs(b: Block, w: nat, o: Outline): (r: Outline)
    requires Sized(b)
  {
    if o.gas > BLOCK_GAS then o else
      var js := WaveJobs(b, w);
      Outline(SeqRun(Progs(js), o.store),
              (o.gas + Total(SoloGases(js, o.store))) % TWO_64,
              o.fees + Total(SoloFees(b.baseFee, js, o.store)))
  }

  ghost function Sequential(b: Block, base: Store, n: nat): (o: Outline)
    requires Sized(b)
  {
    if n == 0 then Outline(base, 0, 0) else AfterJobs(b, n - 1, Sequential(b, base, n - 1))
  }

  /** The own keys of each transaction of a wave. */
  ghost function WaveKeys(b: Block, owner: Key -> Address, shared: set<Key>, w: nat): (own: seq<iset<Key>>)
    requires Sized(b)
    ensures |own| == |WaveJobs(b, w)|
    ensures forall i :: 0 <= i < |own| ==> own[i] == KeysOf(Footprint(WaveJobs(b, w)[i].tx), owner, shared)
  {
    seq(|WaveJobs(b, w)|, i requires 0 <= i < |WaveJobs(b, w)| =>
      KeysOf(Footprint(WaveJobs(b, w)[i].tx), owner, shared))
  }

  lemma WaveIndependent(b: Block, owner: Key -> Address, shared: set<Key>, w: nat)
    requires Scheduled(b) && FramedBlock(b.txs, b.ps, owner, shared)
    ensures Independent(WaveJobs(b, w), WaveKeys(b, owner, shared, w), shared)
  {
    hide Fits, FirstFit, KeysOf;
    var wave := Members(b.lv, w, |b.lv|);
    var js, own := WaveJobs(b, w), WaveKeys(b, owner, shared, w);
    WaveApart(b.txs, b.lv, w);
    forall i, j | 0 <= i < j < |js| ensures own[i] !! own[j] {
      assert wave[i] in wave && wave[j] in wave && wave[i] < wave[j];
      assert !Clash(b.txs, wave[i], wave[j]);
      Unclashing(b.txs, owner, shared, wave[i], wave[j]);
    }
  }

  /** Equal outside the shared keys, with the same gas and fees. */
  ghost predicate Same(o: Outline, o': Outline, shared: set<Key>) {
    o.store - shared == o'.store - shared && o.gas == o'.gas && o.fees == o'.fees
  }

  lemma WaveIsDeterministic(b: Block, owner: Key -> Address, shared: set<Key>, w: nat, s: BlockState, cs: seq<Choice>)
    requires Scheduled(b) && FramedBlock(b.txs, b.ps, owner, shared) && s.ledger.gas < TWO_64 && RunToEnd(b, w, s, cs)
    ensures Same(Summary(AfterWave(b, w, s, cs)), AfterJobs(b, w, Summary(s)), shared)
    ensures AfterWave(b, w, s, cs).ledger.gas < TWO_64
  {
    hide Independent, Run, SeqRun, SoloGases, SoloFees, Start, Progs, SoloOut;
    if s.ledger.gas <= BLOCK_GAS {
      var js, own := WaveJobs(b, w), WaveKeys(b, owner, shared, w);
      WaveIndependent(b, owner, shared, w);
      WaveIsSequential(b.baseFee, js, own, shared, s.store, s.ledger, cs);
      WaveTally(b.baseFee, js, own, shared, s.store, s.ledger, cs);
    }
  }

  lemma SoloSame(b: Block, owner: Key -> Address, shared: set<Key>, wave: seq<nat>, a: Store, c: Store)
    requires Sized(b) && FramedBlock(b.txs, b.ps, owner, shared) && InRange(wave, |b.txs|) && a - shared == c - shared
    ensures SoloGases(JobsAt(b, wave), a) == SoloGases(JobsAt(b, wave), c)
    ensures SoloFees(b.baseFee, JobsAt(b, wave), a) == SoloFees(b.baseFee, JobsAt(b, wave), c)
  {
    hide Fits, Effect, SoloOut;
    var js := JobsAt(b, wave);
    forall i | 0 <= i < |js| ensures SoloGas(js[i], a) == SoloGas(js[i], c) {
      EffectSame(b.ps[wave[i]], KeysOf(Footprint(b.txs[wave[i]]), owner, shared), shared, a, c);
    }
  }

  /** A wave run from states equal outside the shared keys ends in such states. */
  lemma AfterJobsSame(b: Block, owner: Key -> Address, shared: set<Key>, w: nat, o: Outline, o': Outline)
    requires Sized(b) && FramedBlock(b.txs, b.ps, owner, shared) && Same(o, o', shared)
    ensures Same(AfterJobs(b, w, o), AfterJobs(b, w, o'), shared)
  {
    hide FramedBlock, SeqAt, SeqRun, SoloGases, SoloFees, JobsAt, Members;
    if o.gas <= BLOCK_GAS {
      var wave := Members(b.lv, w, |b.lv|);
      SoloSame(b, owner, shared, wave, o.store, o'.store);
      WaveIsFlat(b, w, o);
      WaveIsFlat(b, w, o');
      InBlock(b, owner, shared);
      SeqAtSame(b.txs, b.ps, owner, shared, wave, o.store, o'.store);
    }
  }

  lemma InBlock(b: Block, owner: Key -> Address, shared: set<Key>)
    requires FramedBlock(b.txs, b.ps, owner, shared)
    ensures |b.ps| == |b.txs|
  {
  }

  /** State outside the shared keys, gas and fees after any number of waves are those of a
      sequential run, whatever the interleavings. */
  lemma {:induction false} BlockIsDeterministic(b: Block, owner: Key -> Address, shared: set<Key>, base: Store,
                                                css: seq<seq<Choice>>, n: nat)
    requires Scheduled(b) && FramedBlock(b.txs, b.ps, owner, shared) && n <= |css| && Complete(b, base, css, n)
    ensures Same(Summary(Exec(b, base, css, n)), Sequential(b, base, n), shared)
    ensures Exec(b, base, css, n).ledger.gas < TWO_64
  {
    hide FramedBlock, FirstFit, AfterWave, AfterJobs, RunToEnd, Same, Summary, Fresh;
    if n == 0 {
      StartSame(b, base, shared);
    } else {
      var s, o := Exec(b, base, css, n - 1), Sequential(b, base, n - 1);
      BlockIsDeterministic(b, owner, shared, base, css, n - 1);
      assert RunToEnd(b, n - 1, s, css[n - 1]);
      WaveIsDeterministic(b, owner, shared, n - 1, s, css[n - 1]);
      AfterJobsSame(b, owner, shared, n - 1, Summary(s), o);
      SameTrans(Summary(AfterWave(b, n - 1, s, css[n - 1])), AfterJobs(b, n - 1, Summary(s)), AfterJobs(b, n - 1, o),
                shared);
    }
  }

  lemma SameTrans(o: Outline, o': Outline, o'': Outline, shared: set<Key>)
    requires Same(o, o', shared) && Same(o', o'', shared)
    ensures Same(o, o'', shared)
  {
  }

  lemma StartSame(b: Block, base: Store, shared: set<Key>)
    requires Sized(b)
    ensures Same(Summary(Fresh(b, base)), Outline(base, 0, 0), shared) && Fresh(b, base).ledger.gas < TWO_64
  {
  }

  // ---------- Wave order and block order ----------

  lemma {:induction false} SeqRunIsSeqAt(b: Block, wave: seq<nat>, base: Store, n: nat)
    requires Sized(b) && InRange(wave, |b.txs|) && n <= |wave|
    ensures SeqRun(Progs(JobsAt(b, wave))[..n], base) == SeqAt(b.ps, wave[..n], base)
  {
    if n > 0 {
      var ps := Progs(JobsAt(b, wave));
      SeqRunIsSeqAt(b, wave, base, n - 1);
      assert ps[..n][..n - 1] == ps[..n - 1] && wave[..n][..n - 1] == wave[..n - 1];
      assert ps[n - 1] == b.ps[wave[n - 1]];
    }
  }

  /** How many waves run before the gas limit stops the block. */
  ghost function Started(b: Block, base: Store, n: nat): (m: nat)
    requires Sized(b)
    ensures m <= n
  {
    if n == 0 then 0 else if Sequential(b, base, n - 1).gas > BLOCK_GAS then Started(b, base, n - 1) else n
  }

  lemma WaveIsFlat(b: Block, w: nat, o: Outline)
    requires Sized(b) && o.gas <= BLOCK_GAS
    ensures AfterJobs(b, w, o).store == SeqAt(b.ps, Members(b.lv, w, |b.lv|), o.store)
  {
    var wave := Members(b.lv, w, |b.lv|);
    var ps := Progs(JobsAt(b, wave));
    SeqRunIsSeqAt(b, wave, o.store, |wave|);
    assert ps[..|wave|] == ps && wave[..|wave|] == wave;
  }

  /** A block is its started waves, one transaction after the other. */
  lemma {:induction false} SequentialIsFlat(b: Block, base: Store, n: nat)
    requires Sized(b)
    ensures Sequential(b, base, n).store == SeqAt(b.ps, Flat(b.lv, Started(b, base, n)), base)
    ensures Sequential(b, base, n).gas <= BLOCK_GAS ==> Started(b, base, n) == n
  {
    hide *;
    if n == 0 {
      FlatStart(b, base);
    } else {
      SequentialIsFlat(b, base, n - 1);
      FlatStep(b, base, n - 1);
    }
  }

  lemma FlatStart(b: Block, base: Store)
    requires Sized(b)
    ensures Sequential(b, base, 0).store == SeqAt(b.ps, Flat(b.lv, Started(b, base, 0)), base)
    ensures Started(b, base, 0) == 0
  {
  }

  lemma FlatStep(b: Block, base: Store, w: nat)
    requires Sized(b)
    requires Sequential(b, base, w).store == SeqAt(b.ps, Flat(b.lv, Started(b, base, w)), base)
    requires Sequential(b, base, w).gas <= BLOCK_GAS ==> Started(b, base, w) == w
    ensures Sequential(b, base, w + 1).store == SeqAt(b.ps, Flat(b.lv, Started(b, base, w + 1)), base)
    ensures Sequential(b, base, w + 1).gas <= BLOCK_GAS ==> Started(b, base, w + 1) == w + 1
  {
    hide SeqAt, Effect, SeqRun, Members, Flat, WaveJobs, SoloGases, SoloFees, Total;
    var o := Sequential(b, base, w);
    if o.gas <= BLOCK_GAS {
      WaveIsFlat(b, w, o);
      SeqAtConcat(b.ps, Flat(b.lv, w), Members(b.lv, w, |b.lv|), base);
      FlatNext(b.lv, w);
    }
  }

  /** A block no wave of which is cut off by gas, and whose dependency depths are gap free, ends,
      outside the shared keys, in the state of running its transactions in block order. */
  lemma BlockOrderState(b: Block, owner: Key -> Address, shared: set<Key>, base: Store, css: seq<seq<Choice>>)
    requires Scheduled(b) && FramedBlock(b.txs, b.ps, owner, shared) && Complete(b, base, css, |css|)
    requires forall i :: 0 <= i < |b.txs| ==> b.lv[i] < |css|
    requires forall w: nat :: w < |css| ==> Exec(b, base, css, w).ledger.gas <= BLOCK_GAS
    requires Order.GapFree(b.txs, Order.Depths(b.txs, |b.txs|))
    ensures Exec(b, base, css, |css|).store - shared == SeqAt(b.ps, Identity(|b.txs|), base) - shared
  {
    hide FramedBlock, FirstFit, Exec, Complete, Sequential, Started;
    var n := |css|;
    AllStarted(b, owner, shared, base, css);
    BlockIsDeterministic(b, owner, shared, base, css, n);
    SequentialIsFlat(b, base, n);
    Order.OrderKeptExactly(b.txs);
    LevelsFit(b.txs, |b.txs|);
    FirstFitUnique(b.txs, b.lv, Levels(b.txs, |b.txs|), |b.txs|);
    assert b.lv == b.lv[..|b.txs|] == Levels(b.txs, |b.txs|)[..|b.txs|] == Levels(b.txs, |b.txs|);
    KeptOrderIsBlockOrder(b.txs, b.lv, n, b.ps, owner, shared, base);
  }

  lemma AllStarted(b: Block, owner: Key -> Address, shared: set<Key>, base: Store, css: seq<seq<Choice>>)
    requires Scheduled(b) && FramedBlock(b.txs, b.ps, owner, shared) && Complete(b, base, css, |css|)
    requires forall w: nat :: w < |css| ==> Exec(b, base, css, w).ledger.gas <= BLOCK_GAS
    ensures Started(b, base, |css|) == |css|
  {
    hide FramedBlock, FirstFit, RunToEnd, Exec, Sequential;
    if |css| > 0 {
      BlockIsDeterministic(b, owner, shared, base, css, |css| - 1);
    }
  }

  /** Every complete interleaving of a wave of the block equals, outside the shared keys, running
      the wave's transactions one at a time, in any order. */
  lemma WaveAnyOrder(b: Block, owner: Key -> Address, shared: set<Key>, w: nat, s: BlockState, cs: seq<Choice>,
                     order: seq<nat>)
    requires Scheduled(b) && FramedBlock(b.txs, b.ps, owner, shared) && AllFinished(WaveRun(b, w, s, cs))
    requires InRange(order, |b.ps|) && Distinct(order) && SameElements(order, Members(b.lv, w, |b.lv|))
    ensures WaveRun(b, w, s, cs).parent - shared == SeqAt(b.ps, order, s.store) - shared
  {
    hide FramedBlock, FirstFit, Independent, Run, SeqRun, SoloOut;
    var wave := Members(b.lv, w, |b.lv|);
    WaveIndependent(b, owner, shared, w);
    WaveIsSequential(b.baseFee, WaveJobs(b, w), WaveKeys(b, owner, shared, w), shared, s.store, s.ledger, cs);
    var ps := Progs(JobsAt(b, wave));
    SeqRunIsSeqAt(b, wave, s.store, |wave|);
    assert ps[..|wave|] == ps && wave[..|wave|] == wave;
    WaveApart(b.txs, b.lv, w);
    AnyOrder(b.txs, b.ps, owner, shared, wave, order, s.store);
  }
}
