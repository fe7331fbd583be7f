/** What nodes agree on. Nodes that process the same blocks in the same order, each with its own
    interleavings of goroutines, rounds and imports, store the same state outside the shared keys
    and issue the same receipts. Under the shared keys, the coinbase balances, they can differ,
    and then they store one block under two hashes. */
module Agreement {
  import opened Base
  import D = Database
  import opened Scheduler
  import opened Wave
  import opened Traces
  import opened Receipts
  import opened BlockExec
  import opened BlockReceipts
  import opened Fees
  import opened Coinbase
  import A = Accounts
  import BlockWrites
  import P = Pipeline
  import PC = PipelineChain

  // ---------- One block ----------

  /** A block to process: its transactions as scheduled, the number of waves, the coinbase. */
  datatype Item = Item(b: Block, waves: nat, coinbase: Address)

  ghost predicate Runnable(x: Item, owner: Key -> Address, shared: set<Key>) {
    && Scheduled(x.b) && FramedBlock(x.b.txs, x.b.ps, owner, shared)
    && (forall i :: 0 <= i < |x.b.txs| ==> x.b.lv[i] < x.waves)
  }

  /** Interleavings of all the waves of a block, each run to its end. */
  ghost predicate Schedules(x: Item, s: Store, css: seq<seq<Choice>>) {
    Sized(x.b) && |css| == x.waves && Complete(x.b, s, css, |css|)
  }

  ghost function Result(x: Item, s: Store, css: seq<seq<Choice>>): (r: Store)
    requires Schedules(x, s, css)
  {
    WithReward(Exec(x.b, s, css, |css|), x.coinbase)
  }

  /** The writes are those of executing the block on `s`, in some interleavings. */
  ghost predicate Executes(x: Item, s: Store, ws: P.Writes) {
    exists css :: Schedules(x, s, css) && P.PutAll(s, ws) == Result(x, s, css)
  }

  /** Sequential runs from states equal outside the shared keys. */
  lemma {:induction false} SequentialSame(b: Block, owner: Key -> Address, shared: set<Key>, s: Store,
                                          s': Store, n: nat)
    requires Sized(b) && FramedBlock(b.txs, b.ps, owner, shared) && s - shared == s' - shared
    ensures Same(Sequential(b, s, n), Sequential(b, s', n), shared)
  {
    hide FramedBlock, AfterJobs;
    if n > 0 {
      SequentialSame(b, owner, shared, s, s', n - 1);
      AfterJobsSame(b, owner, shared, n - 1, Sequential(b, s, n - 1), Sequential(b, s', n - 1));
    }
  }

  /** One block executed on two nodes whose states are equal outside the shared keys. */
  lemma ResultsAgree(x: Item, owner: Key -> Address, shared: set<Key>, s: Store, s': Store, css: seq<seq<Choice>>,
                     css': seq<seq<Choice>>)
    requires Runnable(x, owner, shared) && s - shared == s' - shared && Schedules(x, s, css) && Schedules(x, s', css')
    ensures Result(x, s, css) - shared == Result(x, s', css') - shared
  {
    hide FramedBlock, Exec, Complete, Sequential, WithReward, FirstFit;
    BlockIsDeterministic(x.b, owner, shared, s, css, |css|);
    BlockIsDeterministic(x.b, owner, shared, s', css', |css'|);
    SequentialSame(x.b, owner, shared, s, s', x.waves);
    RewardSame(Exec(x.b, s, css, |css|), Exec(x.b, s', css', |css'|), x.coinbase, shared);
  }

  lemma ReceiptSame(b: Block, owner: Key -> Address, shared: set<Key>, s: Store, s': Store, p: nat)
    requires Sized(b) && FramedBlock(b.txs, b.ps, owner, shared) && s - shared == s' - shared && p < |b.txs|
    ensures ReceiptOf(b, s, p) == ReceiptOf(b, s', p)
  {
    hide FramedBlock, SoloReceipt, Sequential;
    SequentialSame(b, owner, shared, s, s', b.lv[p]);
    SoloReceiptSame(b, owner, shared, p, Sequential(b, s, b.lv[p]).store, Sequential(b, s', b.lv[p]).store);
  }

  /** They issue the same receipts. */
  lemma ReceiptsAgree(x: Item, owner: Key -> Address, shared: set<Key>, s: Store, s': Store, css: seq<seq<Choice>>,
                      css': seq<seq<Choice>>, final: seq<Receipt>, final': seq<Receipt>)
    requires Runnable(x, owner, shared) && s - shared == s' - shared && Schedules(x, s, css) && Schedules(x, s', css')
    requires DistinctHashes(x.b.txs)
    requires Compacted(x.b.txs, Exec(x.b, s, css, |css|).ledger.receipts, final, |x.b.txs|)
    requires Compacted(x.b.txs, Exec(x.b, s', css', |css'|).ledger.receipts, final', |x.b.txs|)
    ensures final == final'
  {
    hide FramedBlock, Exec, Complete, FirstFit, DistinctHashes, Compacted, ReceiptOf, FeeSlots;
    BlockReceiptsAre(x.b, owner, shared, s, css, final);
    BlockReceiptsAre(x.b, owner, shared, s', css', final');
    forall p | 0 <= p < |x.b.txs| ensures ReceiptOf(x.b, s, p) == ReceiptOf(x.b, s', p) {
      ReceiptSame(x.b, owner, shared, s, s', p);
    }
    assert ReceiptsOf(x.b, s) == ReceiptsOf(x.b, s');
    CompactedUnique(x.b.txs, ReceiptsOf(x.b, s), final, final');
  }

  // ---------- Whole runs of two nodes ----------

  /** The written blocks are the given ones, each executed on the state it found. */
  ghost predicate Logged(items: seq<Item>, init: Store, log: seq<P.Done>) {
    |log| == |items| && forall i :: 0 <= i < |items| ==> Executes(items[i], P.Whole(init, log[..i]), log[i].ws)
  }

  ghost predicate AllRunnable(items: seq<Item>, owner: Key -> Address, shared: set<Key>) {
    forall i :: 0 <= i < |items| ==> Runnable(items[i], owner, shared)
  }

  lemma LoggedInit(items: seq<Item>, init: Store, log: seq<P.Done>)
    requires items != [] && Logged(items, init, log)
    ensures Logged(items[..|items| - 1], init, log[..|log| - 1])
    ensures Executes(items[|items| - 1], P.Whole(init, log[..|log| - 1]), log[|log| - 1].ws)
    ensures P.Whole(init, log) == P.PutAll(P.Whole(init, log[..|log| - 1]), log[|log| - 1].ws)
  {
    hide Executes, P.Whole;
    var n := |items| - 1;
    forall i | 0 <= i < n ensures Executes(items[..n][i], P.Whole(init, log[..n][..i]), log[..n][i].ws) {
      assert log[..n][..i] == log[..i];
    }
    assert log == log[..n] + [log[n]];
    P.WholeSnoc(init, log[..n], log[n]);
  }

  /** The stored states of the same blocks in the same order. */
  lemma {:induction false} LogsAgree(items: seq<Item>, owner: Key -> Address, shared: set<Key>, init: Store,
                                     init': Store, log: seq<P.Done>, log': seq<P.Done>)
    requires AllRunnable(items, owner, shared) && init - shared == init' - shared
    requires Logged(items, init, log) && Logged(items, init', log')
    ensures P.Whole(init, log) - shared == P.Whole(init', log') - shared
  {
    hide Runnable, Schedules, Result, P.PutAll;
    if items == [] {
      assert log == [] && log' == [];
    } else {
      var n := |items| - 1;
      LoggedInit(items, init, log);
      LoggedInit(items, init', log');
      LogsAgree(items[..n], owner, shared, init, init', log[..n], log'[..n]);
      var s, s' := P.Whole(init, log[..n]), P.Whole(init', log'[..n]);
      var css :| Schedules(items[n], s, css) && P.PutAll(s, log[n].ws) == Result(items[n], s, css);
      var css' :| Schedules(items[n], s', css') && P.PutAll(s', log'[n].ws) == Result(items[n], s', css');
      ResultsAgree(items[n], owner, shared, s, s', css, css');
    }
  }

  /** Two nodes that start from states equal outside the shared keys and have written the same blocks
      in the same order: whatever the interleavings of their rounds, imports and goroutines, their
      databases hold the same state outside the shared keys, and so does their memory once
      their locks are free. */
  lemma NodesAgree(items: seq<Item>, owner: Key -> Address, shared: set<Key>, n: P.Node, n': P.Node,
                   cs: seq<(nat, P.Action)>, cs': seq<(nat, P.Action)>)
    requires AllRunnable(items, owner, shared)
    requires P.Started(n) && P.Started(n') && n.tree - shared == n'.tree - shared
    requires Logged(items, n.tree, P.Run(n, cs).log) && Logged(items, n'.tree, P.Run(n', cs').log)
    ensures D.Leaves(P.Run(n, cs).disk) - shared == D.Leaves(P.Run(n', cs').disk) - shared
    ensures P.Run(n, cs).lock.None? && P.Run(n', cs').lock.None? ==>
      P.Run(n, cs).tree - shared == P.Run(n', cs').tree - shared
  {
    hide P.Run, P.Started, P.Inv, P.Whole, D.Leaves, Logged, AllRunnable;
    P.EveryInterleaving(n, cs);
    P.EveryInterleaving(n', cs');
    LogsAgree(items, owner, shared, n.tree, n'.tree, P.Run(n, cs).log, P.Run(n', cs').log);
  }

  /** Every execution of a block is something the pipeline can do: there are writes for it. */
  lemma ExecutionsExist(x: Item, s: Store, css: seq<seq<Choice>>) returns (ws: P.Writes)
    requires Schedules(x, s, css)
    ensures Executes(x, s, ws) && P.PutAll(s, ws) == Result(x, s, css)
  {
    hide Exec, Complete, WithReward;
    ws := BlockWrites.ApplyBlockWrites(x.b, s, css, x.coinbase);
  }

  // ---------- The coinbase balance ----------

  /** A block of fee-paying messages none of which clash: one wave. */
  ghost predicate OneWave(x: Item, ms: seq<Part>, owner: Key -> Address, k: Key) {
    && k == A.FieldKey(x.coinbase, A.BalanceOf) && x.waves == 1
    && Scheduled(x.b) && (forall i :: 0 <= i < |x.b.txs| ==> x.b.lv[i] == 0)
    && FeePaying(x.b.txs, x.b.ps, ms, owner, k)
    && (forall i :: 0 <= i < |ms| ==> AlwaysHalts(ms[i].run) && AlwaysHalts(ms[i].post))
  }

  lemma {:induction false} AllInOne(lv: seq<nat>, n: nat)
    requires n <= |lv| && forall i :: 0 <= i < |lv| ==> lv[i] == 0
    ensures Members(lv, 0, n) == Identity(n)
  {
    if n > 0 {
      AllInOne(lv, n - 1);
      assert Identity(n) == Identity(n - 1) + [n - 1];
    }
  }

  lemma OneWavePays(x: Item, ms: seq<Part>, owner: Key -> Address, k: Key)
    requires OneWave(x, ms, owner, k)
    ensures Paying(WaveJobs(x.b, 0), ms, WaveKeys(x.b, owner, {k}, 0), k)
  {
    hide FirstFit, Framed, AlwaysHalts, MessageOf, Fits;
    var js, own := WaveJobs(x.b, 0), WaveKeys(x.b, owner, {k}, 0);
    AllInOne(x.b.lv, |x.b.lv|);
    MessagesFit(x.b.txs, x.b.ps, ms, owner, k);
    WaveIndependent(x.b, owner, {k}, 0);
  }

  /** The schedules of a single wave, and what they lead to. */
  lemma OneWaveRuns(x: Item, s: Store, css: seq<seq<Choice>>)
    requires Sized(x.b) && x.waves == 1 && |css| == 1
    ensures var js, l := WaveJobs(x.b, 0), Fresh(x.b, s).ledger;
      && (Schedules(x, s, css) <==> AllFinished(Run(x.b.baseFee, js, Start(js, s, l), css[0])))
      && Exec(x.b, s, css, 1).store == Run(x.b.baseFee, js, Start(js, s, l), css[0]).parent
  {
    hide Run, AllFinished;
    assert Exec(x.b, s, css, 0) == Fresh(x.b, s);
    assert Schedules(x, s, css) <==> RunToEnd(x.b, 0, Exec(x.b, s, css, 0), css[0]);
  }

  /** All interleavings of the block lead to one state. */
  ghost predicate OneResult(x: Item, s: Store) {
    forall css, css' :: Schedules(x, s, css) && Schedules(x, s, css') ==> Result(x, s, css) == Result(x, s, css')
  }

  /** Results that agree elsewhere are equal exactly when the waves left the coinbase the same. */
  lemma SameReward(a: BlockState, c: BlockState, coinbase: Address, k: Key)
    requires k == A.FieldKey(coinbase, A.BalanceOf) && a.ledger.fees == c.ledger.fees
    requires WithReward(a, coinbase) - {k} == WithReward(c, coinbase) - {k}
    ensures WithReward(a, coinbase) == WithReward(c, coinbase) <==>
      Amount(Fetch(a.store, k)) == Amount(Fetch(c.store, k))
  {
    hide A.FieldKey, FromBytes, MinBytes;
    var r := BLOCK_REWARD + a.ledger.fees;
    var u, v := Amount(Fetch(a.store, k)), Amount(Fetch(c.store, k));
    SameShift(u, v, r);
    assert u + BLOCK_REWARD + a.ledger.fees == u + r && v + BLOCK_REWARD + a.ledger.fees == v + r;
    SamePut(a.store, c.store, k, MinBytes((u + r) % TWO_256), MinBytes((v + r) % TWO_256));
    MinBytesApart((u + r) % TWO_256, (v + r) % TWO_256);
  }

  lemma SamePut(s: Store, t: Store, k: Key, u: Value, v: Value)
    requires s[k := u] - {k} == t[k := v] - {k}
    ensures s[k := u] == t[k := v] <==> u == v
  {
    assert s[k := u] == (s[k := u] - {k})[k := u];
    assert t[k := v] == (t[k := v] - {k})[k := v];
    assert s[k := u][k] == u && t[k := v][k] == v;
  }

  lemma MinBytesApart(m: nat, n: nat)
    ensures MinBytes(m) == MinBytes(n) <==> m == n
  {
    assert FromBytes(MinBytes(m)) == m && FromBytes(MinBytes(n)) == n;
  }

  lemma SameShift(u: nat, v: nat, r: nat)
    requires u < TWO_256 && v < TWO_256
    ensures (u + r) % TWO_256 == (v + r) % TWO_256 <==> u == v
  {
    if u < v {
      ShiftedMod(u + r, v - u);
    } else if v < u {
      ShiftedMod(v + r, u - v);
    }
  }

  lemma OneWaveRunnable(x: Item, ms: seq<Part>, owner: Key -> Address, k: Key)
    requires OneWave(x, ms, owner, k)
    ensures Runnable(x, owner, {k}) && Sized(x.b)
  {
    hide FramedBlock, AlwaysHalts, FeePaying, FirstFit;
    MessagesFit(x.b.txs, x.b.ps, ms, owner, k);
  }

  /** Two schedules lead to one state exactly when the wave leaves the coinbase the same. */
  lemma SameResult(x: Item, ms: seq<Part>, owner: Key -> Address, k: Key, s: Store, css: seq<seq<Choice>>,
                   css': seq<seq<Choice>>)
    requires OneWave(x, ms, owner, k) && Schedules(x, s, css) && Schedules(x, s, css')
    ensures Result(x, s, css) == Result(x, s, css') <==>
      Amount(Fetch(Exec(x.b, s, css, |css|).store, k)) == Amount(Fetch(Exec(x.b, s, css', |css'|).store, k))
  {
    hide FramedBlock, Exec, Complete, WithReward, FirstFit, FeePaying, AlwaysHalts, Amount, A.FieldKey, Sequential;
    OneWaveRunnable(x, ms, owner, k);
    ResultsAgree(x, owner, {k}, s, s, css, css');
    BlockIsDeterministic(x.b, owner, {k}, s, css, |css|);
    BlockIsDeterministic(x.b, owner, {k}, s, css', |css'|);
    SameReward(Exec(x.b, s, css, |css|), Exec(x.b, s, css', |css'|), x.coinbase, k);
  }

  /** All interleavings of a block without clashes lead to one state exactly when no two of its
      messages are executed, or none of those executed pays a fee. */
  lemma OneResultExactly(x: Item, ms: seq<Part>, owner: Key -> Address, k: Key, s: Store)
    requires OneWave(x, ms, owner, k)
    ensures OneResult(x, s) <==> NoRace(ms, s)
  {
    hide OneWave, Schedules, Result, Exec, Run, Start, AllFinished, NoRace, Amount, Paying, Fresh, WaveJobs;
    OneWaveRunnable(x, ms, owner, k);
    OneWaveIs(x, ms, owner, k);
    OneWavePays(x, ms, owner, k);
    var js, l := WaveJobs(x.b, 0), Fresh(x.b, s).ledger;
    OneBalanceExactly(x.b.baseFee, js, ms, WaveKeys(x.b, owner, {k}, 0), k, s, l);
    if NoRace(ms, s) {
      forall css, css' | Schedules(x, s, css) && Schedules(x, s, css') ensures Result(x, s, css) == Result(x, s, css') {
        ScheduleSize(x, s, css);
        ScheduleSize(x, s, css');
        OneWaveRuns(x, s, css);
        OneWaveRuns(x, s, css');
        SameResult(x, ms, owner, k, s, css, css');
      }
    } else {
      var cs, cs' :| AllFinished(Run(x.b.baseFee, js, Start(js, s, l), cs)) &&
                     AllFinished(Run(x.b.baseFee, js, Start(js, s, l), cs')) &&
                     Amount(Fetch(Run(x.b.baseFee, js, Start(js, s, l), cs).parent, k)) !=
                     Amount(Fetch(Run(x.b.baseFee, js, Start(js, s, l), cs').parent, k));
      OneWaveRuns(x, s, [cs]);
      OneWaveRuns(x, s, [cs']);
      SameResult(x, ms, owner, k, s, [cs], [cs']);
    }
  }

  lemma OneWaveIs(x: Item, ms: seq<Part>, owner: Key -> Address, k: Key)
    requires OneWave(x, ms, owner, k)
    ensures x.waves == 1
  {
  }

  lemma ScheduleSize(x: Item, s: Store, css: seq<seq<Choice>>)
    requires Schedules(x, s, css)
    ensures |css| == x.waves
  {
  }

  /** Then two nodes that execute one block on one state can store it under two hashes. */
  lemma TwoHashes(x: Item, ms: seq<Part>, owner: Key -> Address, k: Key, s: Store, stamp: P.Stamp, h: P.Header)
    returns (css: seq<seq<Choice>>, css': seq<seq<Choice>>)
    requires OneWave(x, ms, owner, k) && !NoRace(ms, s) && PC.GoodStamp(stamp)
    ensures Schedules(x, s, css) && Schedules(x, s, css')
    ensures stamp(h, Result(x, s, css)) != stamp(h, Result(x, s, css'))
  {
    hide OneWave, Schedules, Result, NoRace;
    OneResultExactly(x, ms, owner, k, s);
    css, css' :| Schedules(x, s, css) && Schedules(x, s, css') && Result(x, s, css) != Result(x, s, css');
  }

  // ---------- Growth ----------

  /** A block without transactions adds the reward to the coinbase balance and changes nothing else. */
  lemma EmptyBlockPays(x: Item, s: Store, ws: P.Writes)
    requires x.b.txs == [] && Executes(x, s, ws)
    ensures P.PutAll(s, ws) ==
      A.PutBalance(s, x.coinbase, (A.Word(s, x.coinbase, A.BalanceOf) + BLOCK_REWARD) % TWO_256)
  {
    hide A.PutBalance, A.Word, Exec, Complete, WithReward, P.PutAll;
    var css :| Schedules(x, s, css) && P.PutAll(s, ws) == Result(x, s, css);
    EmptyExec(x.b, s, css, |css|);
    RewardOnly(Exec(x.b, s, css, |css|), x.coinbase);
  }

  lemma RewardOnly(r: BlockState, coinbase: Address)
    requires r.ledger.fees == 0
    ensures WithReward(r, coinbase) ==
      A.PutBalance(r.store, coinbase, (A.Word(r.store, coinbase, A.BalanceOf) + BLOCK_REWARD) % TWO_256)
  {
    hide A.PutBalance, A.Word;
  }

  lemma {:induction false} EmptyExec(b: Block, s: Store, css: seq<seq<Choice>>, n: nat)
    requires Sized(b) && b.txs == [] && n <= |css|
    ensures Exec(b, s, css, n).store == s && Exec(b, s, css, n).ledger.fees == 0
  {
    if n > 0 {
      EmptyExec(b, s, css, n - 1);
      var r := Exec(b, s, css, n - 1);
      EmptyRun(b.baseFee, Start([], r.store, r.ledger), css[n - 1]);
      assert WaveJobs(b, n - 1) == [];
    }
  }

  lemma {:induction false} EmptyRun(baseFee: Option<nat>, s: State, cs: seq<Choice>)
    requires |s.threads| == 0
    ensures Run(baseFee, [], s, cs) == s
  {
    if cs != [] { EmptyRun(baseFee, s, cs[..|cs| - 1]); }
  }

  function BalanceAt(c: Address): (mu: Store -> nat) { (s: Store) => A.Word(s, c, A.BalanceOf) }

  /** Empty blocks of one proposer raise its balance, as long as it stays below 2^256: none of them is
      refused. */
  lemma EmptyBlocksGrow(items: seq<Item>, init: Store, log: seq<P.Done>, c: Address)
    requires Logged(items, init, log) && forall i :: 0 <= i < |items| ==> items[i].b.txs == [] && items[i].coinbase == c
    requires forall i :: 0 <= i < |items| ==> BalanceAt(c)(P.Whole(init, log[..i])) + BLOCK_REWARD < TWO_256
    ensures PC.Growing(init, log, BalanceAt(c))
  {
    hide Executes, P.Whole, A.PutBalance, A.FieldKey;
    forall m | 0 <= m < |log|
      ensures BalanceAt(c)(P.Whole(init, log[..m])) < BalanceAt(c)(P.Whole(init, log[..m + 1]))
    {
      var s := P.Whole(init, log[..m]);
      EmptyBlockPays(items[m], s, log[m].ws);
      P.WholeSnoc(init, log[..m], log[m]);
      assert log[..m + 1] == log[..m] + [log[m]];
      var n := A.Word(s, c, A.BalanceOf) + BLOCK_REWARD;
      SmallMod(n, TWO_256);
      PutReads(s, c, n);
    }
  }

  lemma PutReads(s: Store, c: Address, n: nat)
    requires n < TWO_256
    ensures A.Word(A.PutBalance(s, c, n), c, A.BalanceOf) == n
  {
    SmallMod(n, TWO_256);
  }
}
