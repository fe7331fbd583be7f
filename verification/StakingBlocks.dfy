/** The validator registry under parallel execution. Whatever the interleavings of goroutines inside
    blocks and of rounds and imports around them, the stored registry stays a well-formed set and
    the staking account covers the recorded stakes. */
module StakingBlocks {
  import opened Base
  import opened Accounts
  import opened Registry
  import opened Scheduler
  import opened Wave
  import opened Traces
  import opened StakingProgram
  import opened StakingMessages
  import E = BlockExec
  import BR = BlockReceipts
  import G = Agreement
  import H = StakingHistory
  import P = Pipeline
  import D = Database

  // ---------- The registry in a state ----------

  ghost predicate RegOk(cfg: Config, s: Store, list: seq<Address>, bound: nat) {
    Lists(cfg, WorldOf(s), list, bound) && Solvent(cfg, WorldOf(s), list)
  }

  ghost function SupplyOf(s: Store): (n: nat) { H.Supply(WorldOf(s)) }

  ghost predicate Contracts(cfg: Config, bound: nat) {
    H.Apart(cfg) && cfg.validator < TWO_160 && bound < TWO_160
  }

  lemma WorldWord(s: Store, a: Address, k: nat)
    requires a < TWO_160
    ensures At(WorldOf(s), a, k) == if k < TWO_256 then Word(s, a, SlotOf(k)) else 0
  {
    hide Word;
  }

  lemma WorldBal(s: Store, a: Address)
    requires a < TWO_160
    ensures Bal(WorldOf(s), a) == Word(s, a, BalanceOf)
  {
    hide Word;
  }

  /** The words of both contracts and the pool read alike. */
  ghost predicate SameRegistry(cfg: Config, w: World, v: World) {
    && (forall k: nat :: At(w, cfg.validator, k) == At(v, cfg.validator, k))
    && (forall k: nat :: At(w, cfg.staking, k) == At(v, cfg.staking, k))
    && Bal(w, cfg.staking) == Bal(v, cfg.staking)
  }

  lemma SameIsOk(cfg: Config, w: World, v: World, list: seq<Address>, bound: nat)
    requires SameRegistry(cfg, w, v) && Lists(cfg, w, list, bound) && Solvent(cfg, w, list)
    ensures Lists(cfg, v, list, bound) && Solvent(cfg, v, list)
  {
    assert Stakes(cfg, w, list) == Stakes(cfg, v, list);
  }

  lemma ListedWords(cfg: Config, w: World, list: seq<Address>, bound: nat, k: nat)
    requires Lists(cfg, w, list, bound) && bound < TWO_160 && k >= TWO_256
    ensures At(w, cfg.validator, k) == 0 && At(w, cfg.staking, k) == 0
  {
    assert k !in list;
  }

  /** A state read as well-formed is well-formed. */
  lemma ReadsGood(cfg: Config, s: Store, w: World, list: seq<Address>, bound: nat)
    requires Contracts(cfg, bound) && Reads(s, w) && H.Good(cfg, w, list, bound)
    ensures RegOk(cfg, s, list, bound) && SupplyOf(s) == H.Supply(w)
  {
    hide H.SumTo, Lists, WorldOf, Solvent;
    var v := WorldOf(s);
    forall k: nat
      ensures At(w, cfg.validator, k) == At(v, cfg.validator, k) && At(w, cfg.staking, k) == At(v, cfg.staking, k)
    {
      WorldWord(s, cfg.validator, k);
      WorldWord(s, cfg.staking, k);
      if k >= TWO_256 { ListedWords(cfg, w, list, bound, k); }
    }
    WorldBal(s, cfg.staking);
    SameIsOk(cfg, w, v, list, bound);
    ReadsSupply(s, w, TWO_160);
  }

  lemma {:induction false} ReadsSupply(s: Store, w: World, n: nat)
    requires Reads(s, w) && n <= TWO_160
    ensures H.SumTo(WorldOf(s), n) == H.SumTo(w, n)
  {
    hide WorldOf;
    if n > 0 {
      ReadsSupply(s, w, n - 1);
      WorldBal(s, n - 1);
    }
  }

  lemma OkIsGood(cfg: Config, s: Store, list: seq<Address>, bound: nat)
    requires RegOk(cfg, s, list, bound) && SupplyOf(s) < TWO_256
    ensures H.Good(cfg, WorldOf(s), list, bound) && Reads(s, WorldOf(s))
  {
    hide WorldOf;
    WorldReads(s);
  }

  /** The keys the staking contract owns, registry slots included. */
  ghost function RegKeys(cfg: Config, k: Key): (ks: iset<Key>) {
    iset key: Key | KeyOwner(cfg, key) == cfg.staking && key != k
  }

  lemma RegKey(cfg: Config, a: Address, f: Field, coinbase: Address)
    requires cfg.staking < TWO_160 && cfg.validator < TWO_160 && coinbase < TWO_160 && coinbase != cfg.staking
    requires (a == cfg.staking && f == BalanceOf) || ((a == cfg.staking || a == cfg.validator) && f.SlotOf?)
    ensures FieldKey(a, f) in RegKeys(cfg, FieldKey(coinbase, BalanceOf))
  {
    hide FieldKey, KeyOwner;
    OwnerOfField(cfg, a, f);
    OwnerOfField(cfg, coinbase, BalanceOf);
  }

  /** What does not touch those keys keeps the registry. */
  lemma RegUnseen(cfg: Config, s: Store, t: Store, coinbase: Address, list: seq<Address>, bound: nat)
    requires Contracts(cfg, bound) && coinbase < TWO_160 && coinbase != cfg.staking
    requires RegOk(cfg, s, list, bound) && Agree(s, t, RegKeys(cfg, FieldKey(coinbase, BalanceOf)))
    ensures RegOk(cfg, t, list, bound)
  {
    hide Lists, WorldOf, Solvent, RegKeys, FieldKey;
    forall k: nat
      ensures At(WorldOf(s), cfg.validator, k) == At(WorldOf(t), cfg.validator, k)
      ensures At(WorldOf(s), cfg.staking, k) == At(WorldOf(t), cfg.staking, k)
    {
      WorldWord(s, cfg.validator, k);
      WorldWord(t, cfg.validator, k);
      WorldWord(s, cfg.staking, k);
      WorldWord(t, cfg.staking, k);
      RegKey(cfg, cfg.validator, SlotOf(k), coinbase);
      RegKey(cfg, cfg.staking, SlotOf(k), coinbase);
    }
    WorldBal(s, cfg.staking);
    WorldBal(t, cfg.staking);
    RegKey(cfg, cfg.staking, BalanceOf, coinbase);
    SameIsOk(cfg, WorldOf(s), WorldOf(t), list, bound);
  }

  // ---------- Blocks ----------

  /** What a transaction of the block is: a message to the staking contract, or something else. */
  datatype Sent = Staking(m: Message, t: Terms, fee: nat -> nat) | Other

  /** By itself the program never raises the total of all balances. */
  ghost predicate NoMint(p: Program) {
    forall s: Store :: SupplyOf(Effect(p, s)) <= SupplyOf(s)
  }

  /** A staking message from an address above `bound` whose fee is covered by its charge; or a framed
      program that has nothing to do with the staking contract and does not mint. */
  ghost predicate Kind(cfg: Config, bound: nat, coinbase: Address, tx: Tx, p: Program, x: Sent) {
    var k := FieldKey(coinbase, BalanceOf);
    match x
    case Staking(m, t, fee) =>
      && Sends(cfg, m, t, coinbase) && p == StakingMessage(cfg, m, t, k, fee) && Footprint(tx) == {m.from, cfg.staking}
      && bound < m.from && fee(t.gas) <= t.used && H.Addressed(cfg, m)
    case Other =>
      Fits(p, KeysOf(Footprint(tx), OwnerOf(cfg), {k}), {k}) && cfg.staking !in Footprint(tx) && NoMint(p)
  }

  ghost predicate StakingBlock(cfg: Config, bound: nat, coinbase: Address, txs: seq<Tx>, ps: seq<Program>,
                               xs: seq<Sent>) {
    && Contracts(cfg, bound) && coinbase < TWO_160 && coinbase != cfg.staking && |txs| == |ps| == |xs|
    && (forall i :: 0 <= i < |txs| ==> Kind(cfg, bound, coinbase, txs[i], ps[i], xs[i]))
  }

  lemma KindFits(cfg: Config, bound: nat, coinbase: Address, tx: Tx, p: Program, x: Sent)
    requires Kind(cfg, bound, coinbase, tx, p, x)
    ensures var k := FieldKey(coinbase, BalanceOf); Fits(p, KeysOf(Footprint(tx), OwnerOf(cfg), {k}), {k})
  {
    hide Fits, FieldKey, KeysOf;
    if x.Staking? { StakingMessageFits(cfg, x.m, x.t, coinbase, x.fee); }
  }

  lemma BlockFits(cfg: Config, bound: nat, coinbase: Address, txs: seq<Tx>, ps: seq<Program>, xs: seq<Sent>)
    requires StakingBlock(cfg, bound, coinbase, txs, ps, xs)
    ensures FramedBlock(txs, ps, OwnerOf(cfg), {FieldKey(coinbase, BalanceOf)})
  {
    hide Kind, Fits, FieldKey, Contracts;
    forall i | 0 <= i < |txs|
      ensures var k := FieldKey(coinbase, BalanceOf); Fits(ps[i], KeysOf(Footprint(txs[i]), OwnerOf(cfg), {k}), {k})
    {
      KindFits(cfg, bound, coinbase, txs[i], ps[i], xs[i]);
    }
  }

  /** A transaction that has nothing to do with the staking contract. */
  lemma OtherStep(cfg: Config, bound: nat, coinbase: Address, tx: Tx, p: Program, s: Store, list: seq<Address>)
    requires Contracts(cfg, bound) && coinbase < TWO_160 && coinbase != cfg.staking
    requires Kind(cfg, bound, coinbase, tx, p, Other) && RegOk(cfg, s, list, bound)
    ensures RegOk(cfg, Effect(p, s), list, bound) && SupplyOf(Effect(p, s)) <= SupplyOf(s)
  {
    hide Fits, FieldKey, RegOk, Effect, SupplyOf, Contracts, KeyOwner;
    var k := FieldKey(coinbase, BalanceOf);
    EffectUnseen(p, KeysOf(Footprint(tx), OwnerOf(cfg), {k}), RegKeys(cfg, k), {k}, s);
    RegUnseen(cfg, s, Effect(p, s), coinbase, list, bound);
  }

  /** Charge and fee together do not raise the supply. */
  lemma SettledSupply(w: World, from: Address, used: nat, coinbase: Address, fee: nat)
    requires from < TWO_160 && coinbase < TWO_160 && from != coinbase && fee <= used <= Bal(w, from)
    requires H.Supply(w) < TWO_256
    ensures H.Supply(w.(bal := Settled(w, from, used, coinbase, fee))) <= H.Supply(w)
  {
    hide H.SumTo;
    var w1 := WithBal(w, from, Bal(w, from) - used);
    H.SumPair(w, from, coinbase, TWO_160);
    SmallMod(Bal(w, coinbase) + fee, TWO_256);
    H.SumWithBal(w, from, Bal(w, from) - used, TWO_160);
    H.SumWithBal(w1, coinbase, Bal(w, coinbase) + fee, TWO_160);
  }

  /** One message grows the list by at most one. */
  lemma NextListSize(cfg: Config, w: World, list: seq<Address>, op: H.Op)
    ensures |H.NextList(cfg, w, list, op)| <= |list| + 1
  {
  }

  /** A message to the staking contract. */
  lemma StakingStep(cfg: Config, bound: nat, coinbase: Address, tx: Tx, p: Program, x: Sent, s: Store,
                    list: seq<Address>)
    returns (list': seq<Address>)
    requires Contracts(cfg, bound) && x.Staking? && Kind(cfg, bound, coinbase, tx, p, x)
    requires RegOk(cfg, s, list, bound) && SupplyOf(s) < TWO_256 && |list| < bound
    ensures RegOk(cfg, Effect(p, s), list', bound) && SupplyOf(Effect(p, s)) < TWO_256 && |list'| <= |list| + 1
  {
    hide FieldKey, RegOk, Effect, SupplyOf, Reads, H.Good, H.Step, H.NextList, StakingMessage, SoloOut, WorldOf,
      Settled, H.SumTo, Accepted;
    var m, t, w := x.m, x.t, WorldOf(s);
    OkIsGood(cfg, s, list, bound);
    GoodSupply(cfg, w, list, bound);
    StakingMessageEffect(cfg, m, t, coinbase, x.fee, s, w);
    list' := list;
    if Accepted(s, m.from, m.value, t) {
      var env := H.Env(Settled(w, m.from, t.used, coinbase, x.fee(t.gas)));
      EnvOk(cfg, bound, w, m.from, t.used, coinbase, x.fee(t.gas));
      H.StepKeepsGood(cfg, w, list, bound, env);
      EnvList(cfg, w, list, env);
      var w1 := H.Step(cfg, w, env);
      H.StepKeepsGood(cfg, w1, list, bound, H.Send(m));
      NextListSize(cfg, w1, list, H.Send(m));
      list' := H.NextList(cfg, w1, list, H.Send(m));
      ReadsGood(cfg, Effect(p, s), H.Step(cfg, w1, H.Send(m)), list', bound);
      GoodSupply(cfg, H.Step(cfg, w1, H.Send(m)), list', bound);
    }
  }

  lemma GoodSupply(cfg: Config, w: World, list: seq<Address>, bound: nat)
    requires H.Good(cfg, w, list, bound)
    ensures H.Supply(w) < TWO_256
  {
  }

  lemma EnvList(cfg: Config, w: World, list: seq<Address>, env: H.Op)
    requires env.Env?
    ensures H.NextList(cfg, w, list, env) == list
  {
  }

  lemma EnvOk(cfg: Config, bound: nat, w: World, from: Address, used: nat, coinbase: Address, fee: nat)
    requires from < TWO_160 && coinbase < TWO_160 && from != coinbase && fee <= used <= Bal(w, from)
    requires from != cfg.staking && coinbase != cfg.staking && H.Supply(w) < TWO_256
    ensures H.OpOk(cfg, bound, w, H.Env(Settled(w, from, used, coinbase, fee)))
  {
    hide H.SumTo;
    SettledSupply(w, from, used, coinbase, fee);
  }

  /** Transactions of the block one after the other, in any order. */
  lemma {:induction false} TurnsKeepRegistry(cfg: Config, bound: nat, coinbase: Address, txs: seq<Tx>, ps: seq<Program>,
                                             xs: seq<Sent>, order: seq<nat>, s: Store, list: seq<Address>)
    returns (list': seq<Address>)
    requires StakingBlock(cfg, bound, coinbase, txs, ps, xs) && InRange(order, |ps|)
    requires RegOk(cfg, s, list, bound) && SupplyOf(s) < TWO_256 && |list| + |order| <= bound
    ensures RegOk(cfg, SeqAt(ps, order, s), list', bound) && SupplyOf(SeqAt(ps, order, s)) < TWO_256
    ensures |list'| <= |list| + |order|
  {
    hide Kind, RegOk, SupplyOf, Effect, Contracts;
    list' := list;
    if order != [] {
      var o, i := order[..|order| - 1], order[|order| - 1];
      var t := SeqAt(ps, o, s);
      var l := TurnsKeepRegistry(cfg, bound, coinbase, txs, ps, xs, o, s, list);
      if xs[i].Staking? {
        list' := StakingStep(cfg, bound, coinbase, txs[i], ps[i], xs[i], t, l);
      } else {
        OtherStep(cfg, bound, coinbase, txs[i], ps[i], t, l);
        list' := l;
      }
    }
  }

  lemma {:induction false} FewPositions(s: seq<nat>, n: nat)
    requires Distinct(s) && InRange(s, n)
    ensures |s| <= n
    decreases n
  {
    assert |s| > 0 ==> s[0] < n;
    if n > 0 {
      if i :| 0 <= i < |s| && s[i] == n - 1 {
        DropIndex(s, i);
        FewPositions(s[..i] + s[i + 1..], n - 1);
      } else {
        FewPositions(s, n - 1);
      }
    }
  }

  lemma SharedUnseen(cfg: Config, s: Store, t: Store, k: Key)
    requires s - {k} == t - {k}
    ensures Agree(s, t, RegKeys(cfg, k))
  {
    hide KeyOwner;
    AgreeOutside(s, t, RegKeys(cfg, k), {k});
  }

  lemma RewardUnseen(cfg: Config, s: E.BlockState, coinbase: Address)
    ensures Agree(s.store, BR.WithReward(s, coinbase), RegKeys(cfg, FieldKey(coinbase, BalanceOf)))
  {
    hide KeyOwner, FieldKey;
  }

  /** In every complete interleaving of a block, the registry it leaves is well formed and the staking
      account covers it. */
  lemma BlockKeepsRegistry(cfg: Config, bound: nat, coinbase: Address, b: E.Block, xs: seq<Sent>, base: Store,
                           css: seq<seq<Choice>>, list: seq<Address>)
    returns (list': seq<Address>)
    requires E.Scheduled(b) && StakingBlock(cfg, bound, coinbase, b.txs, b.ps, xs) && E.Complete(b, base, css, |css|)
    requires RegOk(cfg, base, list, bound) && SupplyOf(base) < TWO_256 && |list| + |b.txs| <= bound
    ensures RegOk(cfg, BR.WithReward(E.Exec(b, base, css, |css|), coinbase), list', bound)
    ensures |list'| <= |list| + |b.txs|
  {
    hide Kind, RegOk, SupplyOf, E.Exec, E.Complete, E.Sequential, E.Started, FirstFit, FramedBlock, SeqAt, FieldKey,
      Flat, BR.WithReward, Agree, RegKeys, Contracts;
    var k, end := FieldKey(coinbase, BalanceOf), E.Exec(b, base, css, |css|);
    BlockFits(cfg, bound, coinbase, b.txs, b.ps, xs);
    E.BlockIsDeterministic(b, OwnerOf(cfg), {k}, base, css, |css|);
    E.SequentialIsFlat(b, base, |css|);
    var order := Flat(b.lv, E.Started(b, base, |css|));
    FlatElements(b.lv, E.Started(b, base, |css|));
    FewPositions(order, |b.lv|);
    list' := TurnsKeepRegistry(cfg, bound, coinbase, b.txs, b.ps, xs, order, base, list);
    var t := SeqAt(b.ps, order, base);
    SharedUnseen(cfg, t, end.store, k);
    RegUnseen(cfg, t, end.store, coinbase, list', bound);
    RewardUnseen(cfg, end, coinbase);
    RegUnseen(cfg, end.store, BR.WithReward(end, coinbase), coinbase, list', bound);
  }

  // ---------- Every run of a node ----------

  ghost predicate StakingItem(cfg: Config, bound: nat, x: G.Item, xs: seq<Sent>) {
    E.Scheduled(x.b) && StakingBlock(cfg, bound, x.coinbase, x.b.txs, x.b.ps, xs)
  }

  /** Transactions in a list of blocks. */
  function Sizes(items: seq<G.Item>): (n: nat) {
    if items == [] then 0 else Sizes(items[..|items| - 1]) + |items[|items| - 1].b.txs|
  }

  /** The blocks are of the kind above, and no block starts from a supply past 256 bits. */
  ghost predicate StakingLog(cfg: Config, bound: nat, items: seq<G.Item>, xss: seq<seq<Sent>>, init: Store,
                             log: seq<P.Done>) {
    && |xss| == |items| && G.Logged(items, init, log)
    && (forall i :: 0 <= i < |items| ==>
          StakingItem(cfg, bound, items[i], xss[i]) && SupplyOf(P.Whole(init, log[..i])) < TWO_256)
  }

  lemma LogInit(cfg: Config, bound: nat, items: seq<G.Item>, xss: seq<seq<Sent>>, init: Store, log: seq<P.Done>)
    requires items != [] && StakingLog(cfg, bound, items, xss, init, log)
    ensures var n := |items| - 1;
      && StakingLog(cfg, bound, items[..n], xss[..n], init, log[..n]) && |log| == n + 1
      && StakingItem(cfg, bound, items[n], xss[n]) && SupplyOf(P.Whole(init, log[..n])) < TWO_256
      && G.Executes(items[n], P.Whole(init, log[..n]), log[n].ws)
      && P.Whole(init, log) == P.PutAll(P.Whole(init, log[..n]), log[n].ws)
  {
    hide StakingItem, SupplyOf, P.Whole, G.Executes;
    var n := |items| - 1;
    G.LoggedInit(items, init, log);
    forall i | 0 <= i < n ensures SupplyOf(P.Whole(init, log[..n][..i])) < TWO_256 { assert log[..n][..i] == log[..i]; }
  }

  lemma ItemKeepsRegistry(cfg: Config, bound: nat, x: G.Item, xs: seq<Sent>, s: Store, ws: P.Writes, list: seq<Address>)
    returns (list': seq<Address>)
    requires StakingItem(cfg, bound, x, xs) && G.Executes(x, s, ws)
    requires RegOk(cfg, s, list, bound) && SupplyOf(s) < TWO_256 && |list| + |x.b.txs| <= bound
    ensures RegOk(cfg, P.PutAll(s, ws), list', bound) && |list'| <= |list| + |x.b.txs|
  {
    hide RegOk, SupplyOf, StakingBlock, FirstFit, E.Complete, E.Exec, BR.WithReward, P.PutAll;
    var css :| G.Schedules(x, s, css) && P.PutAll(s, ws) == G.Result(x, s, css);
    list' := BlockKeepsRegistry(cfg, bound, x.coinbase, x.b, xs, s, css, list);
  }

  lemma {:induction false} LogKeepsRegistry(cfg: Config, bound: nat, items: seq<G.Item>, xss: seq<seq<Sent>>,
                                            init: Store, log: seq<P.Done>, list: seq<Address>)
    returns (list': seq<Address>)
    requires StakingLog(cfg, bound, items, xss, init, log)
    requires RegOk(cfg, init, list, bound) && |list| + Sizes(items) <= bound
    ensures RegOk(cfg, P.Whole(init, log), list', bound) && |list'| <= |list| + Sizes(items)
  {
    hide RegOk, SupplyOf, StakingItem, G.Executes, P.PutAll;
    list' := list;
    if items == [] {
      assert log == [];
    } else {
      var n := |items| - 1;
      LogInit(cfg, bound, items, xss, init, log);
      var l := LogKeepsRegistry(cfg, bound, items[..n], xss[..n], init, log[..n], list);
      list' := ItemKeepsRegistry(cfg, bound, items[n], xss[n], P.Whole(init, log[..n]), log[n].ws, l);
    }
  }

  /** In every interleaving of rounds and imports, with every interleaving inside the blocks, at every
      step: the stored registry is a well-formed set that the staking account covers. */
  lemma RegistryInEveryRun(cfg: Config, bound: nat, items: seq<G.Item>, xss: seq<seq<Sent>>, n: P.Node,
                           cs: seq<(nat, P.Action)>, list: seq<Address>)
    returns (list': seq<Address>)
    requires P.Started(n) && StakingLog(cfg, bound, items, xss, n.tree, P.Run(n, cs).log)
    requires RegOk(cfg, n.tree, list, bound) && |list| + Sizes(items) <= bound
    ensures RegOk(cfg, D.Leaves(P.Run(n, cs).disk), list', bound)
  {
    hide RegOk, StakingLog, P.Run, P.Started, P.Inv, P.Whole, D.Leaves, Sizes;
    P.EveryInterleaving(n, cs);
    list' := LogKeepsRegistry(cfg, bound, items, xss, n.tree, P.Run(n, cs).log, list);
  }
}
