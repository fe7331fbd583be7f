/** From the staking contract to the consensus engine: what `SyncValidators` reads back after any
    history, and what the shown configuration makes of it. */
module ValidatorSync {
  import opened Base
  import opened Accounts
  import opened Registry
  import opened Election
  import opened Consensus
  import StakingHistory

  /** The listed validators, each with the stake a reader finds under `stakingAddr`. */
  function Listing(w: World, list: seq<Address>, stakingAddr: Address): (vs: seq<Validator>)
    ensures |vs| == |list|
    ensures forall i :: 0 <= i < |list| ==> vs[i] == Validator(list[i], At(w, stakingAddr, list[i]))
  {
    seq(|list|, i requires 0 <= i < |list| => Validator(list[i], At(w, stakingAddr, list[i])))
  }

  lemma {:induction false} ReadsListed(cfg: Config, w: World, list: seq<Address>, bound: nat, stakingAddr: Address,
                                       n: nat)
    requires Lists(cfg, w, list, bound) && n <= |list|
    ensures ReadSet(w, cfg.validator, stakingAddr, n) == Listing(w, list, stakingAddr)[..n]
  {
    if n > 0 {
      ReadsListed(cfg, w, list, bound, stakingAddr, n - 1);
      SmallMod(list[n - 1], TWO_160);
      var l := Listing(w, list, stakingAddr);
      assert l[..n] == l[..n - 1] + [l[n - 1]];
    }
  }

  /** After every legal history with a count below 2^64, `SyncValidators` yields exactly
      the current stakers, each once, in slot order. */
  lemma SyncYieldsStakers(cfg: Config, bound: nat, w0: World, ops: seq<StakingHistory.Op>, stakingAddr: Address)
    requires StakingHistory.Apart(cfg) && StakingHistory.Good(cfg, w0, [], bound)
    requires StakingHistory.Legal(cfg, bound, w0, ops) && |StakingHistory.ListAfter(cfg, w0, ops)| < TWO_64
    ensures var w, list := StakingHistory.Run(cfg, w0, ops), StakingHistory.ListAfter(cfg, w0, ops);
      var vs := ReadSet(w, cfg.validator, stakingAddr, At(w, cfg.validator, 0) % TWO_64);
      && vs == Listing(w, list, stakingAddr)
      && Unique(vs)
      && (forall a: Address :: (exists i :: 0 <= i < |vs| && vs[i].addr == a) <==> At(w, cfg.staking, a) != 0)
  {
    var w, list := StakingHistory.Run(cfg, w0, ops), StakingHistory.ListAfter(cfg, w0, ops);
    StakingHistory.EveryHistoryGood(cfg, bound, w0, ops);
    SmallMod(|list|, TWO_64);
    ReadsListed(cfg, w, list, bound, stakingAddr, |list|);
    var vs := Listing(w, list, stakingAddr);
    assert vs[..|list|] == vs;
    ListDistinct(cfg, w, list, bound);
    forall a: Address ensures (exists i :: 0 <= i < |vs| && vs[i].addr == a) <==> At(w, cfg.staking, a) != 0 {
      StakingHistory.ListedIffStaked(cfg, w, list, bound, a);
      if a in list {
        var i :| 0 <= i < |list| && list[i] == a;
        assert vs[i].addr == a;
      }
    }
  }

  /** Where nothing is stored under the reader's stake address unless it is the configured one,
      the synced stakes are the recorded stakes exactly when the two addresses are equal. */
  lemma SyncedStakesExactly(cfg: Config, w: World, list: seq<Address>, bound: nat, stakingAddr: Address)
    requires Lists(cfg, w, list, bound) && list != []
    requires stakingAddr != cfg.staking ==> forall k: nat :: At(w, stakingAddr, k) == 0
    ensures Listing(w, list, stakingAddr) == Listing(w, list, cfg.staking) <==> stakingAddr == cfg.staking
  {
    if stakingAddr != cfg.staking {
      assert list[0] in list;
      assert Listing(w, list, stakingAddr)[0].stake == 0;
      assert Listing(w, list, cfg.staking)[0].stake != 0;
    }
  }

  lemma {:induction false} ZeroPrefix(stakes: seq<int>, n: nat)
    requires n <= |stakes| && forall i :: 0 <= i < |stakes| ==> stakes[i] == 0
    ensures Prefix(stakes, n) == 0
  {
    if n > 0 { ZeroPrefix(stakes, n - 1); }
  }

  /** A reader with another stake address sees zero stakes, and the leader schedule becomes a plain
      rotation through the registry slots. The hard-coded reader address 0x2000 is the reward
      vault of every shown configuration, whose staking address is 0x1000. */
  lemma MismatchedReaderRotates(cfg: Config, w: World, list: seq<Address>, bound: nat, stakingAddr: Address,
                                seed: nat -> nat, view: nat)
    requires Lists(cfg, w, list, bound) && list != []
    requires forall k: nat :: At(w, stakingAddr, k) == 0
    ensures Leader(seed, Listing(w, list, stakingAddr), view) == list[view % |list|]
  {
    ZeroPrefix(StakesOf(Listing(w, list, stakingAddr)), |list|);
  }

  /** In every reachable state of a configuration whose staking address the reader does not use,
      a synced engine elects its leaders by rotation, whatever the stakes. */
  lemma ShownConfigurationRotates(cfg: Config, bound: nat, w0: World, ops: seq<StakingHistory.Op>,
                                  stakingAddr: Address, seed: nat -> nat, view: nat)
    requires StakingHistory.Apart(cfg) && StakingHistory.Good(cfg, w0, [], bound) && w0.words == map[]
    requires StakingHistory.Legal(cfg, bound, w0, ops) && |StakingHistory.ListAfter(cfg, w0, ops)| < TWO_64
    requires stakingAddr != cfg.staking && stakingAddr != cfg.validator
    ensures var w, list := StakingHistory.Run(cfg, w0, ops), StakingHistory.ListAfter(cfg, w0, ops);
      var vs := ReadSet(w, cfg.validator, stakingAddr, At(w, cfg.validator, 0) % TWO_64);
      list != [] ==> vs != [] && Leader(seed, vs, view) == list[view % |list|]
  {
    var w, list := StakingHistory.Run(cfg, w0, ops), StakingHistory.ListAfter(cfg, w0, ops);
    StakingHistory.EveryHistoryGood(cfg, bound, w0, ops);
    SyncYieldsStakers(cfg, bound, w0, ops, stakingAddr);
    if list != [] {
      forall k: nat ensures At(w, stakingAddr, k) == 0 { StakingHistory.OtherWords(cfg, w0, ops, stakingAddr, k); }
      MismatchedReaderRotates(cfg, w, list, bound, stakingAddr, seed, view);
    }
  }
}
