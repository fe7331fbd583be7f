/** The staking contract as plain arithmetic on balances and storage words: an iterable set of
    validators with swap-and-pop removal, held in one flat key space of 256-bit words (key 0 is
    the count, an index maps to an address, an address maps to its index), beside a stake table
    and the staking account's balance. */
module Registry {
  import opened Base
  import opened Accounts

  datatype Config = Config(staking: Address, reward: Address, validator: Address)

  datatype Payload = UnstakeData | RewardData(target: Address, amount: int) | OtherData

  datatype Message = Message(from: Address, to: Option<Address>, value: nat, data: Payload)

  // ---------- The operations ----------

  function AddBal(w: World, a: Address, n: nat): (r: World) {
    WithBal(w, a, (Bal(w, a) + n) % TWO_256)
  }

  function SubBal(w: World, a: Address, n: nat): (r: World)
    requires n < TWO_256
  {
    AddBal(w, a, (TWO_256 - n) % TWO_256)
  }

  /** `BigToHash`: the absolute value, cut to 256 bits. */
  function ToWord(n: int): (r: nat) { (if n < 0 then -n else n) % TWO_256 }

  /** DEPOSIT: record the stake, replacing any earlier one; a newcomer is appended. */
  function Deposit(cfg: Config, w: World, from: Address, value: nat): (r: World) {
    var w1 := WithAt(w, cfg.staking, from, ToWord(value));
    if At(w1, cfg.validator, from) == 0 then
      var count := ToWord(At(w1, cfg.validator, 0) + 1);
      var w2 := WithAt(w1, cfg.validator, 0, count);
      var w3 := WithAt(w2, cfg.validator, count, from);
      WithAt(w3, cfg.validator, from, count)
    else w1
  }

  /** The last validator moves to the freed index. */
  function Swap(cfg: Config, w: World, index: nat, count: nat): (r: World) {
    if index < count then
      var last := At(w, cfg.validator, count);
      var w1 := WithAt(w, cfg.validator, index, last);
      WithAt(w1, cfg.validator, last, index)
    else w
  }

  /** The last slot, the count and the leaver's own words. */
  function Clear(cfg: Config, w: World, from: Address, count: nat): (r: World) {
    var w2 := WithAt(w, cfg.validator, count, 0);
    var w3 := WithAt(w2, cfg.validator, 0, ToWord(count - 1));
    var w4 := WithAt(w3, cfg.staking, from, 0);
    WithAt(w4, cfg.validator, from, 0)
  }

  /** Swap-and-pop removal of the validator `from`. */
  function Remove(cfg: Config, w: World, from: Address): (r: World) {
    var index := At(w, cfg.validator, from);
    var count := At(w, cfg.validator, 0);
    Clear(cfg, Swap(cfg, w, index, count), from, count)
  }

  /** UNSTAKE: refund the recorded stake and leave the set, if the pool can pay. */
  function Unstake(cfg: Config, w: World, from: Address): (r: World) {
    var stake := At(w, cfg.staking, from);
    if 0 < stake < TWO_256 && Bal(w, cfg.staking) >= stake then
      Remove(cfg, AddBal(SubBal(w, cfg.staking, stake), from, stake), from)
    else w
  }

  /** REWARD: the vault pays the target the low 256 bits of the amount, if it can. */
  function PayReward(cfg: Config, w: World, target: Address, amount: int): (r: World) {
    var n := amount % TWO_256;
    if Bal(w, cfg.reward) >= n then AddBal(SubBal(w, cfg.reward, n), target, n) else w
  }

  function StakingPart(cfg: Config, w: World, m: Message): (r: World) {
    if m.to == Some(cfg.staking) then
      var w1 := if m.value > 0 then Deposit(cfg, w, m.from, m.value) else w;
      if m.data.UnstakeData? then Unstake(cfg, w1, m.from) else w1
    else w
  }

  /** `ProcessSystemContracts`. */
  function Process(cfg: Config, w: World, m: Message): (r: World) {
    var w1 := StakingPart(cfg, w, m);
    if m.to == Some(cfg.reward) && m.value == 0 && m.data.RewardData? then
      PayReward(cfg, w1, m.data.target, m.data.amount)
    else w1
  }

  // ---------- The registry invariant ----------

  /** The words hold exactly the listed validators, in this order. Addresses in use exceed
      `bound`, which the count never passes. */
  ghost predicate Lists(cfg: Config, w: World, list: seq<Address>, bound: nat) {
    && cfg.staking != cfg.validator
    && |list| <= bound
    && At(w, cfg.validator, 0) == |list|
    && (forall i :: 0 <= i < |list| ==> bound < list[i] < TWO_160 && At(w, cfg.validator, i + 1) == list[i])
    && (forall i :: 0 <= i < |list| ==> At(w, cfg.validator, list[i]) == i + 1)
    && (forall k: nat :: |list| < k && k !in list ==> At(w, cfg.validator, k) == 0)
    && (forall k: nat :: At(w, cfg.staking, k) != 0 <==> k in list)
  }

  /** The removal the registry performs, on the list. */
  function SwapPop(list: seq<Address>, i: nat): (r: seq<Address>)
    requires i < |list|
  {
    list[i := list[|list| - 1]][..|list| - 1]
  }

  lemma ListDistinct(cfg: Config, w: World, list: seq<Address>, bound: nat)
    requires Lists(cfg, w, list, bound)
    ensures forall i, j :: 0 <= i < j < |list| ==> list[i] != list[j]
  {
  }

  lemma DepositListed(cfg: Config, w: World, list: seq<Address>, bound: nat, from: Address, value: nat)
    requires Lists(cfg, w, list, bound) && from in list && 0 < value < TWO_256
    ensures Lists(cfg, Deposit(cfg, w, from, value), list, bound)
  {
    SmallMod(value, TWO_256);
  }

  /** What a newcomer's deposit writes, word by word. */
  lemma DepositWords(cfg: Config, w: World, from: Address, value: nat, n: nat)
    requires cfg.staking != cfg.validator && 0 < value < TWO_256
    requires At(w, cfg.validator, 0) == n && At(w, cfg.validator, from) == 0 && n + 1 < from < TWO_160
    ensures var r := Deposit(cfg, w, from, value);
      && (forall k: nat :: At(r, cfg.validator, k) ==
            if k == from || k == 0 then n + 1 else if k == n + 1 then from else At(w, cfg.validator, k))
      && (forall k: nat :: At(r, cfg.staking, k) == if k == from then value else At(w, cfg.staking, k))
  {
    SmallMod(value, TWO_256);
    SmallMod(n + 1, TWO_256);
  }

  lemma DepositNew(cfg: Config, w: World, list: seq<Address>, bound: nat, from: Address, value: nat)
    requires Lists(cfg, w, list, bound) && from !in list && 0 < value < TWO_256
    requires |list| < bound < from < TWO_160
    ensures Lists(cfg, Deposit(cfg, w, from, value), list + [from], bound)
  {
    hide Deposit;
    DepositWords(cfg, w, from, value, |list|);
    var list' := list + [from];
    forall k: nat ensures k in list' <==> k in list || k == from {}
  }

  /** A deposit keeps the registry well formed: a listed validator stays in place, a newcomer is
      appended. */
  lemma DepositKeepsList(cfg: Config, w: World, list: seq<Address>, bound: nat, from: Address, value: nat)
    requires Lists(cfg, w, list, bound) && 0 < value < TWO_256 && |list| < bound < from < TWO_160
    ensures Lists(cfg, Deposit(cfg, w, from, value), if from in list then list else list + [from], bound)
  {
    if from in list {
      DepositListed(cfg, w, list, bound, from, value);
    } else {
      DepositNew(cfg, w, list, bound, from, value);
    }
  }

  lemma SwapPopMembers(list: seq<Address>, i: nat)
    requires i < |list| && forall x, y :: 0 <= x < y < |list| ==> list[x] != list[y]
    ensures forall k: Address :: k in SwapPop(list, i) <==> k in list && k != list[i]
  {
    var n, r := |list|, SwapPop(list, i);
    forall k: Address ensures k in r <==> k in list && k != list[i] {
      if k in r {
        var x :| 0 <= x < |r| && r[x] == k;
        assert list[if x == i then n - 1 else x] == k;
      }
      if k in list && k != list[i] {
        var x :| 0 <= x < n && list[x] == k;
        assert r[if x == n - 1 then i else x] == k;
      }
    }
  }

  /** What a removal writes, word by word. */
  lemma RemoveWords(cfg: Config, w: World, from: Address, i: nat, n: nat, last: Address)
    requires cfg.staking != cfg.validator && i < n && n < from && n < last && n < TWO_160
    requires At(w, cfg.validator, 0) == n && At(w, cfg.validator, from) == i + 1
    requires At(w, cfg.validator, n) == last && (last == from <==> i == n - 1)
    ensures var r := Remove(cfg, w, from);
      && (forall k: nat :: At(r, cfg.validator, k) ==
            if k == 0 then n - 1 else if k == from || k == n then 0
            else if k == i + 1 then last else if k == last then i + 1 else At(w, cfg.validator, k))
      && (forall k: nat :: At(r, cfg.staking, k) == if k == from then 0 else At(w, cfg.staking, k))
      && r.bal == w.bal
  {
    SmallMod(n - 1, TWO_256);
  }

  /** A removal keeps the registry well formed: the last validator takes the freed place. */
  lemma RemoveKeepsList(cfg: Config, w: World, list: seq<Address>, bound: nat, i: nat)
    requires Lists(cfg, w, list, bound) && bound < TWO_160 && i < |list|
    ensures Lists(cfg, Remove(cfg, w, list[i]), SwapPop(list, i), bound)
  {
    hide Remove, At;
    var n := |list|;
    ListDistinct(cfg, w, list, bound);
    RemoveWords(cfg, w, list[i], i, n, list[n - 1]);
    SwapPopMembers(list, i);
  }

  // ---------- Solvency ----------

  /** The recorded stakes in list order. */
  function Stakes(cfg: Config, w: World, list: seq<Address>): (s: seq<nat>)
    ensures |s| == |list| && forall i :: 0 <= i < |list| ==> s[i] == At(w, cfg.staking, list[i])
  {
    seq(|list|, i requires 0 <= i < |list| => At(w, cfg.staking, list[i]))
  }

  /** The staking account covers the recorded stakes. */
  ghost predicate Solvent(cfg: Config, w: World, list: seq<Address>) {
    Total(Stakes(cfg, w, list)) <= Bal(w, cfg.staking)
  }

  lemma {:induction false} TotalAtLeast(xs: seq<nat>, i: nat)
    requires i < |xs|
    ensures xs[i] <= Total(xs)
  {
    if i < |xs| - 1 { TotalAtLeast(xs[..|xs| - 1], i); }
  }

  lemma TotalSnoc(xs: seq<nat>, x: nat)
    ensures Total(xs + [x]) == Total(xs) + x
  {
    assert (xs + [x])[..|xs|] == xs;
  }

  lemma TotalSwapPop(xs: seq<nat>, i: nat)
    requires i < |xs|
    ensures Total(xs[i := xs[|xs| - 1]][..|xs| - 1]) + xs[i] == Total(xs)
  {
    var n := |xs| - 1;
    var ys := xs[i := xs[n]];
    TotalUpdate(xs, i, xs[n]);
    assert Total(ys) == Total(ys[..n]) + ys[n];
  }

  /** The stake table after a deposit: at most the deposited value more in all, because an
      earlier stake is replaced. */
  lemma DepositStakes(cfg: Config, w: World, list: seq<Address>, bound: nat, from: Address, value: nat)
    requires Lists(cfg, w, list, bound) && 0 < value < TWO_256 && |list| < bound < from < TWO_160
    ensures var list' := if from in list then list else list + [from];
      Total(Stakes(cfg, Deposit(cfg, w, from, value), list')) <= Total(Stakes(cfg, w, list)) + value
  {
    var w' := Deposit(cfg, w, from, value);
    var xs := Stakes(cfg, w, list);
    ListDistinct(cfg, w, list, bound);
    if from in list {
      DepositOldStake(cfg, w, from, value);
      var i :| 0 <= i < |list| && list[i] == from;
      assert Stakes(cfg, w', list) == xs[i := value];
      TotalUpdate(xs, i, value);
    } else {
      DepositWords(cfg, w, from, value, |list|);
      assert Stakes(cfg, w', list + [from]) == xs + [value];
      TotalSnoc(xs, value);
    }
  }

  lemma DepositOldStake(cfg: Config, w: World, from: Address, value: nat)
    requires cfg.staking != cfg.validator && 0 < value < TWO_256 && At(w, cfg.validator, from) != 0
    ensures forall k: nat ::
      At(Deposit(cfg, w, from, value), cfg.staking, k) == if k == from then value else At(w, cfg.staking, k)
  {
    SmallMod(value, TWO_256);
  }

  lemma RemoveStakeWord(cfg: Config, w: World, from: Address, k: nat)
    requires cfg.staking != cfg.validator
    ensures At(Remove(cfg, w, from), cfg.staking, k) == if k == from then 0 else At(w, cfg.staking, k)
  {
  }

  lemma StakesSwapPop(cfg: Config, w: World, list: seq<Address>, i: nat)
    requires cfg.staking != cfg.validator && i < |list|
    requires forall x, y :: 0 <= x < y < |list| ==> list[x] != list[y]
    ensures var xs := Stakes(cfg, w, list);
      Stakes(cfg, Remove(cfg, w, list[i]), SwapPop(list, i)) == xs[i := xs[|list| - 1]][..|list| - 1]
  {
    hide Remove, At;
    var r, xs := SwapPop(list, i), Stakes(cfg, w, list);
    SwapPopMembers(list, i);
    forall x | 0 <= x < |r|
      ensures At(Remove(cfg, w, list[i]), cfg.staking, r[x]) == xs[i := xs[|list| - 1]][..|list| - 1][x]
    {
      assert r[x] in r;
      RemoveStakeWord(cfg, w, list[i], r[x]);
    }
  }

  /** The stake table after a removal: less by the removed stake. */
  lemma RemoveStakes(cfg: Config, w: World, list: seq<Address>, bound: nat, i: nat)
    requires Lists(cfg, w, list, bound) && bound < TWO_160 && i < |list|
    ensures Total(Stakes(cfg, Remove(cfg, w, list[i]), SwapPop(list, i))) + At(w, cfg.staking, list[i])
         == Total(Stakes(cfg, w, list))
  {
    hide Remove, At, Total, SwapPop;
    ListDistinct(cfg, w, list, bound);
    StakesSwapPop(cfg, w, list, i);
    TotalSwapPop(Stakes(cfg, w, list), i);
  }
}
