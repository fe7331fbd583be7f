/** System-contract processing word by word: for every message on every state, what each balance and
    each storage word is afterwards, refusals included. */
module Processing {
  import opened Base
  import opened Accounts
  import opened Registry
  import H = StakingHistory

  // ---------- Deposits ----------

  /** A deposit moves no balance and replaces the depositor's stake. A depositor with an index changes
      nothing else; one without becomes the entry after the last. */
  lemma DepositExactly(cfg: Config, w: World, from: Address, value: nat)
    requires cfg.staking != cfg.validator
    ensures var r, next := Deposit(cfg, w, from, value), (At(w, cfg.validator, 0) + 1) % TWO_256;
      && r.bal == w.bal
      && (forall k: nat :: At(r, cfg.staking, k) == if k == from then value % TWO_256 else At(w, cfg.staking, k))
      && (forall k: nat :: At(r, cfg.validator, k) ==
            if At(w, cfg.validator, from) != 0 then At(w, cfg.validator, k)
            else if k == from then next else if k == next then from else if k == 0 then next
            else At(w, cfg.validator, k))
      && (forall a: Address, k: nat :: a != cfg.staking && a != cfg.validator ==> At(r, a, k) == At(w, a, k))
  {
  }

  // ---------- Removals ----------

  /** A removal takes the leaver's stake and index, clears the last slot and lowers the count; the
      entry of the last slot moves to the leaver's slot if that lies before it. */
  lemma RemoveExactly(cfg: Config, w: World, from: Address)
    requires cfg.staking != cfg.validator && At(w, cfg.validator, 0) < TWO_256
    ensures var r := Remove(cfg, w, from);
      var index, count := At(w, cfg.validator, from), At(w, cfg.validator, 0);
      var last := At(w, cfg.validator, count);
      && r.bal == w.bal
      && (forall k: nat :: At(r, cfg.staking, k) == if k == from then 0 else At(w, cfg.staking, k))
      && (forall k: nat :: At(r, cfg.validator, k) ==
            if k == from then 0
            else if k == 0 then (if count == 0 then 1 else count - 1)
            else if k == count then 0
            else if index < count && k == last then index
            else if index < count && k == index then last
            else At(w, cfg.validator, k))
      && (forall a: Address, k: nat :: a != cfg.staking && a != cfg.validator ==> At(r, a, k) == At(w, a, k))
  {
    var count := At(w, cfg.validator, 0);
    SmallMod(if count == 0 then 1 else count - 1, TWO_256);
  }

  /** Without a recorded stake, or with a pool that cannot pay it, nothing changes. Otherwise the pool
      falls by the stake, the leaver's balance rises by it, and the words are those of the removal. */
  lemma UnstakeExactly(cfg: Config, w: World, from: Address)
    requires Bal(w, cfg.staking) < TWO_256 && At(w, cfg.staking, from) < TWO_256
    ensures var r, stake := Unstake(cfg, w, from), At(w, cfg.staking, from);
      if stake == 0 || Bal(w, cfg.staking) < stake then r == w else
        && r.words == Remove(cfg, w, from).words
        && (forall a: Address :: Bal(r, a) ==
              if a == from && a == cfg.staking then Bal(w, a)
              else if a == from then (Bal(w, a) + stake) % TWO_256
              else if a == cfg.staking then Bal(w, a) - stake
              else Bal(w, a))
  {
    hide Remove;
    var stake := At(w, cfg.staking, from);
    if 0 < stake <= Bal(w, cfg.staking) {
      PaidOver(w, cfg.staking, from, stake);
      RemoveOnlyWords(cfg, w, AddBal(SubBal(w, cfg.staking, stake), from, stake), from);
    }
  }

  /** Debit, then credit of an amount the payer has. */
  lemma PaidOver(w: World, a: Address, b: Address, n: nat)
    requires n <= Bal(w, a) < TWO_256
    ensures n < TWO_256
    ensures var r := AddBal(SubBal(w, a, n), b, n);
      && r.words == w.words
      && (forall c: Address :: Bal(r, c) ==
            if c == a && c == b then Bal(w, c)
            else if c == b then (Bal(w, c) + n) % TWO_256
            else if c == a then Bal(w, c) - n
            else Bal(w, c))
  {
    H.SubIsMinus(Bal(w, a), n);
    SmallMod(Bal(w, a), TWO_256);
  }

  /** A removal looks at words only. */
  lemma RemoveOnlyWords(cfg: Config, w: World, v: World, from: Address)
    requires v.words == w.words
    ensures Remove(cfg, v, from).words == Remove(cfg, w, from).words && Remove(cfg, v, from).bal == v.bal
  {
    assert forall a: Address, k: nat :: At(v, a, k) == At(w, a, k);
  }

  // ---------- Rewards ----------

  /** A zero-value reward message with `n` its amount in 256 bits: a vault with less than `n` changes
      nothing; otherwise the vault falls by `n` and the target, whoever it is, rises by `n`, and
      paying the vault itself changes nothing. */
  lemma RewardExactly(cfg: Config, w: World, m: Message)
    requires m.to == Some(cfg.reward) && m.value == 0 && m.data.RewardData? && Bal(w, cfg.reward) < TWO_256
    ensures var r, n, target := Process(cfg, w, m), m.data.amount % TWO_256, m.data.target;
      && (Bal(w, cfg.reward) < n ==> r == w)
      && (Bal(w, cfg.reward) >= n ==>
            && r.words == w.words
            && (forall a: Address :: Bal(r, a) ==
                  if a == target && a == cfg.reward then Bal(w, a)
                  else if a == target then (Bal(w, a) + n) % TWO_256
                  else if a == cfg.reward then Bal(w, a) - n
                  else Bal(w, a)))
  {
    var n := m.data.amount % TWO_256;
    if Bal(w, cfg.reward) >= n { PaidOver(w, cfg.reward, m.data.target, n); }
  }

  /** With a supply that fits in 256 bits the target's balance does not wrap around. */
  lemma RewardArrives(cfg: Config, w: World, m: Message)
    requires H.Addressed(cfg, m) && H.Supply(w) < TWO_256
    requires m.to == Some(cfg.reward) && m.value == 0 && m.data.RewardData?
    requires m.data.target != cfg.reward && Bal(w, cfg.reward) >= m.data.amount % TWO_256
    ensures Bal(Process(cfg, w, m), m.data.target) == Bal(w, m.data.target) + m.data.amount % TWO_256
    ensures Bal(Process(cfg, w, m), cfg.reward) == Bal(w, cfg.reward) - m.data.amount % TWO_256
  {
    hide H.SumTo, Process;
    H.SumPair(w, cfg.reward, m.data.target, TWO_160);
    RewardExactly(cfg, w, m);
    SmallMod(Bal(w, m.data.target) + m.data.amount % TWO_256, TWO_256);
  }

  // ---------- Which messages do what ----------

  /** The messages that do something: deposits and leavings at the staking contract, zero-value
      rewards at the vault. */
  predicate Acts(cfg: Config, m: Message) {
    || (m.to == Some(cfg.staking) && (m.value > 0 || m.data.UnstakeData?))
    || (m.to == Some(cfg.reward) && m.value == 0 && m.data.RewardData?)
  }

  /** All other messages change nothing: a creation, another recipient, a reward that carries value, an
      empty call. */
  lemma OthersChangeNothing(cfg: Config, w: World, m: Message)
    requires !Acts(cfg, m)
    ensures Process(cfg, w, m) == w
  {
  }

  /** What a message to the staking contract records and pays: the stake is the value sent, or what
      was recorded before; an unstake message leaves with that, so one that carries value gets
      back what it sends and forgets the earlier stake. */
  lemma StakingExactly(cfg: Config, w: World, m: Message)
    requires m.to == Some(cfg.staking) && cfg.reward != cfg.staking && cfg.staking != cfg.validator
    requires Bal(w, cfg.staking) < TWO_256 && At(w, cfg.staking, m.from) < TWO_256 && m.value < TWO_256
    ensures var r := Process(cfg, w, m);
      var stake := if m.value > 0 then m.value else At(w, cfg.staking, m.from);
      var leaves := m.data.UnstakeData? && 0 < stake <= Bal(w, cfg.staking);
      && At(r, cfg.staking, m.from) == (if leaves then 0 else stake)
      && (forall k: nat :: k != m.from ==> At(r, cfg.staking, k) == At(w, cfg.staking, k))
      && (forall a: Address :: Bal(r, a) ==
            if !leaves || (a == m.from && a == cfg.staking) then Bal(w, a)
            else if a == m.from then (Bal(w, a) + stake) % TWO_256
            else if a == cfg.staking then Bal(w, a) - stake
            else Bal(w, a))
  {
    hide Deposit, Unstake, Remove, Bal, At;
    var w1 := if m.value > 0 then Deposit(cfg, w, m.from, m.value) else w;
    DepositExactly(cfg, w, m.from, m.value);
    SameBooks(w, w1);
    SmallMod(m.value, TWO_256);
    if m.data.UnstakeData? {
      UnstakeExactly(cfg, w1, m.from);
      if 0 < At(w1, cfg.staking, m.from) <= Bal(w1, cfg.staking) {
        LeaverStake(cfg, w1, Unstake(cfg, w1, m.from), m.from);
      }
    }
  }

  lemma SameBooks(w: World, v: World)
    requires v.bal == w.bal
    ensures forall a: Address :: Bal(v, a) == Bal(w, a)
  {
  }

  lemma LeaverStake(cfg: Config, w: World, r: World, from: Address)
    requires cfg.staking != cfg.validator && r.words == Remove(cfg, w, from).words
    ensures forall k: nat :: At(r, cfg.staking, k) == if k == from then 0 else At(w, cfg.staking, k)
  {
    hide Remove;
    forall k: nat ensures At(r, cfg.staking, k) == if k == from then 0 else At(w, cfg.staking, k) {
      RemoveStakeWord(cfg, w, from, k);
    }
  }

  // ---------- Whole messages ----------

  /** A transfer the sender can make moves the value and nothing else; to oneself it moves nothing. */
  lemma TransferExactly(w: World, from: Address, to: Address, n: nat)
    requires n <= Bal(w, from)
    ensures var r := H.Transfer(w, from, to, n);
      && r.words == w.words
      && (forall a: Address :: Bal(r, a) ==
            if from == to then Bal(w, a)
            else if a == from then Bal(w, a) - n
            else if a == to then Bal(w, a) + n
            else Bal(w, a))
  {
  }

  /** One message of a history: a value the sender does not have leaves no trace; a message nobody
      processes is a transfer, down to the sender's last unit. */
  lemma SendExactly(cfg: Config, w: World, m: Message)
    ensures Bal(w, m.from) < m.value ==> H.Step(cfg, w, H.Send(m)) == w
    ensures m.to.Some? && m.value <= Bal(w, m.from) && !Acts(cfg, m) ==>
      var r := H.Step(cfg, w, H.Send(m));
      && r.words == w.words
      && (forall a: Address :: Bal(r, a) ==
            if m.to == Some(m.from) then Bal(w, a)
            else if a == m.from then Bal(w, a) - m.value
            else if m.to == Some(a) then Bal(w, a) + m.value
            else Bal(w, a))
  {
    hide Process, H.Transfer;
    if m.to.Some? && m.value <= Bal(w, m.from) && !Acts(cfg, m) {
      TransferExactly(w, m.from, m.to.value, m.value);
      OthersChangeNothing(cfg, H.Transfer(w, m.from, m.to.value, m.value), m);
    }
  }
}
