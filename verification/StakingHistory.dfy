/** Every history of staking, reward and other transactions: the registry stays a well-formed
    set, the pool stays solvent, and system-contract processing conserves the supply. */
module StakingHistory {
  import opened Base
  import opened Accounts
  import opened Registry

  // ---------- The supply ----------

  /** The sum of the balances of the addresses below `n`. */
  function SumTo(w: World, n: nat): (s: nat) {
    if n == 0 then 0 else SumTo(w, n - 1) + Bal(w, n - 1)
  }

  /** The total of all balances. */
  function Supply(w: World): (s: nat) { SumTo(w, TWO_160) }

  lemma {:induction false} SumWithBal(w: World, a: Address, v: nat, n: nat)
    ensures SumTo(WithBal(w, a, v), n) + (if a < n then Bal(w, a) else 0) == SumTo(w, n) + (if a < n then v else 0)
  {
    if n > 0 { SumWithBal(w, a, v, n - 1); }
  }

  lemma {:induction false} SumAtLeast(w: World, a: Address, n: nat)
    requires a < n
    ensures Bal(w, a) <= SumTo(w, n)
  {
    if a < n - 1 { SumAtLeast(w, a, n - 1); }
  }

  lemma {:induction false} SumPair(w: World, a: Address, b: Address, n: nat)
    requires a < n && b < n && a != b
    ensures Bal(w, a) + Bal(w, b) <= SumTo(w, n)
  {
    if a < n - 1 && b < n - 1 {
      SumPair(w, a, b, n - 1);
    } else if a < n - 1 {
      SumAtLeast(w, a, n - 1);
    } else {
      SumAtLeast(w, b, n - 1);
    }
  }

  /** `SubBalance` then `AddBalance` of the same amount: a plain transfer when the payer can pay
      and the supply fits in 256 bits. */
  lemma PayConserves(w: World, a: Address, b: Address, n: nat)
    requires a < TWO_160 && b < TWO_160 && n <= Bal(w, a) && Supply(w) < TWO_256
    ensures n < TWO_256
    ensures var r := AddBal(SubBal(w, a, n), b, n);
      && Supply(r) == Supply(w) && r.words == w.words
      && (forall c: Address :: Bal(r, c) ==
            if a == b then Bal(w, c) else if c == a then Bal(w, a) - n else if c == b then Bal(w, b) + n else Bal(w, c))
  {
    hide SumTo;
    SumAtLeast(w, a, TWO_160);
    var w1 := SubBal(w, a, n);
    SubIsMinus(Bal(w, a), n);
    assert w1 == WithBal(w, a, Bal(w, a) - n);
    if a != b { SumPair(w, a, b, TWO_160); }
    SmallMod(Bal(w1, b) + n, TWO_256);
    SumWithBal(w, a, Bal(w, a) - n, TWO_160);
    SumWithBal(w1, b, Bal(w1, b) + n, TWO_160);
  }

  lemma SubIsMinus(x: nat, n: nat)
    requires n <= x < TWO_256
    ensures (x + (TWO_256 - n) % TWO_256) % TWO_256 == x - n
  {
  }

  ghost predicate Addressed(cfg: Config, m: Message) {
    && cfg.staking < TWO_160 && cfg.reward < TWO_160 && m.from < TWO_160
    && (m.data.RewardData? ==> m.data.target < TWO_160)
  }

  lemma UnstakeConserves(cfg: Config, w: World, from: Address)
    requires cfg.staking < TWO_160 && from < TWO_160 && Supply(w) < TWO_256
    ensures Supply(Unstake(cfg, w, from)) == Supply(w)
  {
    hide SumTo, Remove, AddBal, SubBal;
    var stake := At(w, cfg.staking, from);
    if 0 < stake < TWO_256 && Bal(w, cfg.staking) >= stake {
      PayConserves(w, cfg.staking, from, stake);
      var w1 := AddBal(SubBal(w, cfg.staking, stake), from, stake);
      RemoveBalances(cfg, w1, from);
      SameBalances(w1, Remove(cfg, w1, from), TWO_160);
    }
  }

  lemma RemoveBalances(cfg: Config, w: World, from: Address)
    ensures Remove(cfg, w, from).bal == w.bal
  {
  }

  lemma DepositBalances(cfg: Config, w: World, from: Address, value: nat)
    ensures Deposit(cfg, w, from, value).bal == w.bal
  {
  }

  lemma {:induction false} SameBalances(w: World, v: World, n: nat)
    requires v.bal == w.bal
    ensures SumTo(v, n) == SumTo(w, n)
  {
    if n > 0 { SameBalances(w, v, n - 1); }
  }

  /** System-contract processing conserves the total of all balances. */
  lemma ProcessConserves(cfg: Config, w: World, m: Message)
    requires Addressed(cfg, m) && Supply(w) < TWO_256
    ensures Supply(Process(cfg, w, m)) == Supply(w)
  {
    hide SumTo, Unstake, Deposit, AddBal, SubBal;
    var w1 := StakingPart(cfg, w, m);
    assert Supply(w1) == Supply(w) by {
      if m.to == Some(cfg.staking) {
        var w0 := if m.value > 0 then Deposit(cfg, w, m.from, m.value) else w;
        DepositBalances(cfg, w, m.from, m.value);
        SameBalances(w, w0, TWO_160);
        UnstakeConserves(cfg, w0, m.from);
      }
    }
    if m.data.RewardData? {
      var n := m.data.amount % TWO_256;
      if Bal(w1, cfg.reward) >= n { PayConserves(w1, cfg.reward, m.data.target, n); }
    }
  }

  // ---------- Histories ----------

  /** A transaction, or anything else that moves balances: other contracts, fees, block rewards. */
  datatype Op = Send(m: Message) | Env(bal: map<Address, nat>)

  /** The value transfer of the EVM that precedes system-contract processing. */
  function Transfer(w: World, from: Address, to: Address, n: nat): (r: World)
    requires n <= Bal(w, from)
  {
    var w1 := WithBal(w, from, Bal(w, from) - n);
    WithBal(w1, to, Bal(w1, to) + n)
  }

  /** One step: a message the sender cannot pay for is refused and leaves no trace. */
  function Step(cfg: Config, w: World, op: Op): (r: World) {
    match op
    case Send(m) =>
      if m.to.None? || Bal(w, m.from) < m.value then w
      else Process(cfg, Transfer(w, m.from, m.to.value, m.value), m)
    case Env(bal) => w.(bal := bal)
  }

  function Run(cfg: Config, w: World, ops: seq<Op>): (r: World) {
    if ops == [] then w else Step(cfg, Run(cfg, w, ops[..|ops| - 1]), ops[|ops| - 1])
  }

  function Find(list: seq<Address>, a: Address): (i: nat)
    requires a in list
    ensures i < |list| && list[i] == a
  {
    if list[0] == a then 0 else 1 + Find(list[1..], a)
  }

  /** The validator list as a plain history: joining appends, leaving swaps and pops. */
  function Join(list: seq<Address>, a: Address): (r: seq<Address>) {
    if a in list then list else list + [a]
  }

  function Leave(list: seq<Address>, a: Address): (r: seq<Address>) {
    if a in list then SwapPop(list, Find(list, a)) else list
  }

  function NextList(cfg: Config, w: World, list: seq<Address>, op: Op): (r: seq<Address>) {
    if op.Send? && op.m.to == Some(cfg.staking) && Bal(w, op.m.from) >= op.m.value then
      var l := if op.m.value > 0 then Join(list, op.m.from) else list;
      if op.m.data.UnstakeData? then Leave(l, op.m.from) else l
    else list
  }

  function ListAfter(cfg: Config, w: World, ops: seq<Op>): (r: seq<Address>) {
    if ops == [] then [] else
      var init := ops[..|ops| - 1];
      NextList(cfg, Run(cfg, w, init), ListAfter(cfg, w, init), ops[|ops| - 1])
  }

  /** Configurations keep the contracts apart. */
  ghost predicate Apart(cfg: Config) {
    && cfg.staking != cfg.validator && cfg.staking != cfg.reward
    && cfg.staking < TWO_160 && cfg.reward < TWO_160
  }

  /** The hypotheses on a step: stakers have addresses above `bound`, and the staking account
      never sends; other activity does not drain the staking account or mint past 256 bits. */
  ghost predicate OpOk(cfg: Config, bound: nat, w: World, op: Op) {
    match op
    case Send(m) =>
      && m.from != cfg.staking && Addressed(cfg, m)
      && (m.to.Some? ==> m.to.value < TWO_160)
      && (m.to == Some(cfg.staking) ==> bound < m.from)
    case Env(bal) => Supply(w.(bal := bal)) < TWO_256 && Bal(w.(bal := bal), cfg.staking) >= Bal(w, cfg.staking)
  }

  ghost predicate Good(cfg: Config, w: World, list: seq<Address>, bound: nat) {
    && Lists(cfg, w, list, bound)
    && Solvent(cfg, w, list)
    && Supply(w) < TWO_256
  }

  /** A listed validator can always leave: the pool covers the refund, which is paid in full. */
  lemma UnstakeNeverBlocked(cfg: Config, w: World, list: seq<Address>, bound: nat, from: Address)
    requires Apart(cfg) && Good(cfg, w, list, bound) && from in list && from != cfg.staking && from < TWO_160
    ensures var r, stake := Unstake(cfg, w, from), At(w, cfg.staking, from);
      && 0 < stake < TWO_256
      && r == Remove(cfg, AddBal(SubBal(w, cfg.staking, stake), from, stake), from)
      && Bal(r, from) == Bal(w, from) + stake && Bal(r, cfg.staking) == Bal(w, cfg.staking) - stake
  {
    hide SumTo, Remove, AddBal, SubBal;
    var stake := At(w, cfg.staking, from);
    var i := Find(list, from);
    TotalAtLeast(Stakes(cfg, w, list), i);
    PayConserves(w, cfg.staking, from, stake);
    RemoveBalances(cfg, AddBal(SubBal(w, cfg.staking, stake), from, stake), from);
  }

  lemma WordsOnly(cfg: Config, w: World, v: World, list: seq<Address>, bound: nat)
    requires Lists(cfg, w, list, bound) && v.words == w.words
    ensures Lists(cfg, v, list, bound) && Stakes(cfg, v, list) == Stakes(cfg, w, list)
  {
    assert forall a: Address, k: nat :: At(v, a, k) == At(w, a, k);
  }

  lemma UnstakeKeepsGood(cfg: Config, w: World, list: seq<Address>, bound: nat, from: Address)
    requires Apart(cfg) && Good(cfg, w, list, bound) && bound < TWO_160 && from != cfg.staking && from < TWO_160
    ensures Good(cfg, Unstake(cfg, w, from), Leave(list, from), bound)
  {
    hide SumTo, Remove, AddBal, SubBal, Lists, Stakes, SwapPop;
    UnstakeConserves(cfg, w, from);
    ListedIffStaked(cfg, w, list, bound, from);
    if from in list {
      UnstakeNeverBlocked(cfg, w, list, bound, from);
      var stake := At(w, cfg.staking, from);
      var w1 := AddBal(SubBal(w, cfg.staking, stake), from, stake);
      PayConserves(w, cfg.staking, from, stake);
      WordsOnly(cfg, w, w1, list, bound);
      RemoveKeepsList(cfg, w1, list, bound, Find(list, from));
      RemoveStakes(cfg, w1, list, bound, Find(list, from));
    }
  }

  lemma ListedIffStaked(cfg: Config, w: World, list: seq<Address>, bound: nat, a: Address)
    requires Lists(cfg, w, list, bound)
    ensures a in list <==> At(w, cfg.staking, a) != 0
  {
  }

  lemma TransferKeepsGood(cfg: Config, w: World, list: seq<Address>, bound: nat, from: Address, to: Address, n: nat)
    requires Good(cfg, w, list, bound) && n <= Bal(w, from) && from != cfg.staking && from < TWO_160 && to < TWO_160
    ensures var r := Transfer(w, from, to, n);
      && Good(cfg, r, list, bound) && r.words == w.words && n < TWO_256
      && Bal(r, cfg.staking) == Bal(w, cfg.staking) + if to == cfg.staking then n else 0
  {
    hide SumTo, Lists, Stakes;
    var w1 := WithBal(w, from, Bal(w, from) - n);
    SumWithBal(w, from, Bal(w, from) - n, TWO_160);
    SumWithBal(w1, to, Bal(w1, to) + n, TWO_160);
    SumAtLeast(w, from, TWO_160);
    WordsOnly(cfg, w, Transfer(w, from, to, n), list, bound);
  }

  /** A deposit after its value has arrived. */
  lemma DepositKeepsGood(cfg: Config, w: World, list: seq<Address>, bound: nat, from: Address, value: nat)
    requires Good(cfg, w, list, bound) && 0 < value < TWO_256 && |list| < bound < from < TWO_160
    requires Total(Stakes(cfg, w, list)) + value <= Bal(w, cfg.staking)
    ensures Good(cfg, Deposit(cfg, w, from, value), Join(list, from), bound)
  {
    hide SumTo, Lists, Stakes, Deposit;
    DepositKeepsList(cfg, w, list, bound, from, value);
    DepositStakes(cfg, w, list, bound, from, value);
    DepositBalances(cfg, w, from, value);
    SameBalances(w, Deposit(cfg, w, from, value), TWO_160);
  }

  lemma StakingKeepsGood(cfg: Config, w: World, list: seq<Address>, bound: nat, m: Message)
    requires Apart(cfg) && Good(cfg, w, list, bound) && |list| < bound && OpOk(cfg, bound, w, Send(m))
    requires m.to == Some(cfg.staking) && m.value <= Bal(w, m.from)
    ensures var w1 := Transfer(w, m.from, cfg.staking, m.value);
      Good(cfg, StakingPart(cfg, w1, m), NextList(cfg, w, list, Send(m)), bound)
  {
    hide SumTo, Lists, Stakes, Deposit, Unstake, Transfer, Join, Leave;
    var w1 := Transfer(w, m.from, cfg.staking, m.value);
    TransferKeepsGood(cfg, w, list, bound, m.from, cfg.staking, m.value);
    WordsOnly(cfg, w, w1, list, bound);
    var w2 := if m.value > 0 then Deposit(cfg, w1, m.from, m.value) else w1;
    var l := if m.value > 0 then Join(list, m.from) else list;
    if m.value > 0 { DepositKeepsGood(cfg, w1, list, bound, m.from, m.value); }
    UnstakeKeepsGood(cfg, w2, l, bound, m.from);
  }

  lemma RewardKeepsGood(cfg: Config, w: World, list: seq<Address>, bound: nat, target: Address, amount: int)
    requires Apart(cfg) && Good(cfg, w, list, bound) && target < TWO_160
    ensures Good(cfg, PayReward(cfg, w, target, amount), list, bound)
  {
    hide SumTo, Lists, Stakes, AddBal, SubBal;
    var n := amount % TWO_256;
    if Bal(w, cfg.reward) >= n {
      PayConserves(w, cfg.reward, target, n);
      WordsOnly(cfg, w, AddBal(SubBal(w, cfg.reward, n), target, n), list, bound);
    }
  }

  lemma StepKeepsGood(cfg: Config, w: World, list: seq<Address>, bound: nat, op: Op)
    requires Apart(cfg) && Good(cfg, w, list, bound) && |list| < bound && OpOk(cfg, bound, w, op)
    ensures Good(cfg, Step(cfg, w, op), NextList(cfg, w, list, op), bound)
  {
    hide SumTo, Lists, Stakes, Deposit, Unstake, AddBal, SubBal;
    match op
    case Env(bal) => WordsOnly(cfg, w, w.(bal := bal), list, bound);
    case Send(m) =>
      if m.to.Some? && Bal(w, m.from) >= m.value {
        if m.to.value == cfg.staking {
          StakingKeepsGood(cfg, w, list, bound, m);
        } else {
          TransferKeepsGood(cfg, w, list, bound, m.from, m.to.value, m.value);
          if m.data.RewardData? {
            RewardKeepsGood(cfg, Transfer(w, m.from, m.to.value, m.value), list, bound, m.data.target, m.data.amount);
          }
        }
      }
  }

  /** Every step is as `OpOk` asks, and the count stays below `bound` until the last. */
  ghost predicate Legal(cfg: Config, bound: nat, w: World, ops: seq<Op>) {
    forall i :: 0 <= i < |ops| ==>
      OpOk(cfg, bound, Run(cfg, w, ops[..i]), ops[i]) && |ListAfter(cfg, w, ops[..i])| < bound
  }

  /** After every legal history from an empty registry - with stakers' addresses, read as
      integers, above every count reached - slots 1..count and the pointers are mutually inverse,
      an address is listed exactly when its stake is nonzero, all other registry words are zero,
      and the pool covers the recorded stakes. The list is the one plain joining and leaving
      gives. */
  lemma {:induction false} EveryHistoryGood(cfg: Config, bound: nat, w: World, ops: seq<Op>)
    requires Apart(cfg) && Good(cfg, w, [], bound) && Legal(cfg, bound, w, ops)
    ensures Good(cfg, Run(cfg, w, ops), ListAfter(cfg, w, ops), bound)
  {
    if ops != [] {
      var n := |ops| - 1;
      var init := ops[..n];
      assert forall i :: 0 <= i < n ==> init[..i] == ops[..i];
      EveryHistoryGood(cfg, bound, w, init);
      assert OpOk(cfg, bound, Run(cfg, w, init), ops[n]) && |ListAfter(cfg, w, init)| < bound;
      StepKeepsGood(cfg, Run(cfg, w, init), ListAfter(cfg, w, init), bound, ops[n]);
    }
  }

  /** Some slot up to the count names the address. */
  ghost predicate InSomeSlot(cfg: Config, w: World, a: Address) {
    exists i :: 1 <= i <= At(w, cfg.validator, 0) && At(w, cfg.validator, i) == a
  }

  /** The hypothesis on addresses, exactly: a newcomer's deposit is always recorded, but the
      newcomer enters the list if and only if its address, read as an integer, exceeds the
      number already listed. A smaller address is the index of somebody else, so it looks
      listed already. */
  lemma NewcomerListedExactly(cfg: Config, w: World, list: seq<Address>, bound: nat, from: Address, value: nat)
    requires Lists(cfg, w, list, bound) && |list| < bound < TWO_160 && from !in list
    requires 0 < from < TWO_160 && 0 < value < TWO_256
    ensures var r := Deposit(cfg, w, from, value);
      && At(r, cfg.staking, from) == value
      && (InSomeSlot(cfg, r, from) <==> |list| < from)
  {
    var r, n := Deposit(cfg, w, from, value), |list|;
    SmallMod(value, TWO_256);
    SmallMod(n + 1, TWO_256);
    if n < from {
      assert At(w, cfg.validator, from) == 0;
      assert At(r, cfg.validator, n + 1) == from;
    } else {
      assert At(w, cfg.validator, from) == list[from - 1];
      forall i | 1 <= i <= At(r, cfg.validator, 0) ensures At(r, cfg.validator, i) != from {
        assert At(r, cfg.validator, i) == list[i - 1] && list[i - 1] in list;
      }
    }
  }

  // ---------- Storage of other contracts ----------

  lemma {:induction false} OtherWords(cfg: Config, w: World, ops: seq<Op>, a: Address, k: nat)
    requires a != cfg.staking && a != cfg.validator
    ensures At(Run(cfg, w, ops), a, k) == At(w, a, k)
  {
    if ops != [] {
      var init, op := ops[..|ops| - 1], ops[|ops| - 1];
      OtherWords(cfg, w, init, a, k);
      hide Process;
      if op.Send? && op.m.to.Some? && Bal(Run(cfg, w, init), op.m.from) >= op.m.value {
        ProcessOtherWords(cfg, Transfer(Run(cfg, w, init), op.m.from, op.m.to.value, op.m.value), op.m, a, k);
      }
    }
  }

  lemma RemoveOtherWords(cfg: Config, w: World, from: Address, a: Address, k: nat)
    requires a != cfg.staking && a != cfg.validator
    ensures At(Remove(cfg, w, from), a, k) == At(w, a, k)
  {
  }

  lemma ProcessOtherWords(cfg: Config, w: World, m: Message, a: Address, k: nat)
    requires a != cfg.staking && a != cfg.validator
    ensures At(Process(cfg, w, m), a, k) == At(w, a, k)
  {
    hide Remove;
    var w1 := if m.value > 0 then Deposit(cfg, w, m.from, m.value) else w;
    var stake := At(w1, cfg.staking, m.from);
    if stake < TWO_256 {
      RemoveOtherWords(cfg, AddBal(SubBal(w1, cfg.staking, stake), m.from, stake), m.from, a, k);
    }
  }

  // ---------- The frame of system-contract processing ----------

  /** Who owns what the staking contract touches: registry slots count as the staking
      contract's own. */
  function Owner(cfg: Config, a: Address): (o: Address) {
    if a == cfg.validator then cfg.staking else a
  }

  /** Two worlds agree on everything the given addresses own. */
  ghost predicate AgreeOn(cfg: Config, foot: set<Address>, w: World, v: World) {
    && (forall a: Address :: a in foot ==> Bal(w, a) == Bal(v, a))
    && (forall a: Address, k: nat :: Owner(cfg, a) in foot ==> At(w, a, k) == At(v, a, k))
  }

  /** Apart from reward messages, processing changes only what the sender and the recipient
      own. */
  lemma ProcessWritesOwned(cfg: Config, w: World, m: Message, to: Address)
    requires cfg.staking != cfg.validator && m.to == Some(to) && !m.data.RewardData?
    ensures forall a: Address :: a !in {m.from, to} ==> Bal(Process(cfg, w, m), a) == Bal(w, a)
    ensures forall a: Address, k: nat :: Owner(cfg, a) !in {m.from, to} ==> At(Process(cfg, w, m), a, k) == At(w, a, k)
  {
    hide SumTo;
  }

  /** Apart from reward messages, what processing leaves in the hands of sender and recipient
      depends only on what they own. */
  lemma ProcessReadsOwned(cfg: Config, w: World, v: World, m: Message, to: Address)
    requires cfg.staking != cfg.validator && m.to == Some(to) && !m.data.RewardData?
    requires AgreeOn(cfg, {m.from, to}, w, v)
    ensures AgreeOn(cfg, {m.from, to}, Process(cfg, w, m), Process(cfg, v, m))
  {
    hide Deposit, Unstake, AgreeOn;
    var foot := {m.from, to};
    if to == cfg.staking {
      DepositReadsOwned(cfg, foot, w, v, m.from, m.value);
      var w1 := if m.value > 0 then Deposit(cfg, w, m.from, m.value) else w;
      var v1 := if m.value > 0 then Deposit(cfg, v, m.from, m.value) else v;
      UnstakeReadsOwned(cfg, foot, w1, v1, m.from);
    }
  }

  lemma AgreeWithAt(cfg: Config, foot: set<Address>, w: World, v: World, a: Address, k: nat, n: nat)
    requires AgreeOn(cfg, foot, w, v)
    ensures AgreeOn(cfg, foot, WithAt(w, a, k, n), WithAt(v, a, k, n))
  {
    var w', v' := WithAt(w, a, k, n), WithAt(v, a, k, n);
    forall b: Address | b in foot ensures Bal(w', b) == Bal(v', b) { assert Bal(w, b) == Bal(v, b); }
    forall b: Address, j: nat | Owner(cfg, b) in foot ensures At(w', b, j) == At(v', b, j) {
      assert At(w, b, j) == At(v, b, j);
    }
  }

  lemma AgreeAddBal(cfg: Config, foot: set<Address>, w: World, v: World, a: Address, n: nat)
    requires AgreeOn(cfg, foot, w, v) && a in foot
    ensures AgreeOn(cfg, foot, AddBal(w, a, n), AddBal(v, a, n))
  {
    var w', v' := AddBal(w, a, n), AddBal(v, a, n);
    forall b: Address | b in foot ensures Bal(w', b) == Bal(v', b) { assert Bal(w, b) == Bal(v, b); }
    forall b: Address, j: nat | Owner(cfg, b) in foot ensures At(w', b, j) == At(v', b, j) {
      assert At(w, b, j) == At(v, b, j);
    }
  }

  lemma AgreeWord(cfg: Config, foot: set<Address>, w: World, v: World, a: Address, k: nat)
    requires AgreeOn(cfg, foot, w, v) && Owner(cfg, a) in foot
    ensures At(w, a, k) == At(v, a, k)
  {
  }

  lemma DepositReadsOwned(cfg: Config, foot: set<Address>, w: World, v: World, from: Address, value: nat)
    requires AgreeOn(cfg, foot, w, v) && cfg.staking in foot
    ensures AgreeOn(cfg, foot, Deposit(cfg, w, from, value), Deposit(cfg, v, from, value))
  {
    hide AgreeOn;
    var w1, v1 := WithAt(w, cfg.staking, from, ToWord(value)), WithAt(v, cfg.staking, from, ToWord(value));
    AgreeWithAt(cfg, foot, w, v, cfg.staking, from, ToWord(value));
    AgreeWord(cfg, foot, w1, v1, cfg.validator, from);
    AgreeWord(cfg, foot, w1, v1, cfg.validator, 0);
    var count := ToWord(At(w1, cfg.validator, 0) + 1);
    var w2, v2 := WithAt(w1, cfg.validator, 0, count), WithAt(v1, cfg.validator, 0, count);
    AgreeWithAt(cfg, foot, w1, v1, cfg.validator, 0, count);
    AgreeWithAt(cfg, foot, w2, v2, cfg.validator, count, from);
    var w3, v3 := WithAt(w2, cfg.validator, count, from), WithAt(v2, cfg.validator, count, from);
    AgreeWithAt(cfg, foot, w3, v3, cfg.validator, from, count);
  }

  lemma SwapReadsOwned(cfg: Config, foot: set<Address>, w: World, v: World, index: nat, count: nat)
    requires AgreeOn(cfg, foot, w, v) && cfg.staking in foot
    ensures AgreeOn(cfg, foot, Swap(cfg, w, index, count), Swap(cfg, v, index, count))
  {
    hide AgreeOn;
    AgreeWord(cfg, foot, w, v, cfg.validator, count);
    var last := At(w, cfg.validator, count);
    AgreeWithAt(cfg, foot, w, v, cfg.validator, index, last);
    var w1, v1 := WithAt(w, cfg.validator, index, last), WithAt(v, cfg.validator, index, last);
    AgreeWithAt(cfg, foot, w1, v1, cfg.validator, last, index);
  }

  lemma RemoveReadsOwned(cfg: Config, foot: set<Address>, w: World, v: World, from: Address)
    requires AgreeOn(cfg, foot, w, v) && cfg.staking in foot
    ensures AgreeOn(cfg, foot, Remove(cfg, w, from), Remove(cfg, v, from))
  {
    hide AgreeOn, Swap;
    AgreeWord(cfg, foot, w, v, cfg.validator, from);
    AgreeWord(cfg, foot, w, v, cfg.validator, 0);
    var index, count := At(w, cfg.validator, from), At(w, cfg.validator, 0);
    SwapReadsOwned(cfg, foot, w, v, index, count);
    var w1, v1 := Swap(cfg, w, index, count), Swap(cfg, v, index, count);
    AgreeWithAt(cfg, foot, w1, v1, cfg.validator, count, 0);
    var w2, v2 := WithAt(w1, cfg.validator, count, 0), WithAt(v1, cfg.validator, count, 0);
    AgreeWithAt(cfg, foot, w2, v2, cfg.validator, 0, ToWord(count as int - 1));
    var less := ToWord(count as int - 1);
    var w3, v3 := WithAt(w2, cfg.validator, 0, less), WithAt(v2, cfg.validator, 0, less);
    AgreeWithAt(cfg, foot, w3, v3, cfg.staking, from, 0);
    AgreeWithAt(cfg, foot, WithAt(w3, cfg.staking, from, 0), WithAt(v3, cfg.staking, from, 0), cfg.validator, from, 0);
  }

  lemma UnstakeReadsOwned(cfg: Config, foot: set<Address>, w: World, v: World, from: Address)
    requires AgreeOn(cfg, foot, w, v) && cfg.staking in foot && cfg.staking != cfg.validator && from in foot
    ensures AgreeOn(cfg, foot, Unstake(cfg, w, from), Unstake(cfg, v, from))
  {
    hide Remove, AddBal;
    var stake := At(w, cfg.staking, from);
    if 0 < stake < TWO_256 {
      var n := (TWO_256 - stake) % TWO_256;
      AgreeAddBal(cfg, foot, w, v, cfg.staking, n);
      var w1, v1 := AddBal(w, cfg.staking, n), AddBal(v, cfg.staking, n);
      AgreeAddBal(cfg, foot, w1, v1, from, stake);
      RemoveReadsOwned(cfg, foot, AddBal(w1, from, stake), AddBal(v1, from, stake), from);
    }
  }

  /** A reward message pays an account outside its footprint. */
  lemma RewardLeavesFootprint(cfg: Config, w: World, m: Message)
    requires Addressed(cfg, m) && Supply(w) < TWO_256 && m.to == Some(cfg.reward) && m.value == 0
    requires cfg.reward != cfg.staking
    requires m.data.RewardData? && 0 < m.data.amount <= Bal(w, cfg.reward) && m.data.target !in {m.from, cfg.reward}
    ensures Bal(Process(cfg, w, m), m.data.target) == Bal(w, m.data.target) + m.data.amount
  {
    hide SumTo, AddBal, SubBal;
    SumAtLeast(w, cfg.reward, TWO_160);
    SmallMod(m.data.amount, TWO_256);
    PayConserves(w, cfg.reward, m.data.target, m.data.amount);
  }
}
