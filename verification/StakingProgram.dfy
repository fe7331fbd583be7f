/** Staking messages as transaction programs: they meet the frame hypothesis of parallel execution
    when registry slots count as the staking contract's own, and their effect is that of
    system-contract processing. */
module StakingProgram {
  import opened Base
  import opened Accounts
  import opened Registry
  import opened Wave
  import opened Scripts
  import opened Traces
  import StakingHistory

  // ---------- Instructions ----------

  function SetWord(a: Address, k: nat, n: nat, rest: Script): (sc: Script) {
    Put(FieldKey(a, SlotOf(k)), FixedBytes(n, 32), rest)
  }

  function GetWord(a: Address, k: nat, f: nat -> Script): (sc: Script) {
    Get(FieldKey(a, SlotOf(k)), v => f(FromBytes(v) % TWO_256))
  }

  function GetBal(a: Address, f: nat -> Script): (sc: Script) {
    Get(FieldKey(a, BalanceOf), v => f(FromBytes(v) % TWO_256))
  }

  function OnBalance(a: Address, n: nat, rest: Script): (f: nat -> Script) {
    (cur: nat) => Put(FieldKey(a, BalanceOf), MinBytes((cur + n) % TWO_256), rest)
  }

  function CreditBal(a: Address, n: nat, rest: Script): (sc: Script) {
    GetBal(a, OnBalance(a, n, rest))
  }

  lemma SetWordStep(a: Address, k: nat, n: nat, rest: Script, s: Store, w: World)
    requires Reads(s, w) && a < TWO_160 && k < TWO_256 && n < TWO_256
    ensures var c := StepOf(Conf(SetWord(a, k, n, rest), s));
      c == Conf(rest, PutSlot(s, a, k, n)) && Reads(c.s, WithAt(w, a, k, n))
  {
    hide Reads;
    ReadsPutSlot(s, w, a, k, n);
    SmallMod(n, TWO_256);
  }

  lemma GetWordStep(a: Address, k: nat, f: nat -> Script, s: Store, w: World)
    requires Reads(s, w) && a < TWO_160 && k < TWO_256
    ensures StepOf(Conf(GetWord(a, k, f), s)) == Conf(f(At(w, a, k)), s) && At(w, a, k) < TWO_256
  {
    assert Word(s, a, SlotOf(k)) == At(w, a, k);
  }

  lemma GetBalStep(a: Address, f: nat -> Script, s: Store, w: World)
    requires Reads(s, w) && a < TWO_160
    ensures StepOf(Conf(GetBal(a, f), s)) == Conf(f(Bal(w, a)), s)
  {
    assert Word(s, a, BalanceOf) == Bal(w, a);
  }

  lemma PutBalStep(a: Address, x: nat, rest: Script, s: Store, w: World)
    requires Reads(s, w) && a < TWO_160 && x < TWO_256
    ensures var c := StepOf(Conf(Put(FieldKey(a, BalanceOf), MinBytes(x), rest), s));
      c.sc == rest && Reads(c.s, WithBal(w, a, x))
  {
    hide Reads, Word, MinBytes, FieldKey;
    ReadsPutBalance(s, w, a, x);
  }

  lemma CreditSteps(a: Address, n: nat, rest: Script, s: Store, w: World)
    requires Reads(s, w) && a < TWO_160
    ensures var c := Steps(Conf(CreditBal(a, n, rest), s), 2);
      c.sc == rest && Reads(c.s, AddBal(w, a, n))
  {
    hide Reads, Word, Steps, StepOf, MinBytes, FieldKey, GetBal;
    GetBalStep(a, OnBalance(a, n, rest), s, w);
    PutBalStep(a, (Bal(w, a) + n) % TWO_256, rest, s, w);
    TwoSteps(Conf(CreditBal(a, n, rest), s));
  }

  lemma TwoSteps(c: Conf)
    ensures Steps(c, 2) == StepOf(StepOf(c))
  {
    assert Steps(StepOf(c), 1) == Steps(StepOf(StepOf(c)), 0);
  }

  /** One more step. */
  lemma AndThen(c: Conf, d: nat, c1: Conf)
    requires Steps(c, d) == c1
    ensures Steps(c, d + 1) == StepOf(c1)
  {
    StepsAdd(c, d, 1);
    assert Steps(c1, 1) == Steps(StepOf(c1), 0);
  }

  // ---------- Deposit ----------

  /** What a newcomer's deposit does once it has read the count. */
  function Append(cfg: Config, from: Address, count: nat, rest: Script): (sc: Script) {
    var c := ToWord(count + 1);
    SetWord(cfg.validator, 0, c, SetWord(cfg.validator, c, from, SetWord(cfg.validator, from, c, rest)))
  }

  function OnCount(cfg: Config, from: Address, rest: Script): (f: nat -> Script) {
    (count: nat) => Append(cfg, from, count, rest)
  }

  function OnIndex(cfg: Config, from: Address, rest: Script): (f: nat -> Script) {
    (index: nat) => if index == 0 then GetWord(cfg.validator, 0, OnCount(cfg, from, rest)) else rest
  }

  function DepositThen(cfg: Config, from: Address, value: nat, rest: Script): (sc: Script) {
    SetWord(cfg.staking, from, ToWord(value), GetWord(cfg.validator, from, OnIndex(cfg, from, rest)))
  }

  lemma AppendSteps(cfg: Config, from: Address, count: nat, rest: Script, s: Store, w: World)
    requires Reads(s, w) && cfg.validator < TWO_160 && from < TWO_160
    ensures var c := Steps(Conf(Append(cfg, from, count, rest), s), 3);
      var n := ToWord(count + 1);
      c.sc == rest &&
      Reads(c.s, WithAt(WithAt(WithAt(w, cfg.validator, 0, n), cfg.validator, n, from), cfg.validator, from, n))
  {
    hide Reads, Steps, StepOf, SetWord;
    var n, c0 := ToWord(count + 1), Conf(Append(cfg, from, count, rest), s);
    var last := SetWord(cfg.validator, from, n, rest);
    SetWordStep(cfg.validator, 0, n, SetWord(cfg.validator, n, from, last), s, w);
    var w1 := WithAt(w, cfg.validator, 0, n);
    var c1 := StepOf(c0);
    SetWordStep(cfg.validator, n, from, last, c1.s, w1);
    var w2 := WithAt(w1, cfg.validator, n, from);
    var c2 := StepOf(c1);
    SetWordStep(cfg.validator, from, n, rest, c2.s, w2);
    NoStep(c0);
    AndThen(c0, 0, c0);
    AndThen(c0, 1, c1);
    AndThen(c0, 2, c2);
  }

  lemma NoStep(c: Conf)
    ensures Steps(c, 0) == c
  {
  }

  /** A deposit script does what the arithmetic deposit does, and goes on. */
  lemma DepositSteps(cfg: Config, from: Address, value: nat, rest: Script, s: Store, w: World)
    returns (d: nat, t: Store)
    requires Reads(s, w) && cfg.validator < TWO_160 && cfg.staking < TWO_160 && from < TWO_160
    ensures Steps(Conf(DepositThen(cfg, from, value, rest), s), d) == Conf(rest, t)
    ensures Reads(t, Deposit(cfg, w, from, value))
  {
    hide Reads, Steps, StepOf, SetWord, GetWord, Append;
    var c0 := Conf(DepositThen(cfg, from, value, rest), s);
    var more, onIndex := OnCount(cfg, from, rest), OnIndex(cfg, from, rest);
    SetWordStep(cfg.staking, from, ToWord(value), GetWord(cfg.validator, from, onIndex), s, w);
    var w1, c1 := WithAt(w, cfg.staking, from, ToWord(value)), StepOf(c0);
    GetWordStep(cfg.validator, from, onIndex, c1.s, w1);
    var c2 := StepOf(c1);
    NoStep(c0);
    AndThen(c0, 0, c0);
    AndThen(c0, 1, c1);
    if At(w1, cfg.validator, from) == 0 {
      GetWordStep(cfg.validator, 0, more, c2.s, w1);
      var c3 := StepOf(c2);
      AndThen(c0, 2, c2);
      AppendSteps(cfg, from, At(w1, cfg.validator, 0), rest, c3.s, w1);
      StepsAdd(c0, 3, 3);
      d, t := 6, Steps(c3, 3).s;
    } else {
      d, t := 2, c2.s;
    }
  }

  // ---------- Unstake ----------

  function ClearThen(cfg: Config, from: Address, count: nat, rest: Script): (sc: Script) {
    SetWord(cfg.validator, count, 0,
      SetWord(cfg.validator, 0, ToWord(count as int - 1),
        SetWord(cfg.staking, from, 0, SetWord(cfg.validator, from, 0, rest))))
  }

  function MoveThen(cfg: Config, index: nat, last: nat, rest: Script): (sc: Script) {
    SetWord(cfg.validator, index, last, SetWord(cfg.validator, last, index, rest))
  }

  function OnLast(cfg: Config, index: nat, rest: Script): (f: nat -> Script) {
    (last: nat) => MoveThen(cfg, index, last, rest)
  }

  function SwapThen(cfg: Config, index: nat, count: nat, rest: Script): (sc: Script) {
    if index < count then GetWord(cfg.validator, count, OnLast(cfg, index, rest)) else rest
  }

  function OnSize(cfg: Config, from: Address, index: nat, rest: Script): (f: nat -> Script) {
    (count: nat) => SwapThen(cfg, index, count, ClearThen(cfg, from, count, rest))
  }

  function OnPlace(cfg: Config, from: Address, rest: Script): (f: nat -> Script) {
    (index: nat) => GetWord(cfg.validator, 0, OnSize(cfg, from, index, rest))
  }

  function RemoveThen(cfg: Config, from: Address, rest: Script): (sc: Script) {
    GetWord(cfg.validator, from, OnPlace(cfg, from, rest))
  }

  function RefundThen(cfg: Config, from: Address, stake: nat, rest: Script): (sc: Script)
    requires stake < TWO_256
  {
    CreditBal(cfg.staking, (TWO_256 - stake) % TWO_256, CreditBal(from, stake, RemoveThen(cfg, from, rest)))
  }

  function OnPool(cfg: Config, from: Address, stake: nat, rest: Script): (f: nat -> Script)
    requires stake < TWO_256
  {
    (pool: nat) => if pool >= stake then RefundThen(cfg, from, stake, rest) else rest
  }

  function OnStake(cfg: Config, from: Address, rest: Script): (f: nat -> Script) {
    (stake: nat) => if 0 < stake < TWO_256 then GetBal(cfg.staking, OnPool(cfg, from, stake, rest)) else rest
  }

  function UnstakeThen(cfg: Config, from: Address, rest: Script): (sc: Script) {
    GetWord(cfg.staking, from, OnStake(cfg, from, rest))
  }

  lemma ClearSteps(cfg: Config, from: Address, count: nat, rest: Script, s: Store, w: World)
    requires Reads(s, w) && cfg.validator < TWO_160 && cfg.staking < TWO_160 && from < TWO_160 && count < TWO_256
    ensures var c := Steps(Conf(ClearThen(cfg, from, count, rest), s), 4);
      var w2 := WithAt(WithAt(w, cfg.validator, count, 0), cfg.validator, 0, ToWord(count as int - 1));
      c.sc == rest && Reads(c.s, WithAt(WithAt(w2, cfg.staking, from, 0), cfg.validator, from, 0))
  {
    hide Reads, Steps, StepOf, SetWord;
    var c0 := Conf(ClearThen(cfg, from, count, rest), s);
    var s3 := SetWord(cfg.validator, from, 0, rest);
    var s2 := SetWord(cfg.staking, from, 0, s3);
    var s1 := SetWord(cfg.validator, 0, ToWord(count as int - 1), s2);
    SetWordStep(cfg.validator, count, 0, s1, s, w);
    var w1, c1 := WithAt(w, cfg.validator, count, 0), StepOf(c0);
    SetWordStep(cfg.validator, 0, ToWord(count as int - 1), s2, c1.s, w1);
    var w2, c2 := WithAt(w1, cfg.validator, 0, ToWord(count as int - 1)), StepOf(c1);
    SetWordStep(cfg.staking, from, 0, s3, c2.s, w2);
    var w3, c3 := WithAt(w2, cfg.staking, from, 0), StepOf(c2);
    SetWordStep(cfg.validator, from, 0, rest, c3.s, w3);
    NoStep(c0);
    AndThen(c0, 0, c0);
    AndThen(c0, 1, c1);
    AndThen(c0, 2, c2);
    AndThen(c0, 3, c3);
  }

  lemma SwapSteps(cfg: Config, index: nat, count: nat, rest: Script, s: Store, w: World) returns (d: nat, t: Store)
    requires Reads(s, w) && cfg.validator < TWO_160 && index < TWO_256 && count < TWO_256
    ensures Steps(Conf(SwapThen(cfg, index, count, rest), s), d) == Conf(rest, t)
    ensures Reads(t, Swap(cfg, w, index, count))
  {
    hide Reads, Steps, StepOf, SetWord, GetWord, At;
    var c0 := Conf(SwapThen(cfg, index, count, rest), s);
    NoStep(c0);
    if index < count {
      var move := OnLast(cfg, index, rest);
      var last := At(w, cfg.validator, count);
      GetWordStep(cfg.validator, count, move, s, w);
      var c1 := StepOf(c0);
      var s1 := SetWord(cfg.validator, last, index, rest);
      SetWordStep(cfg.validator, index, last, s1, c1.s, w);
      var w1, c2 := WithAt(w, cfg.validator, index, last), StepOf(c1);
      SetWordStep(cfg.validator, last, index, rest, c2.s, w1);
      AndThen(c0, 0, c0);
      AndThen(c0, 1, c1);
      AndThen(c0, 2, c2);
      d, t := 3, StepOf(c2).s;
    } else {
      d, t := 0, s;
    }
  }

  lemma RemoveSteps(cfg: Config, from: Address, rest: Script, s: Store, w: World) returns (d: nat, t: Store)
    requires Reads(s, w) && cfg.validator < TWO_160 && cfg.staking < TWO_160 && from < TWO_160
    ensures Steps(Conf(RemoveThen(cfg, from, rest), s), d) == Conf(rest, t)
    ensures Reads(t, Remove(cfg, w, from))
  {
    hide Reads, Steps, StepOf, GetWord, SwapThen, ClearThen, Swap, At;
    var c0 := Conf(RemoveThen(cfg, from, rest), s);
    var index, count := At(w, cfg.validator, from), At(w, cfg.validator, 0);
    GetWordStep(cfg.validator, from, OnPlace(cfg, from, rest), s, w);
    var c1 := StepOf(c0);
    GetWordStep(cfg.validator, 0, OnSize(cfg, from, index, rest), c1.s, w);
    var c2 := StepOf(c1);
    NoStep(c0);
    AndThen(c0, 0, c0);
    AndThen(c0, 1, c1);
    var e, u := SwapSteps(cfg, index, count, ClearThen(cfg, from, count, rest), c2.s, w);
    StepsAdd(c0, 2, e);
    ClearSteps(cfg, from, count, rest, u, Swap(cfg, w, index, count));
    StepsAdd(c0, 2 + e, 4);
    d, t := 2 + e + 4, Steps(Conf(ClearThen(cfg, from, count, rest), u), 4).s;
  }

  /** An unstake script does what the arithmetic unstake does, and goes on. */
  lemma UnstakeSteps(cfg: Config, from: Address, rest: Script, s: Store, w: World) returns (d: nat, t: Store)
    requires Reads(s, w) && cfg.validator < TWO_160 && cfg.staking < TWO_160 && from < TWO_160
    ensures Steps(Conf(UnstakeThen(cfg, from, rest), s), d) == Conf(rest, t)
    ensures Reads(t, Unstake(cfg, w, from))
  {
    hide Reads, Steps, StepOf, GetWord, GetBal, CreditBal, RemoveThen, Remove, AddBal, At, Bal;
    var c0 := Conf(UnstakeThen(cfg, from, rest), s);
    var stake := At(w, cfg.staking, from);
    GetWordStep(cfg.staking, from, OnStake(cfg, from, rest), s, w);
    var c1 := StepOf(c0);
    NoStep(c0);
    AndThen(c0, 0, c0);
    d, t := 1, s;
    if 0 < stake < TWO_256 {
      GetBalStep(cfg.staking, OnPool(cfg, from, stake, rest), s, w);
      AndThen(c0, 1, c1);
      d := 2;
      if Bal(w, cfg.staking) >= stake {
        var e, u := RefundSteps(cfg, from, stake, rest, s, w);
        StepsAdd(c0, 2, e);
        d, t := 2 + e, u;
      }
    }
  }

  lemma RefundSteps(cfg: Config, from: Address, stake: nat, rest: Script, s: Store, w: World) returns (d: nat, t: Store)
    requires Reads(s, w) && cfg.validator < TWO_160 && cfg.staking < TWO_160 && from < TWO_160 && stake < TWO_256
    ensures Steps(Conf(RefundThen(cfg, from, stake, rest), s), d) == Conf(rest, t)
    ensures Reads(t, Remove(cfg, AddBal(SubBal(w, cfg.staking, stake), from, stake), from))
  {
    hide Reads, Steps, CreditBal, RemoveThen, Remove, AddBal;
    var c0 := Conf(RefundThen(cfg, from, stake, rest), s);
    var s2 := RemoveThen(cfg, from, rest);
    var s1 := CreditBal(from, stake, s2);
    CreditSteps(cfg.staking, (TWO_256 - stake) % TWO_256, s1, s, w);
    var c2, w1 := Steps(c0, 2), SubBal(w, cfg.staking, stake);
    CreditSteps(from, stake, s2, c2.s, w1);
    var c4, w2 := Steps(c2, 2), AddBal(w1, from, stake);
    StepsAdd(c0, 2, 2);
    var e, u := RemoveSteps(cfg, from, rest, c4.s, w2);
    StepsAdd(c0, 4, e);
    d, t := 4 + e, u;
  }

  // ---------- The message ----------

  /** What system-contract processing does with a message to the staking contract. */
  function StakingScript(cfg: Config, m: Message, gas: nat): (sc: Script) {
    var end := Done(Applied(gas, false));
    var rest := if m.data.UnstakeData? then UnstakeThen(cfg, m.from, end) else end;
    if m.value > 0 then DepositThen(cfg, m.from, m.value, rest) else rest
  }

  /** System-contract processing of a staking message, run as a script on any state, does to the
      balances and words of that state what the arithmetic does. */
  lemma StakingSteps(cfg: Config, m: Message, gas: nat, s: Store, w: World) returns (d: nat, t: Store)
    requires Reads(s, w) && m.to == Some(cfg.staking) && cfg.reward != cfg.staking
    requires cfg.validator < TWO_160 && cfg.staking < TWO_160 && m.from < TWO_160
    ensures Steps(Conf(StakingScript(cfg, m, gas), s), d) == Conf(Done(Applied(gas, false)), t)
    ensures Reads(t, Process(cfg, w, m))
  {
    hide Reads, Steps, DepositThen, UnstakeThen, Deposit, Unstake;
    var end := Done(Applied(gas, false));
    var rest := if m.data.UnstakeData? then UnstakeThen(cfg, m.from, end) else end;
    var c0, w1 := Conf(StakingScript(cfg, m, gas), s), w;
    d, t := 0, s;
    NoStep(c0);
    if m.value > 0 {
      d, t := DepositSteps(cfg, m.from, m.value, rest, s, w);
      w1 := Deposit(cfg, w, m.from, m.value);
    }
    if m.data.UnstakeData? {
      var e, u := UnstakeSteps(cfg, m.from, end, t, w1);
      StepsAdd(c0, d, e);
      d, t, w1 := d + e, u, Unstake(cfg, w1, m.from);
    }
  }

  // ---------- The frame ----------

  /** The address a state key belongs to: an account field to its account, a storage slot to its
      contract, registry slots to the staking contract. */
  function KeyOwner(cfg: Config, k: Key): (a: Address) {
    if |k| < 20 then 0
    else if |k| == 21 then FromBytes(k[..20])
    else StakingHistory.Owner(cfg, FromBytes(k[..20]))
  }

  function OwnerOf(cfg: Config): (f: Key -> Address) { (k: Key) => KeyOwner(cfg, k) }

  lemma OwnerOfField(cfg: Config, a: Address, f: Field)
    requires a < TWO_160
    ensures KeyOwner(cfg, FieldKey(a, f)) == if f.SlotOf? then StakingHistory.Owner(cfg, a) else a
  {
    var k := FieldKey(a, f);
    assert k[..20] == FixedBytes(a, 20);
    WordSizes();
    FixedBytesValue(a, 20);
    SmallMod(a, TWO_160);
  }

  /** The words of the two contracts and the balances of staker and staking account. */
  ghost predicate HasKeys(cfg: Config, from: Address, own: iset<Key>) {
    && (forall k: nat :: FieldKey(cfg.staking, SlotOf(k)) in own)
    && (forall k: nat :: FieldKey(cfg.validator, SlotOf(k)) in own)
    && FieldKey(cfg.staking, BalanceOf) in own && FieldKey(from, BalanceOf) in own
  }

  lemma StakingHasKeys(cfg: Config, from: Address)
    requires cfg.validator < TWO_160 && cfg.staking < TWO_160 && from < TWO_160
    ensures HasKeys(cfg, from, KeysOf({from, cfg.staking}, OwnerOf(cfg), {}))
  {
    hide FieldKey, KeyOwner;
    var own := KeysOf({from, cfg.staking}, OwnerOf(cfg), {});
    forall k: nat ensures FieldKey(cfg.staking, SlotOf(k)) in own { OwnerOfField(cfg, cfg.staking, SlotOf(k)); }
    forall k: nat ensures FieldKey(cfg.validator, SlotOf(k)) in own { OwnerOfField(cfg, cfg.validator, SlotOf(k)); }
    OwnerOfField(cfg, cfg.staking, BalanceOf);
    OwnerOfField(cfg, from, BalanceOf);
  }

  /** A read keeps to the keys if all that can follow does. */
  lemma GetWordKeeps(a: Address, k: nat, f: nat -> Script, own: iset<Key>, n: nat)
    requires FieldKey(a, SlotOf(k)) in own && forall x: nat :: Keeps(f(x), own, n)
    ensures Keeps(GetWord(a, k, f), own, n + 1)
  {
    hide FieldKey;
  }

  lemma GetBalKeeps(a: Address, f: nat -> Script, own: iset<Key>, n: nat)
    requires FieldKey(a, BalanceOf) in own && forall x: nat :: Keeps(f(x), own, n)
    ensures Keeps(GetBal(a, f), own, n + 1)
  {
    hide FieldKey;
  }

  lemma SetWordKeeps(a: Address, k: nat, x: nat, rest: Script, own: iset<Key>, n: nat)
    requires FieldKey(a, SlotOf(k)) in own && Keeps(rest, own, n)
    ensures Keeps(SetWord(a, k, x, rest), own, n + 1)
  {
    hide FieldKey;
  }

  lemma AppendKeeps(cfg: Config, from: Address, count: nat, rest: Script, own: iset<Key>, n: nat)
    requires HasKeys(cfg, from, own) && Keeps(rest, own, n)
    ensures Keeps(Append(cfg, from, count, rest), own, n + 3)
  {
    hide FieldKey, Keeps, SetWord, ToWord;
    var c := ToWord(count + 1);
    var s2 := SetWord(cfg.validator, from, c, rest);
    SetWordKeeps(cfg.validator, from, c, rest, own, n);
    SetWordKeeps(cfg.validator, c, from, s2, own, n + 1);
    SetWordKeeps(cfg.validator, 0, c, SetWord(cfg.validator, c, from, s2), own, n + 2);
  }

  lemma DepositKeeps(cfg: Config, from: Address, value: nat, rest: Script, own: iset<Key>, n: nat)
    requires HasKeys(cfg, from, own) && Keeps(rest, own, n)
    ensures Keeps(DepositThen(cfg, from, value, rest), own, n + 6)
  {
    hide FieldKey, Keeps, SetWord, GetWord, Append, ToWord;
    KeepsMore(rest, own, n, n + 4);
    forall count: nat ensures Keeps(OnCount(cfg, from, rest)(count), own, n + 3) {
      AppendKeeps(cfg, from, count, rest, own, n);
    }
    GetWordKeeps(cfg.validator, 0, OnCount(cfg, from, rest), own, n + 3);
    GetWordKeeps(cfg.validator, from, OnIndex(cfg, from, rest), own, n + 4);
    var g := GetWord(cfg.validator, from, OnIndex(cfg, from, rest));
    SetWordKeeps(cfg.staking, from, ToWord(value), g, own, n + 5);
  }

  lemma ClearKeeps(cfg: Config, from: Address, count: nat, rest: Script, own: iset<Key>, n: nat)
    requires HasKeys(cfg, from, own) && Keeps(rest, own, n)
    ensures Keeps(ClearThen(cfg, from, count, rest), own, n + 4)
  {
    hide FieldKey, Keeps, SetWord, ToWord;
    var s3 := SetWord(cfg.validator, from, 0, rest);
    var s2 := SetWord(cfg.staking, from, 0, s3);
    var s1 := SetWord(cfg.validator, 0, ToWord(count as int - 1), s2);
    SetWordKeeps(cfg.validator, from, 0, rest, own, n);
    SetWordKeeps(cfg.staking, from, 0, s3, own, n + 1);
    SetWordKeeps(cfg.validator, 0, ToWord(count as int - 1), s2, own, n + 2);
    SetWordKeeps(cfg.validator, count, 0, s1, own, n + 3);
  }

  lemma MoveKeeps(cfg: Config, from: Address, index: nat, last: nat, rest: Script, own: iset<Key>, n: nat)
    requires HasKeys(cfg, from, own) && Keeps(rest, own, n)
    ensures Keeps(MoveThen(cfg, index, last, rest), own, n + 2)
  {
    hide FieldKey, Keeps, SetWord;
    SetWordKeeps(cfg.validator, last, index, rest, own, n);
    SetWordKeeps(cfg.validator, index, last, SetWord(cfg.validator, last, index, rest), own, n + 1);
  }

  lemma SwapKeeps(cfg: Config, from: Address, index: nat, count: nat, rest: Script, own: iset<Key>, n: nat)
    requires HasKeys(cfg, from, own) && Keeps(rest, own, n)
    ensures Keeps(SwapThen(cfg, index, count, rest), own, n + 3)
  {
    hide FieldKey, Keeps, MoveThen, GetWord;
    KeepsMore(rest, own, n, n + 3);
    forall last: nat ensures Keeps(OnLast(cfg, index, rest)(last), own, n + 2) {
      MoveKeeps(cfg, from, index, last, rest, own, n);
    }
    GetWordKeeps(cfg.validator, count, OnLast(cfg, index, rest), own, n + 2);
  }

  lemma RemoveKeeps(cfg: Config, from: Address, rest: Script, own: iset<Key>, n: nat)
    requires HasKeys(cfg, from, own) && Keeps(rest, own, n)
    ensures Keeps(RemoveThen(cfg, from, rest), own, n + 9)
  {
    hide FieldKey, Keeps, SwapThen, ClearThen, GetWord;
    forall index: nat ensures Keeps(OnPlace(cfg, from, rest)(index), own, n + 8) {
      forall count: nat ensures Keeps(OnSize(cfg, from, index, rest)(count), own, n + 7) {
        ClearKeeps(cfg, from, count, rest, own, n);
        SwapKeeps(cfg, from, index, count, ClearThen(cfg, from, count, rest), own, n + 4);
      }
      GetWordKeeps(cfg.validator, 0, OnSize(cfg, from, index, rest), own, n + 7);
    }
    GetWordKeeps(cfg.validator, from, OnPlace(cfg, from, rest), own, n + 8);
  }

  lemma CreditKeeps(a: Address, x: nat, rest: Script, own: iset<Key>, n: nat)
    requires FieldKey(a, BalanceOf) in own && Keeps(rest, own, n)
    ensures Keeps(CreditBal(a, x, rest), own, n + 2)
  {
    hide FieldKey, GetBal;
    GetBalKeeps(a, OnBalance(a, x, rest), own, n + 1);
  }

  lemma RefundKeeps(cfg: Config, from: Address, stake: nat, rest: Script, own: iset<Key>, n: nat)
    requires HasKeys(cfg, from, own) && Keeps(rest, own, n) && stake < TWO_256
    ensures Keeps(RefundThen(cfg, from, stake, rest), own, n + 13)
  {
    hide FieldKey, Keeps, RemoveThen, CreditBal;
    RemoveKeeps(cfg, from, rest, own, n);
    var s1 := CreditBal(from, stake, RemoveThen(cfg, from, rest));
    CreditKeeps(from, stake, RemoveThen(cfg, from, rest), own, n + 9);
    CreditKeeps(cfg.staking, (TWO_256 - stake) % TWO_256, s1, own, n + 11);
  }

  lemma UnstakeKeeps(cfg: Config, from: Address, rest: Script, own: iset<Key>, n: nat)
    requires HasKeys(cfg, from, own) && Keeps(rest, own, n)
    ensures Keeps(UnstakeThen(cfg, from, rest), own, n + 15)
  {
    hide FieldKey, Keeps, RefundThen, GetBal, GetWord;
    KeepsMore(rest, own, n, n + 13);
    KeepsMore(rest, own, n, n + 14);
    forall stake: nat ensures Keeps(OnStake(cfg, from, rest)(stake), own, n + 14) {
      if 0 < stake < TWO_256 {
        RefundKeeps(cfg, from, stake, rest, own, n);
        GetBalKeeps(cfg.staking, OnPool(cfg, from, stake, rest), own, n + 13);
      }
    }
    GetWordKeeps(cfg.staking, from, OnStake(cfg, from, rest), own, n + 14);
  }

  /** A staking message meets the frame hypothesis: it keeps to what its sender and the staking
      contract own, when registry slots count as the staking contract's. */
  lemma StakingFramed(cfg: Config, m: Message, gas: nat)
    requires cfg.validator < TWO_160 && cfg.staking < TWO_160 && m.from < TWO_160
    ensures Framed(ProgramOf(StakingScript(cfg, m, gas)), KeysOf({m.from, cfg.staking}, OwnerOf(cfg), {}), {})
  {
    hide StakingScript, HasKeys, KeysOf;
    StakingHasKeys(cfg, m.from);
    ScriptKeepsTo(cfg, m, gas, KeysOf({m.from, cfg.staking}, OwnerOf(cfg), {}));
  }

  lemma ScriptKeepsTo(cfg: Config, m: Message, gas: nat, own: iset<Key>)
    requires HasKeys(cfg, m.from, own)
    ensures Framed(ProgramOf(StakingScript(cfg, m, gas)), own, {})
  {
    hide UnstakeThen, DepositThen, Keeps, HasKeys;
    var end := Done(Applied(gas, false));
    var rest := if m.data.UnstakeData? then UnstakeThen(cfg, m.from, end) else end;
    EndKeeps(gas, own);
    UnstakeKeeps(cfg, m.from, end, own, 0);
    var n := if m.data.UnstakeData? then 15 else 0;
    DepositKeeps(cfg, m.from, m.value, rest, own, n);
    ScriptFramed(StakingScript(cfg, m, gas), own, if m.value > 0 then n + 6 else n);
  }

  lemma EndKeeps(gas: nat, own: iset<Key>)
    ensures Keeps(Done(Applied(gas, false)), own, 0)
  {
  }
}
