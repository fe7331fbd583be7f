/** `ProcessSystemContracts` as it runs: a sequence of storage and balance updates on an
    overlay, proved to do to the state's balances and words what `Registry.Process` does. */
module SystemContracts {
  import opened Base
  import opened Accounts
  import opened StateStore
  import opened Registry

  /** `GetState`, read as a word of the plain maps. */
  method ReadWord(s: StateDb, a: Address, k: nat, ghost w: World) returns (n: nat)
    requires s.Valid() && Reads(s.View(), w) && a < TWO_160 && k < TWO_256
    ensures n == At(w, a, k) && n < TWO_256
  {
    n := GetState(s, a, k);
  }

  /** `SetState` of a word. */
  method WriteWord(s: StateDb, a: Address, k: nat, n: nat, ghost w: World)
    requires s.Valid() && Reads(s.View(), w) && a < TWO_160 && k < TWO_256 && n < TWO_256
    modifies s
    ensures s.Valid() && Reads(s.View(), WithAt(w, a, k, n))
  {
    ReadsPutSlot(s.View(), w, a, k, n);
    SmallMod(n, TWO_256);
    SetState(s, a, k, n);
  }

  /** `AddBalance` on the plain maps. */
  method Credit(s: StateDb, a: Address, n: nat, ghost w: World)
    requires s.Valid() && Reads(s.View(), w) && a < TWO_160
    modifies s
    ensures s.Valid() && Reads(s.View(), AddBal(w, a, n))
  {
    hide Reads, Word, PutBalance;
    ReadsBalance(s.View(), w, a);
    ReadsPutBalance(s.View(), w, a, (Bal(w, a) + n) % TWO_256);
    AddBalance(s, a, n);
  }

  /** `SubBalance` on the plain maps. */
  method Debit(s: StateDb, a: Address, n: nat, ghost w: World)
    requires s.Valid() && Reads(s.View(), w) && a < TWO_160 && n < TWO_256
    modifies s
    ensures s.Valid() && Reads(s.View(), SubBal(w, a, n))
  {
    hide Reads, Word, PutBalance;
    ReadsBalance(s.View(), w, a);
    ReadsPutBalance(s.View(), w, a, (Bal(w, a) + (TWO_256 - n) % TWO_256) % TWO_256);
    SubBalance(s, a, n);
  }

  /** DEPOSIT. */
  method DepositOn(s: StateDb, cfg: Config, from: Address, value: nat, ghost w: World)
    requires s.Valid() && Reads(s.View(), w) && from < TWO_160 && cfg.staking < TWO_160 && cfg.validator < TWO_160
    modifies s
    ensures s.Valid() && Reads(s.View(), Deposit(cfg, w, from, value))
  {
    hide Reads;
    WriteWord(s, cfg.staking, from, ToWord(value), w);
    ghost var w1 := WithAt(w, cfg.staking, from, ToWord(value));
    var existingIndex := ReadWord(s, cfg.validator, from, w1);
    if existingIndex == 0 {
      var currentCount := ReadWord(s, cfg.validator, 0, w1);
      var newCount := ToWord(currentCount + 1);
      WriteWord(s, cfg.validator, 0, newCount, w1);
      ghost var w2 := WithAt(w1, cfg.validator, 0, newCount);
      WriteWord(s, cfg.validator, newCount, from, w2);
      ghost var w3 := WithAt(w2, cfg.validator, newCount, from);
      WriteWord(s, cfg.validator, from, newCount, w3);
    }
  }

  /** The last validator moves to the freed index. */
  method SwapOn(s: StateDb, cfg: Config, index: nat, count: nat, ghost w: World)
    requires s.Valid() && Reads(s.View(), w) && cfg.validator < TWO_160 && index < TWO_256 && count < TWO_256
    modifies s
    ensures s.Valid() && Reads(s.View(), Swap(cfg, w, index, count))
  {
    hide Reads, At;
    if index < count {
      var lastAddr := ReadWord(s, cfg.validator, count, w);
      WriteWord(s, cfg.validator, index, lastAddr, w);
      WriteWord(s, cfg.validator, lastAddr, index, WithAt(w, cfg.validator, index, lastAddr));
    }
  }

  /** The last slot is cleared, the count lowered, and the leaver's words removed. */
  method ClearOn(s: StateDb, cfg: Config, from: Address, count: nat, ghost w: World)
    requires s.Valid() && Reads(s.View(), w) && from < TWO_160 && count < TWO_256
    requires cfg.staking < TWO_160 && cfg.validator < TWO_160
    modifies s
    ensures s.Valid() && Reads(s.View(), Clear(cfg, w, from, count))
  {
    hide Reads, WithAt;
    WriteWord(s, cfg.validator, count, 0, w);
    ghost var w2 := WithAt(w, cfg.validator, count, 0);
    WriteWord(s, cfg.validator, 0, ToWord(count as int - 1), w2);
    ghost var w3 := WithAt(w2, cfg.validator, 0, ToWord(count as int - 1));
    WriteWord(s, cfg.staking, from, 0, w3);
    ghost var w4 := WithAt(w3, cfg.staking, from, 0);
    WriteWord(s, cfg.validator, from, 0, w4);
  }

  /** Swap-and-pop removal. */
  method RemoveOn(s: StateDb, cfg: Config, from: Address, ghost w: World)
    requires s.Valid() && Reads(s.View(), w) && from < TWO_160 && cfg.staking < TWO_160 && cfg.validator < TWO_160
    modifies s
    ensures s.Valid() && Reads(s.View(), Remove(cfg, w, from))
  {
    hide Reads, At, Swap, Clear;
    var indexToRemove := ReadWord(s, cfg.validator, from, w);
    var currentCount := ReadWord(s, cfg.validator, 0, w);
    SwapOn(s, cfg, indexToRemove, currentCount, w);
    ClearOn(s, cfg, from, currentCount, Swap(cfg, w, indexToRemove, currentCount));
  }

  /** UNSTAKE. */
  method UnstakeOn(s: StateDb, cfg: Config, from: Address, ghost w: World)
    requires s.Valid() && Reads(s.View(), w) && from < TWO_160 && cfg.staking < TWO_160 && cfg.validator < TWO_160
    modifies s
    ensures s.Valid() && Reads(s.View(), Unstake(cfg, w, from))
  {
    hide Reads, Word, At, Bal, AddBal, Remove;
    var storedVal := ReadWord(s, cfg.staking, from, w);
    if storedVal != 0 {
      ReadsBalance(s.View(), w, cfg.staking);
      var pool := GetBalance(s, cfg.staking);
      if pool >= storedVal {
        Debit(s, cfg.staking, storedVal, w);
        Credit(s, from, storedVal, SubBal(w, cfg.staking, storedVal));
        RemoveOn(s, cfg, from, AddBal(SubBal(w, cfg.staking, storedVal), from, storedVal));
      }
    }
  }

  /** `ProcessSystemContracts`. */
  method ProcessSystemContracts(s: StateDb, cfg: Config, msg: Message, ghost w: World)
    requires s.Valid() && Reads(s.View(), w) && msg.from < TWO_160
    requires cfg.staking < TWO_160 && cfg.validator < TWO_160 && cfg.reward < TWO_160
    requires msg.data.RewardData? ==> msg.data.target < TWO_160
    modifies s
    ensures s.Valid() && Reads(s.View(), Process(cfg, w, msg))
  {
    ghost var w1 := w;
    if msg.to == Some(cfg.staking) {
      if msg.value > 0 {
        DepositOn(s, cfg, msg.from, msg.value, w1);
        w1 := Deposit(cfg, w1, msg.from, msg.value);
      }
      if msg.data == UnstakeData {
        UnstakeOn(s, cfg, msg.from, w1);
        w1 := Unstake(cfg, w1, msg.from);
      }
    }
    if msg.to == Some(cfg.reward) && msg.value == 0 && msg.data.RewardData? {
      var amount := msg.data.amount % TWO_256;
      var pool := GetBalance(s, cfg.reward);
      if pool >= amount {
        Debit(s, cfg.reward, amount, w1);
        Credit(s, msg.data.target, amount, SubBal(w1, cfg.reward, amount));
      }
    }
  }
}
