/** A message to the staking contract from end to end: the nonce is checked and raised, gas is bought,
    the value is transferred, unused gas is paid back, the coinbase is credited, and then the
    system contract is processed. As a transaction program it keeps to what sender and staking
    contract own; its effect is one step of a staking history. */
module StakingMessages {
  import opened Base
  import opened Accounts
  import opened Registry
  import opened Wave
  import opened Scripts
  import opened Traces
  import opened StakingProgram
  import M = Messages
  import F = Fees
  import H = StakingHistory

  // ---------- Scripts that end ----------

  lemma {:induction false} DirectStays(p: Program, s: Store, m: nat, n: nat)
    requires m <= n && p(DirectAt(p, s, m).0).Halt?
    ensures DirectAt(p, s, n) == DirectAt(p, s, m)
  {
    if m < n { DirectStays(p, s, m, n - 1); }
  }

  lemma {:induction false} EndsBy(p: Program, s: Store, n: nat, out: Outcome, t: Store)
    requires M.EndsAfter(p, s, n, out, t)
    ensures M.Ends(p, s, out, t)
  {
    hide DirectAt;
    if m: nat :| m < n && p(DirectAt(p, s, m).0).Halt? {
      DirectStays(p, s, m, n);
      EndsBy(p, s, m, out, t);
    } else {
      assert M.HaltsFirst(p, s, n);
    }
  }

  /** A script that runs to its end ends as a program. */
  lemma ScriptEnds(sc: Script, s: Store, n: nat, out: Outcome, t: Store)
    requires Steps(Conf(sc, s), n) == Conf(Done(out), t)
    ensures M.Ends(ProgramOf(sc), s, out, t)
  {
    hide Steps, Next, DirectAt, M.Ends;
    StepsAreDirect(Conf(sc, s), n, out, t);
    EndsBy(ProgramOf(sc), s, n, out, t);
  }

  // ---------- The execution ----------

  /** What a transaction stipulates: its nonce, what it has to be able to pay for gas, what it is
      charged up front, what it is charged after the refund, and the gas this stands for. */
  datatype Terms = Terms(nonce: nat, cap: nat, limit: nat, used: nat, gas: nat)

  predicate TermsOk(t: Terms) { t.used <= t.limit <= t.cap && t.nonce < TWO_64 }

  /** What `SetNonce` stores. */
  function NextNonce(t: Terms): (v: Value) { NonceBytes((t.nonce + 1) % TWO_64) }

  /** Adding this in 256 bits subtracts `n`. */
  function Minus(n: nat): (r: nat) { (TWO_256 - n % TWO_256) % TWO_256 }

  function Debit(a: Address, n: nat, rest: Script): (sc: Script) { CreditBal(a, Minus(n), rest) }

  function Refund(from: Address, t: Terms): (sc: Script)
    requires TermsOk(t)
  {
    CreditBal(from, t.limit - t.used, Done(Applied(t.gas, false)))
  }

  function Moving(from: Address, to: Address, value: nat, t: Terms): (sc: Script)
    requires TermsOk(t)
  {
    Debit(from, value, CreditBal(to, value, Refund(from, t)))
  }

  function Paying(from: Address, to: Address, value: nat, t: Terms): (sc: Script)
    requires TermsOk(t)
  {
    Debit(from, t.limit, Put(FieldKey(from, NonceOf), NextNonce(t), Moving(from, to, value, t)))
  }

  function OnFunds(from: Address, to: Address, value: nat, t: Terms): (f: nat -> Script)
    requires TermsOk(t)
  {
    (cur: nat) => if cur >= t.cap + value then Paying(from, to, value, t) else Done(Rejected)
  }

  function OnNonce(from: Address, to: Address, value: nat, t: Terms): (f: Value -> Script)
    requires TermsOk(t)
  {
    (v: Value) =>
      if NonceIn(v) == t.nonce && t.nonce + 1 < TWO_64 then GetBal(from, OnFunds(from, to, value, t))
      else Done(Rejected)
  }

  /** `ApplyMessage` for a transfer to an account without code. */
  function ExecScript(from: Address, to: Address, value: nat, t: Terms): (sc: Script)
    requires TermsOk(t)
  {
    Get(FieldKey(from, NonceOf), OnNonce(from, to, value, t))
  }

  /** The checks of `ApplyMessage`. */
  predicate Accepted(s: Store, from: Address, value: nat, t: Terms) {
    && NonceIn(Fetch(s, FieldKey(from, NonceOf))) == t.nonce && t.nonce + 1 < TWO_64
    && Word(s, from, BalanceOf) >= t.cap + value
  }

  lemma ReadsPutNonce(s: Store, w: World, a: Address, v: Value)
    requires Reads(s, w) && a < TWO_160
    ensures Reads(s[FieldKey(a, NonceOf) := v], w)
  {
    hide FieldKey;
    forall b: Address, f: Field | ValidField(b, f) && f != NonceOf
      ensures Word(s[FieldKey(a, NonceOf) := v], b, f) == Word(s, b, f)
    {
      if FieldKey(a, NonceOf) == FieldKey(b, f) { FieldKeysDiffer(a, NonceOf, b, f); }
    }
    forall b: Address | b < TWO_160 ensures Word(s[FieldKey(a, NonceOf) := v], b, BalanceOf) == Bal(w, b) {
      assert ValidField(b, BalanceOf);
    }
    forall b: Address, k: nat | b < TWO_160 && k < TWO_256
      ensures Word(s[FieldKey(a, NonceOf) := v], b, SlotOf(k)) == At(w, b, k)
    {
      assert ValidField(b, SlotOf(k));
    }
  }

  /** Balances after the execution, as the additions and subtractions it performs. */
  function Executed(w: World, from: Address, to: Address, value: nat, t: Terms): (r: World)
    requires TermsOk(t)
  {
    var w1 := AddBal(w, from, Minus(t.limit));
    var w2 := AddBal(w1, from, Minus(value));
    AddBal(AddBal(w2, to, value), from, t.limit - t.used)
  }

  /** A credit leaves nonces alone. */
  lemma CreditKeepsNonce(a: Address, n: nat, rest: Script, s: Store, b: Address)
    requires a < TWO_160 && b < TWO_160
    ensures Fetch(Steps(Conf(CreditBal(a, n, rest), s), 2).s, FieldKey(b, NonceOf)) == Fetch(s, FieldKey(b, NonceOf))
  {
    hide Steps, FieldKey, MinBytes;
    TwoSteps(Conf(CreditBal(a, n, rest), s));
    if FieldKey(b, NonceOf) == FieldKey(a, BalanceOf) { FieldKeysDiffer(b, NonceOf, a, BalanceOf); }
  }

  lemma PayingSteps(from: Address, to: Address, value: nat, t: Terms, s: Store, w: World) returns (u: Store)
    requires TermsOk(t) && Reads(s, w) && from < TWO_160 && to < TWO_160
    ensures Steps(Conf(Paying(from, to, value, t), s), 9) == Conf(Done(Applied(t.gas, false)), u)
    ensures Reads(u, Executed(w, from, to, value, t)) && Fetch(u, FieldKey(from, NonceOf)) == NextNonce(t)
  {
    hide Reads, Steps, CreditBal, AddBal, FieldKey, NextNonce, Minus;
    var moving, refund := Moving(from, to, value, t), Refund(from, t);
    var put := Put(FieldKey(from, NonceOf), NextNonce(t), moving);
    var c0 := Conf(Paying(from, to, value, t), s);
    CreditSteps(from, Minus(t.limit), put, s, w);
    var c2, w1 := Steps(c0, 2), AddBal(w, from, Minus(t.limit));
    AndThen(c0, 2, c2);
    var c3 := StepOf(c2);
    CreditKeepsNonce(from, Minus(value), CreditBal(to, value, refund), c3.s, from);
    ReadsPutNonce(c2.s, w1, from, NextNonce(t));
    CreditSteps(from, Minus(value), CreditBal(to, value, refund), c3.s, w1);
    var c5, w2 := Steps(c3, 2), AddBal(w1, from, Minus(value));
    StepsAdd(c0, 3, 2);
    CreditKeepsNonce(to, value, refund, c5.s, from);
    CreditSteps(to, value, refund, c5.s, w2);
    var c7, w3 := Steps(c5, 2), AddBal(w2, to, value);
    StepsAdd(c0, 5, 2);
    CreditKeepsNonce(from, t.limit - t.used, Done(Applied(t.gas, false)), c7.s, from);
    CreditSteps(from, t.limit - t.used, Done(Applied(t.gas, false)), c7.s, w3);
    StepsAdd(c0, 7, 2);
    u := Steps(c7, 2).s;
  }

  /** The sender is charged, and then transfers the value: what the additions amount to, as long as
      the supply fits in 256 bits. */
  function Charge(w: World, from: Address, used: nat): (r: World)
    requires used <= Bal(w, from)
  {
    WithBal(w, from, Bal(w, from) - used)
  }

  lemma SubBalIs(w: World, a: Address, n: nat)
    requires n <= Bal(w, a) < TWO_256
    ensures AddBal(w, a, Minus(n)) == WithBal(w, a, Bal(w, a) - n)
  {
    SmallMod(n, TWO_256);
    H.SubIsMinus(Bal(w, a), n);
  }

  lemma AddBalIs(w: World, a: Address, n: nat)
    requires Bal(w, a) + n < TWO_256
    ensures AddBal(w, a, n) == WithBal(w, a, Bal(w, a) + n)
  {
    SmallMod(Bal(w, a) + n, TWO_256);
  }

  lemma TwoDebits(w: World, a: Address, m: nat, n: nat)
    requires m + n <= Bal(w, a) < TWO_256
    ensures AddBal(AddBal(w, a, Minus(m)), a, Minus(n)) ==
      WithBal(WithBal(w, a, Bal(w, a) - m), a, Bal(w, a) - m - n)
  {
    hide AddBal, Minus;
    SubBalIs(w, a, m);
    SubBalIs(WithBal(w, a, Bal(w, a) - m), a, n);
  }

  lemma TwoCredits(w: World, a: Address, m: nat, b: Address, n: nat)
    requires a != b && Bal(w, a) + m < TWO_256 && Bal(w, b) + n < TWO_256
    ensures AddBal(AddBal(w, a, m), b, n) == WithBal(WithBal(w, a, Bal(w, a) + m), b, Bal(w, b) + n)
  {
    hide AddBal;
    AddBalIs(w, a, m);
    AddBalIs(WithBal(w, a, Bal(w, a) + m), b, n);
  }

  lemma Booked(w: World, a: Address, x: nat, y: nat, b: Address)
    requires a != b
    ensures var r := WithBal(WithBal(w, a, x), a, y); Bal(r, a) == y && Bal(r, b) == Bal(w, b)
  {
  }

  lemma BookedTwice(w: World, from: Address, used: nat, to: Address, value: nat)
    requires from != to && used + value <= Bal(w, from)
    ensures H.Transfer(Charge(w, from, used), from, to, value) ==
      WithBal(WithBal(WithBal(w, from, Bal(w, from) - used), from, Bal(w, from) - used - value), to, Bal(w, to) + value)
  {
  }

  lemma ExecutedIs(w: World, from: Address, to: Address, value: nat, t: Terms)
    requires TermsOk(t) && Bal(w, from) >= t.cap + value && from < TWO_160 && to < TWO_160 && from != to
    requires H.Supply(w) < TWO_256
    ensures Executed(w, from, to, value, t) == H.Transfer(Charge(w, from, t.used), from, to, value)
  {
    hide H.SumTo, AddBal, Minus, WithBal;
    var b, c := Bal(w, from), Bal(w, to);
    H.SumPair(w, from, to, TWO_160);
    TwoDebits(w, from, t.limit, value);
    var w2 := WithBal(WithBal(w, from, b - t.limit), from, b - t.limit - value);
    Booked(w, from, b - t.limit, b - t.limit - value, to);
    TwoCredits(w2, to, value, from, t.limit - t.used);
    BookedTwice(w, from, t.used, to, value);
    SameBooks(w, from, to, b - t.limit, b - t.limit - value, c + value, b - t.used - value, b - t.used);
  }

  lemma SameBooks(w: World, from: Address, to: Address, x: nat, y: nat, v: nat, z: nat, u: nat)
    requires from != to
    ensures WithBal(WithBal(WithBal(WithBal(w, from, x), from, y), to, v), from, z) ==
      WithBal(WithBal(WithBal(w, from, u), from, z), to, v)
  {
    assert w.bal[from := x][from := y][to := v][from := z] == w.bal[from := u][from := z][to := v];
  }

  /** What the additions amount to: the sender pays the value and the gas used, the recipient gets the
      value, and everyone else keeps what they had. */
  lemma ExecutedBalances(w: World, from: Address, to: Address, value: nat, t: Terms, a: Address)
    requires TermsOk(t) && Bal(w, from) >= t.cap + value && from < TWO_160 && to < TWO_160 && from != to
    requires H.Supply(w) < TWO_256
    ensures Executed(w, from, to, value, t).words == w.words
    ensures Bal(Executed(w, from, to, value, t), a) ==
      if a == from then Bal(w, a) - t.used - value else if a == to then Bal(w, a) + value else Bal(w, a)
  {
    hide Executed, H.SumTo;
    ExecutedIs(w, from, to, value, t);
  }

  /** How the execution ends: refused without a trace, or with the charge and the transfer. */
  lemma ExecEnds(from: Address, to: Address, value: nat, t: Terms, s: Store, w: World) returns (u: Store)
    requires TermsOk(t) && Reads(s, w) && from < TWO_160 && to < TWO_160
    ensures M.Ends(ProgramOf(ExecScript(from, to, value, t)), s,
                   if Accepted(s, from, value, t) then Applied(t.gas, false) else Rejected, u)
    ensures Accepted(s, from, value, t) ==>
      Reads(u, Executed(w, from, to, value, t)) && Fetch(u, FieldKey(from, NonceOf)) == NextNonce(t)
  {
    hide Reads, Steps, Paying, Executed, M.Ends, NonceIn, FieldKey, GetBal;
    var sc := ExecScript(from, to, value, t);
    var c0 := Conf(sc, s);
    var c1 := StepOf(c0);
    NoStep(c0);
    AndThen(c0, 0, c0);
    if NonceIn(Fetch(s, FieldKey(from, NonceOf))) != t.nonce || t.nonce + 1 >= TWO_64 {
      u := s;
      ScriptEnds(sc, s, 1, Rejected, u);
    } else {
      GetBalStep(from, OnFunds(from, to, value, t), s, w);
      ReadsBalance(s, w, from);
      AndThen(c0, 1, c1);
      var c2 := StepOf(c1);
      if Bal(w, from) >= t.cap + value {
        u := PayingSteps(from, to, value, t, s, w);
        StepsAdd(c0, 2, 9);
        ScriptEnds(sc, s, 11, Applied(t.gas, false), u);
      } else {
        u := s;
        ScriptEnds(sc, s, 2, Rejected, u);
      }
    }
  }

  // ---------- The whole message ----------

  /** A message to the staking contract. */
  function StakingMessage(cfg: Config, m: Message, t: Terms, k: Key, fee: nat -> nat): (p: Program)
    requires TermsOk(t)
  {
    M.Message(ProgramOf(ExecScript(m.from, cfg.staking, m.value, t)), k, fee, ProgramOf(StakingScript(cfg, m, 0)))
  }

  ghost predicate Sends(cfg: Config, m: Message, t: Terms, coinbase: Address) {
    && TermsOk(t) && m.to == Some(cfg.staking) && cfg.reward != cfg.staking && m.from != cfg.staking
    && cfg.validator < TWO_160 && cfg.staking < TWO_160 && m.from < TWO_160 && coinbase < TWO_160
    && coinbase != m.from && coinbase != cfg.staking
  }

  /** Everything that moves besides the value: the charge and the coinbase credit. */
  function Settled(w: World, from: Address, used: nat, coinbase: Address, fee: nat): (bal: map<Address, nat>)
    requires used <= Bal(w, from)
  {
    w.bal[from := Bal(w, from) - used][coinbase := (Bal(w, coinbase) + fee) % TWO_256]
  }

  /** The fee credited before or after the transfer is the same to everyone else. */
  lemma FeeCommutes(cfg: Config, w: World, m: Message, t: Terms, coinbase: Address, fee: nat)
    requires Sends(cfg, m, t, coinbase) && Bal(w, m.from) >= t.cap + m.value
    ensures AddBal(H.Transfer(Charge(w, m.from, t.used), m.from, cfg.staking, m.value), coinbase, fee) ==
      H.Transfer(w.(bal := Settled(w, m.from, t.used, coinbase, fee)), m.from, cfg.staking, m.value)
  {
    var b, c, x := Bal(w, m.from) - t.used, Bal(w, cfg.staking) + m.value, (Bal(w, coinbase) + fee) % TWO_256;
    MoveLast(w.bal[m.from := b], m.from, b - m.value, cfg.staking, c, coinbase, x);
  }

  lemma MoveLast(bal: map<Address, nat>, a: Address, x: nat, b: Address, y: nat, c: Address, z: nat)
    requires c != a && c != b
    ensures bal[a := x][b := y][c := z] == bal[c := z][a := x][b := y]
  {
  }

  lemma CreditReads(s: Store, w: World, coinbase: Address, fee: nat)
    requires Reads(s, w) && coinbase < TWO_160
    ensures var k := FieldKey(coinbase, BalanceOf); Reads(s[k := M.Paid(Fetch(s, k), fee)], AddBal(w, coinbase, fee))
  {
    hide Reads, FieldKey;
    ReadsBalance(s, w, coinbase);
    ReadsPutBalance(s, w, coinbase, (Bal(w, coinbase) + fee) % TWO_256);
  }

  /** A staking message that passes the checks does to balances and registry what a staking history
      does when the sender is charged, the coinbase credited, and then the message sent; one
      that does not leaves no trace. */
  lemma StakingMessageEffect(cfg: Config, m: Message, t: Terms, coinbase: Address, fee: nat -> nat, s: Store, w: World)
    requires Sends(cfg, m, t, coinbase) && Reads(s, w) && H.Supply(w) < TWO_256
    ensures var p := StakingMessage(cfg, m, t, FieldKey(coinbase, BalanceOf), fee);
      if Accepted(s, m.from, m.value, t) then
        && SoloOut(p, s) == Some(Applied(t.gas, false)) && t.used <= Bal(w, m.from)
        && Reads(Effect(p, s),
                 H.Step(cfg, H.Step(cfg, w, H.Env(Settled(w, m.from, t.used, coinbase, fee(t.gas)))), H.Send(m)))
        && Fetch(Effect(p, s), FieldKey(m.from, NonceOf)) == NextNonce(t)
      else SoloOut(p, s) == Some(Rejected) && Effect(p, s) == s
  {
    hide Reads, Process, M.Ends, ExecScript, StakingScript, Executed, H.SumTo, M.Paid, FieldKey, AddBal, Effect,
      SoloOut, M.Message, H.Transfer, Settled, NonceIn;
    if Accepted(s, m.from, m.value, t) {
      var k, run := FieldKey(coinbase, BalanceOf), ProgramOf(ExecScript(m.from, cfg.staking, m.value, t));
      var post := ProgramOf(StakingScript(cfg, m, 0));
      var t1 := ExecEnds(m.from, cfg.staking, m.value, t, s, w);
      ReadsBalance(s, w, m.from);
      ExecutedIs(w, m.from, cfg.staking, m.value, t);
      var w1 := H.Transfer(Charge(w, m.from, t.used), m.from, cfg.staking, m.value);
      CreditReads(t1, w1, coinbase, fee(t.gas));
      var t2 := t1[k := M.Paid(Fetch(t1, k), fee(t.gas))];
      FeeCommutes(cfg, w, m, t, coinbase, fee(t.gas));
      var w2 := AddBal(w1, coinbase, fee(t.gas));
      var d, t3 := StakingSteps(cfg, m, 0, t2, w2);
      ScriptEnds(StakingScript(cfg, m, 0), t2, d, Applied(0, false), t3);
      M.MessageEffect(run, k, fee, post, s, t.gas, false, t1, Applied(0, false), t3);
      CoinbaseIsNoNonce(coinbase, m.from);
      ProcessingKeepsNonce(cfg, m, t2, Applied(0, false), t3);
      StillPays(w, m, t, coinbase, fee(t.gas));
    } else {
      RefusedEffect(cfg, m, t, coinbase, fee, s);
    }
  }

  /** A message that does not pass the checks leaves no trace. */
  lemma RefusedEffect(cfg: Config, m: Message, t: Terms, coinbase: Address, fee: nat -> nat, s: Store)
    requires Sends(cfg, m, t, coinbase) && !Accepted(s, m.from, m.value, t)
    ensures var p := StakingMessage(cfg, m, t, FieldKey(coinbase, BalanceOf), fee);
      SoloOut(p, s) == Some(Rejected) && Effect(p, s) == s
  {
    hide Reads, M.Ends, ExecScript, StakingScript, FieldKey, Effect, SoloOut, M.Message, Accepted, WorldOf;
    var k, run := FieldKey(coinbase, BalanceOf), ProgramOf(ExecScript(m.from, cfg.staking, m.value, t));
    WorldReads(s);
    var t1 := ExecEnds(m.from, cfg.staking, m.value, t, s, WorldOf(s));
    M.MessageEnds(run, k, fee, ProgramOf(StakingScript(cfg, m, 0)), s, Rejected, t1, Rejected, t1);
    M.EndsEffect(StakingMessage(cfg, m, t, k, fee), s, Rejected, t1);
  }

  /** No nonce is read back as the one before it, whatever its width. */
  lemma NonceMovesOn(t: Terms)
    requires TermsOk(t) && t.nonce + 1 < TWO_64
    ensures NonceIn(NextNonce(t)) != t.nonce
  {
    var n := t.nonce + 1;
    SmallMod(n, TWO_64);
    if n < TWO_63 { SmallMod(n, TWO_64); } else { SmallMod(TWO_64 - n, TWO_64); }
  }

  /** A staking message takes effect at most once: on the state it leaves it is refused. */
  lemma NotTwice(cfg: Config, m: Message, t: Terms, coinbase: Address, fee: nat -> nat, s: Store, w: World)
    requires Sends(cfg, m, t, coinbase) && Reads(s, w) && H.Supply(w) < TWO_256 && Accepted(s, m.from, m.value, t)
    ensures var p := StakingMessage(cfg, m, t, FieldKey(coinbase, BalanceOf), fee);
      SoloOut(p, Effect(p, s)) == Some(Rejected) && Effect(p, Effect(p, s)) == Effect(p, s)
  {
    hide Reads, FieldKey, Effect, SoloOut, StakingMessage, NonceIn, NextNonce, H.SumTo, Settled, H.Step;
    var p := StakingMessage(cfg, m, t, FieldKey(coinbase, BalanceOf), fee);
    StakingMessageEffect(cfg, m, t, coinbase, fee, s, w);
    NonceMovesOn(t);
    RefusedEffect(cfg, m, t, coinbase, fee, Effect(p, s));
  }

  lemma CoinbaseIsNoNonce(coinbase: Address, from: Address)
    requires coinbase < TWO_160 && from < TWO_160
    ensures FieldKey(coinbase, BalanceOf) != FieldKey(from, NonceOf)
  {
    hide FieldKey;
    if FieldKey(coinbase, BalanceOf) == FieldKey(from, NonceOf) { FieldKeysDiffer(coinbase, BalanceOf, from, NonceOf); }
  }

  /** What a program that keeps to some keys leaves of the others. */
  lemma EndsOwned(p: Program, own: iset<Key>, s: Store, out: Outcome, t: Store, key: Key)
    requires M.Ends(p, s, out, t) && Framed(p, own, {}) && key !in own
    ensures Fetch(t, key) == Fetch(s, key)
  {
    hide SoloAt, DirectAt, Framed;
    var n: nat :| M.HaltsFirst(p, s, n) && M.EndsAfter(p, s, n, out, t);
    OverlayIsDirect(p, s, n);
    SoloOwned(p, own, {}, s, n);
  }

  /** Storage slots of the two contracts, balances of staker and staking account. */
  ghost predicate IsRegistryKey(cfg: Config, from: Address, key: Key) {
    || (exists k: nat :: key == FieldKey(cfg.staking, SlotOf(k)) || key == FieldKey(cfg.validator, SlotOf(k)))
    || key == FieldKey(cfg.staking, BalanceOf) || key == FieldKey(from, BalanceOf)
  }

  ghost function RegistryKeys(cfg: Config, from: Address): (own: iset<Key>) {
    iset key: Key | IsRegistryKey(cfg, from, key)
  }

  lemma NonceIsNoRegistryKey(cfg: Config, from: Address)
    requires cfg.staking < TWO_160 && from < TWO_160
    ensures FieldKey(from, NonceOf) !in RegistryKeys(cfg, from)
  {
    CoinbaseIsNoNonce(cfg.staking, from);
    CoinbaseIsNoNonce(from, from);
    forall k: nat, a: Address ensures FieldKey(from, NonceOf) != FieldKey(a, SlotOf(k)) {
      assert |FieldKey(from, NonceOf)| == 21 && |FieldKey(a, SlotOf(k))| == 52;
    }
  }

  lemma ProcessingKeepsNonce(cfg: Config, m: Message, s: Store, out: Outcome, t: Store)
    requires cfg.staking < TWO_160 && m.from < TWO_160 && M.Ends(ProgramOf(StakingScript(cfg, m, 0)), s, out, t)
    ensures Fetch(t, FieldKey(m.from, NonceOf)) == Fetch(s, FieldKey(m.from, NonceOf))
  {
    hide FieldKey, StakingScript, M.Ends, Framed;
    var own := RegistryKeys(cfg, m.from);
    assert HasKeys(cfg, m.from, own);
    NonceIsNoRegistryKey(cfg, m.from);
    ScriptKeepsTo(cfg, m, 0, own);
    EndsOwned(ProgramOf(StakingScript(cfg, m, 0)), own, s, out, t, FieldKey(m.from, NonceOf));
  }

  lemma StillPays(w: World, m: Message, t: Terms, coinbase: Address, fee: nat)
    requires TermsOk(t) && Bal(w, m.from) >= t.cap + m.value && coinbase != m.from
    ensures Bal(w.(bal := Settled(w, m.from, t.used, coinbase, fee)), m.from) >= m.value
  {
  }

  // ---------- The frame ----------

  lemma PutKeeps(k: Key, v: Value, rest: Script, own: iset<Key>, n: nat)
    requires k in own && Keeps(rest, own, n)
    ensures Keeps(Put(k, v, rest), own, n + 1)
  {
  }

  lemma PayingKeeps(from: Address, to: Address, value: nat, t: Terms, own: iset<Key>)
    requires TermsOk(t) && FieldKey(from, NonceOf) in own
    requires FieldKey(from, BalanceOf) in own && FieldKey(to, BalanceOf) in own
    ensures Keeps(Paying(from, to, value, t), own, 9)
  {
    hide Keeps, CreditBal, FieldKey, NextNonce, Minus;
    var refund := Refund(from, t);
    EndKeeps(t.gas, own);
    CreditKeeps(from, t.limit - t.used, Done(Applied(t.gas, false)), own, 0);
    CreditKeeps(to, value, refund, own, 2);
    CreditKeeps(from, Minus(value), CreditBal(to, value, refund), own, 4);
    PutKeeps(FieldKey(from, NonceOf), NextNonce(t), Moving(from, to, value, t), own, 6);
    var put := Put(FieldKey(from, NonceOf), NextNonce(t), Moving(from, to, value, t));
    CreditKeeps(from, Minus(t.limit), put, own, 7);
  }

  lemma RefusedKeeps(own: iset<Key>, n: nat)
    ensures Keeps(Done(Rejected), own, n)
  {
  }

  lemma ExecFramed(from: Address, to: Address, value: nat, t: Terms, own: iset<Key>)
    requires TermsOk(t) && FieldKey(from, NonceOf) in own
    requires FieldKey(from, BalanceOf) in own && FieldKey(to, BalanceOf) in own
    ensures Framed(ProgramOf(ExecScript(from, to, value, t)), own, {})
  {
    hide Keeps, FieldKey, Paying, GetBal;
    PayingKeeps(from, to, value, t, own);
    RefusedKeeps(own, 9);
    RefusedKeeps(own, 10);
    forall cur: nat ensures Keeps(OnFunds(from, to, value, t)(cur), own, 9) {}
    GetBalKeeps(from, OnFunds(from, to, value, t), own, 9);
    forall v: Value ensures Keeps(OnNonce(from, to, value, t)(v), own, 10) {}
    GetKeeps(FieldKey(from, NonceOf), OnNonce(from, to, value, t), own, 10);
    ScriptFramed(ExecScript(from, to, value, t), own, 11);
  }

  lemma GetKeeps(k: Key, f: Value -> Script, own: iset<Key>, n: nat)
    requires k in own && forall v :: Keeps(f(v), own, n)
    ensures Keeps(Get(k, f), own, n + 1)
  {
  }

  /** The parts of a staking message, for the theory of fees. */
  function StakingPartOf(cfg: Config, m: Message, t: Terms, fee: nat -> nat): (p: F.Part)
    requires TermsOk(t)
  {
    F.Part(ProgramOf(ExecScript(m.from, cfg.staking, m.value, t)), fee, ProgramOf(StakingScript(cfg, m, 0)))
  }

  ghost function OwnKeys(cfg: Config, from: Address, k: Key): (own: iset<Key>) {
    KeysOf({from, cfg.staking}, OwnerOf(cfg), {k})
  }

  lemma OwnKeysAre(cfg: Config, m: Message, t: Terms, coinbase: Address)
    requires Sends(cfg, m, t, coinbase)
    ensures OwnKeys(cfg, m.from, FieldKey(coinbase, BalanceOf)) == KeysOf({m.from, cfg.staking}, OwnerOf(cfg), {})
    ensures FieldKey(coinbase, BalanceOf) !in OwnKeys(cfg, m.from, FieldKey(coinbase, BalanceOf))
  {
    hide FieldKey, KeyOwner;
    OwnerOfField(cfg, coinbase, BalanceOf);
  }

  /** Both parts of a staking message keep to what sender and staking contract own, and halt on every
      state. */
  lemma StakingProper(cfg: Config, m: Message, t: Terms, coinbase: Address, fee: nat -> nat)
    requires Sends(cfg, m, t, coinbase)
    ensures F.Proper(StakingPartOf(cfg, m, t, fee), OwnKeys(cfg, m.from, FieldKey(coinbase, BalanceOf)))
  {
    hide FieldKey, KeysOf, OwnKeys, ExecScript, StakingScript, Framed, KeyOwner;
    var own := KeysOf({m.from, cfg.staking}, OwnerOf(cfg), {});
    OwnKeysAre(cfg, m, t, coinbase);
    SenderKeys(cfg, m, t, coinbase);
    ExecFramed(m.from, cfg.staking, m.value, t, own);
    StakingFramed(cfg, m, 0);
    forall s: Store ensures Halts(ProgramOf(ExecScript(m.from, cfg.staking, m.value, t)), s) {
      WorldReads(s);
      var u := ExecEnds(m.from, cfg.staking, m.value, t, s, WorldOf(s));
      var out := if Accepted(s, m.from, m.value, t) then Applied(t.gas, false) else Rejected;
      F.EndsHalts(ProgramOf(ExecScript(m.from, cfg.staking, m.value, t)), s, out, u);
    }
    forall s: Store ensures Halts(ProgramOf(StakingScript(cfg, m, 0)), s) {
      WorldReads(s);
      var d, u := StakingSteps(cfg, m, 0, s, WorldOf(s));
      ScriptEffect(StakingScript(cfg, m, 0), s, d, Applied(0, false), u);
    }
  }

  lemma SenderKeys(cfg: Config, m: Message, t: Terms, coinbase: Address)
    requires Sends(cfg, m, t, coinbase)
    ensures var own := KeysOf({m.from, cfg.staking}, OwnerOf(cfg), {});
      && FieldKey(m.from, NonceOf) in own && FieldKey(m.from, BalanceOf) in own
      && FieldKey(cfg.staking, BalanceOf) in own
  {
    hide FieldKey, KeyOwner;
    OwnerOfField(cfg, m.from, NonceOf);
    OwnerOfField(cfg, m.from, BalanceOf);
    OwnerOfField(cfg, cfg.staking, BalanceOf);
  }

  /** A staking message meets the frame hypothesis of parallel execution. */
  lemma StakingMessageFits(cfg: Config, m: Message, t: Terms, coinbase: Address, fee: nat -> nat)
    requires Sends(cfg, m, t, coinbase)
    ensures var k := FieldKey(coinbase, BalanceOf);
      Fits(StakingMessage(cfg, m, t, k, fee), OwnKeys(cfg, m.from, k), {k})
  {
    hide FieldKey, OwnKeys, ExecScript, StakingScript, Framed, AlwaysHalts, Fits, M.Message;
    OwnKeysAre(cfg, m, t, coinbase);
    StakingProper(cfg, m, t, coinbase, fee);
    F.PartFits(StakingPartOf(cfg, m, t, fee), OwnKeys(cfg, m.from, FieldKey(coinbase, BalanceOf)),
               FieldKey(coinbase, BalanceOf));
  }
}
