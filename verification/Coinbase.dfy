/** Blocks of messages that pay their fees to the coinbase, as every executed message does: any two
    interleavings agree on all receipts and on the whole state but the coinbase balance, provided
    the coinbase is neither sender nor recipient in the block. That proviso cannot be dropped. */
module Coinbase {
  import opened Base
  import opened Scheduler
  import opened Wave
  import opened Traces
  import opened Receipts
  import opened BlockExec
  import opened BlockReceipts
  import opened Messages
  import opened Turns
  import opened Races
  import opened Fees
  import A = Accounts

  // ---------- Blocks of messages ----------

  /** Every program of the block is a message whose execution and processing keep to the keys of its
      sender and recipient. */
  ghost predicate FeePaying(txs: seq<Tx>, ps: seq<Program>, ms: seq<Part>, owner: Key -> Address, k: Key) {
    && |ps| == |ms| == |txs|
    && (forall i :: 0 <= i < |txs| ==>
          && ps[i] == MessageOf(ms[i], k)
          && Framed(ms[i].run, KeysOf(Footprint(txs[i]), owner, {k}), {})
          && Framed(ms[i].post, KeysOf(Footprint(txs[i]), owner, {k}), {}))
  }

  lemma MessagesFit(txs: seq<Tx>, ps: seq<Program>, ms: seq<Part>, owner: Key -> Address, k: Key)
    requires FeePaying(txs, ps, ms, owner, k)
    ensures FramedBlock(txs, ps, owner, {k})
  {
    hide Fits, Framed, MessageOf;
    forall i | 0 <= i < |txs| ensures Fits(ps[i], KeysOf(Footprint(txs[i]), owner, {k}), {k}) {
      PartFits(ms[i], KeysOf(Footprint(txs[i]), owner, {k}), k);
    }
  }

  /** Any two complete interleavings of a block of fee-paying messages end in the same receipts,
      and in states that differ at most in the coinbase balance. */
  lemma OnlyCoinbaseDiffers(b: Block, ms: seq<Part>, owner: Key -> Address, base: Store, coinbase: Address,
                            css: seq<seq<Choice>>, css': seq<seq<Choice>>, final: seq<Receipt>, final': seq<Receipt>)
    requires Scheduled(b) && DistinctHashes(b.txs)
    requires FeePaying(b.txs, b.ps, ms, owner, A.FieldKey(coinbase, A.BalanceOf))
    requires |css| == |css'| && Complete(b, base, css, |css|) && Complete(b, base, css', |css|)
    requires forall i :: 0 <= i < |b.txs| ==> b.lv[i] < |css|
    requires Compacted(b.txs, Exec(b, base, css, |css|).ledger.receipts, final, |b.txs|)
    requires Compacted(b.txs, Exec(b, base, css', |css|).ledger.receipts, final', |b.txs|)
    ensures final == final'
    ensures forall k: Key :: k != A.FieldKey(coinbase, A.BalanceOf) ==>
      Fetch(WithReward(Exec(b, base, css, |css|), coinbase), k)
      == Fetch(WithReward(Exec(b, base, css', |css|), coinbase), k)
  {
    hide Exec, Complete, FirstFit, Compacted, DistinctHashes, WithReward, FeePaying, FramedBlock, A.FieldKey;
    var c := A.FieldKey(coinbase, A.BalanceOf);
    MessagesFit(b.txs, b.ps, ms, owner, c);
    ApplyBlockDeterministic(b, owner, {c}, base, coinbase, css, css', final, final');
    var s, s' := WithReward(Exec(b, base, css, |css|), coinbase), WithReward(Exec(b, base, css', |css|), coinbase);
    forall k: Key | k != c ensures Fetch(s, k) == Fetch(s', k) {
      FetchOutside(s, {c}, k);
      FetchOutside(s', {c}, k);
    }
  }

  // ---------- The coinbase as sender or recipient ----------

  ghost predicate Parts(ms: seq<Part>, own: seq<iset<Key>>) {
    |ms| == |own| && forall x :: 0 <= x < |ms| ==> Proper(ms[x], own[x])
  }

  function MessagesOf(ms: seq<Part>, k: Key): (ps: seq<Program>)
    ensures |ps| == |ms| && forall x :: 0 <= x < |ms| ==> ps[x] == MessageOf(ms[x], k)
  {
    seq(|ms|, x requires 0 <= x < |ms| => MessageOf(ms[x], k))
  }

  /** All complete interleavings agree outside `k`. */
  ghost predicate OneStateBut(baseFee: Option<nat>, jobs: seq<Job>, k: Key, base: Store, l: Ledger) {
    forall cs, cs' ::
      AllFinished(Run(baseFee, jobs, Start(jobs, base, l), cs)) &&
      AllFinished(Run(baseFee, jobs, Start(jobs, base, l), cs')) ==>
      Run(baseFee, jobs, Start(jobs, base, l), cs).parent - {k} ==
      Run(baseFee, jobs, Start(jobs, base, l), cs').parent - {k}
  }

  /** Copies the value under one key to another. */
  function Copy(k: Key, to: Key): (p: Program) {
    obs => if |obs| == 0 then Read(k) else if |obs| == 1 then Write(to, obs[0]) else Halt(Applied(0, false))
  }

  lemma CopyEnds(k: Key, to: Key, s: Store)
    ensures Ends(Copy(k, to), s, Applied(0, false), s[to := Fetch(s, k)])
  {
    var p, v := Copy(k, to), Fetch(s, k);
    assert DirectAt(p, s, 0) == ([], s);
    assert DirectAt(p, s, 1) == ([v], s) by { assert [] + [v] == [v]; }
    assert DirectAt(p, s, 2) == ([v, v], s[to := v]) by { assert [v] + [v] == [v, v]; }
    assert HaltsFirst(p, s, 2) && EndsAfter(p, s, 2, Applied(0, false), s[to := v]);
  }

  function Nothing(): (f: nat -> nat) { g => 0 }

  function One(): (f: nat -> nat) { g => 1 }

  /** One sender at the coinbase that copies its balance, one message that pays, and the rest skipped. */
  function Witness(z: nat, x: nat, y: nat, k: Key, to: Key): (m: Part) {
    if z == x then Part(Copy(k, to), Nothing(), Stop(Skipped))
    else if z == y then Part(Stop(Applied(0, false)), One(), Stop(Skipped))
    else Part(Stop(Skipped), Nothing(), Stop(Skipped))
  }

  function Witnesses(n: nat, x: nat, y: nat, k: Key, to: Key): (ms: seq<Part>)
    ensures |ms| == n && forall z :: 0 <= z < n ==> ms[z] == Witness(z, x, y, k, to)
  {
    seq(n, z requires 0 <= z < n => Witness(z, x, y, k, to))
  }

  lemma StopProper(out: Outcome, own: iset<Key>)
    ensures Framed(Stop(out), own, {}) && AlwaysHalts(Stop(out))
  {
    forall obs ensures Within(Stop(out)(obs), own, {}) {}
    forall s: Store ensures Halts(Stop(out), s) { assert HaltsAt(Stop(out), s, 0); }
  }

  lemma CopyProper(k: Key, to: Key, own: iset<Key>)
    requires k in own && to in own
    ensures Framed(Copy(k, to), own, {}) && AlwaysHalts(Copy(k, to))
  {
    forall obs ensures Within(Copy(k, to)(obs), own, {}) {}
    forall s: Store ensures Halts(Copy(k, to), s) {
      CopyEnds(k, to, s);
      EndsHalts(Copy(k, to), s, Applied(0, false), s[to := Fetch(s, k)]);
    }
  }

  lemma WitnessProper(z: nat, x: nat, y: nat, k: Key, to: Key, own: iset<Key>)
    requires z == x ==> k in own && to in own
    ensures Proper(Witness(z, x, y, k, to), own)
  {
    hide Framed, AlwaysHalts, Copy, Stop;
    StopProper(Skipped, own);
    StopProper(Applied(0, false), own);
    if z == x { CopyProper(k, to, own); }
  }

  /** What each of them does by itself. */
  lemma WitnessEffect(z: nat, x: nat, y: nat, k: Key, to: Key, s: Store)
    requires x != y
    ensures Effect(MessageOf(Witness(z, x, y, k, to), k), s) ==
      if z == x then s[to := Fetch(s, k)][k := Paid(Fetch(s[to := Fetch(s, k)], k), 0)]
      else if z == y then s[k := Paid(Fetch(s, k), 1)]
      else s
  {
    hide Ends, Paid, Copy, Stop, Message, Effect;
    var m := Witness(z, x, y, k, to);
    if z == x || z == y {
      var t := if z == x then s[to := Fetch(s, k)] else s;
      var u := t[k := Paid(Fetch(t, k), m.fee(0))];
      CopyEnds(k, to, s);
      StopEnds(Applied(0, false), s);
      StopEnds(Skipped, u);
      MessageEffect(m.run, k, m.fee, m.post, s, 0, false, t, Skipped, u);
    } else {
      StopEnds(Skipped, s);
      MessageEnds(m.run, k, m.fee, m.post, s, Skipped, s, Skipped, s);
      EndsEffect(MessageOf(m, k), s, Skipped, s);
    }
  }

  lemma {:induction false} SkippedTurns(ms: seq<Part>, x: nat, y: nat, k: Key, to: Key, order: seq<nat>, s: Store)
    requires x != y && forall z :: 0 <= z < |ms| ==> ms[z] == Witness(z, x, y, k, to)
    requires InRange(order, |ms|) && x !in order && y !in order
    ensures SeqAt(MessagesOf(ms, k), order, s) == s
  {
    hide Effect, MessageOf, Witness;
    if order != [] {
      SkippedTurns(ms, x, y, k, to, order[..|order| - 1], s);
      assert order[|order| - 1] in order;
      WitnessEffect(order[|order| - 1], x, y, k, to, s);
    }
  }

  lemma WitnessAlwaysHalts(ms: seq<Part>, own: seq<iset<Key>>, k: Key, z: nat)
    requires Parts(ms, own) && z < |ms|
    ensures AlwaysHalts(MessageOf(ms[z], k))
  {
    hide AlwaysHalts, MessageOf, Proper;
    MessageAlwaysHalts(ms[z], own[z], k);
  }

  /** Both orders of the copy and the payment are complete interleavings. */
  lemma BothOrders(baseFee: Option<nat>, jobs: seq<Job>, ms: seq<Part>, own: seq<iset<Key>>, k: Key, base: Store,
                   l: Ledger, x: nat, y: nat)
    returns (cs: seq<Choice>, rest: seq<nat>)
    requires Parts(ms, own) && |ms| == |jobs| && x < |jobs| && y < |jobs| && x != y
    ensures InRange(rest, |ms|) && x !in rest && y !in rest
    ensures var js := WithProgs(jobs, MessagesOf(ms, k));
      && AllFinished(Run(baseFee, js, Start(js, base, l), cs))
      && Run(baseFee, js, Start(js, base, l), cs).parent ==
         SeqAt(MessagesOf(ms, k), rest, Effect(MessageOf(ms[y], k), Effect(MessageOf(ms[x], k), base)))
  {
    hide Run, Start, AllFinished, AlwaysHalts, MessageOf, Parts, Effect, SeqAt, Others;
    var ps := MessagesOf(ms, k);
    var js := WithProgs(jobs, ps);
    rest := Others(|jobs|, x, y);
    TwoFirst(|jobs|, x, y);
    OthersAre(|jobs|, x, y);
    forall z | 0 <= z < |js| ensures AlwaysHalts(js[z].prog) { WitnessAlwaysHalts(ms, own, k, z); }
    assert Progs(js) == ps;
    cs := WholeWaveInTurn(baseFee, js, base, l, [x, y] + rest);
    TwoThen(ps, x, y, rest, base);
  }

  /** A sender or recipient at the coinbase makes other keys depend on the interleaving. */
  lemma CoinbaseInside(baseFee: Option<nat>, jobs: seq<Job>, own: seq<iset<Key>>, k: Key, to: Key, x: nat, y: nat)
    returns (ms: seq<Part>)
    requires |own| == |jobs| && x < |jobs| && y < |jobs| && x != y && k in own[x] && to in own[x] && to != k
    ensures Parts(ms, own)
    ensures !OneStateBut(baseFee, WithProgs(jobs, MessagesOf(ms, k)), k, map[], Ledger(0, 0, []))
  {
    hide Run, Start, AllFinished, MessageOf, Effect, SeqAt, Proper, Witness, Paid;
    ms := Witnesses(|jobs|, x, y, k, to);
    forall z | 0 <= z < |ms| ensures Proper(ms[z], own[z]) { WitnessProper(z, x, y, k, to, own[z]); }
    var base: Store, l := map[], Ledger(0, 0, []);
    var cs, rest := BothOrders(baseFee, jobs, ms, own, k, base, l, x, y);
    var cs', rest' := BothOrders(baseFee, jobs, ms, own, k, base, l, y, x);
    var copied, paid := Effect(MessageOf(ms[x], k), base), Effect(MessageOf(ms[y], k), base);
    WitnessEffect(x, x, y, k, to, base);
    WitnessEffect(y, x, y, k, to, base);
    WitnessEffect(y, x, y, k, to, copied);
    WitnessEffect(x, x, y, k, to, paid);
    var s, s' := Effect(MessageOf(ms[y], k), copied), Effect(MessageOf(ms[x], k), paid);
    SkippedTurns(ms, x, y, k, to, rest, s);
    SkippedTurns(ms, x, y, k, to, rest', s');
    PaidShows();
    assert (s - {k})[to] == [] && (s' - {k})[to] == Paid([], 1);
  }

  lemma PaidShows()
    ensures Paid([], 1) != []
  {
    PaidOnce([], 1);
    SmallMod(1, TWO_256);
  }

  lemma ApartIsOneState(baseFee: Option<nat>, jobs: seq<Job>, own: seq<iset<Key>>, k: Key, ms: seq<Part>, base: Store,
                        l: Ledger)
    requires |own| == |jobs| && Disjoint(own) && Parts(ms, own) && forall x :: 0 <= x < |own| ==> k !in own[x]
    ensures OneStateBut(baseFee, WithProgs(jobs, MessagesOf(ms, k)), k, base, l)
  {
    hide Run, Start, AllFinished, MessageOf, SeqRun, SoloOut, Fits, Framed, AlwaysHalts;
    var js := WithProgs(jobs, MessagesOf(ms, k));
    forall x | 0 <= x < |js| ensures Fits(js[x].prog, own[x], {k}) { PartFits(ms[x], own[x], k); }
    forall cs, cs' | AllFinished(Run(baseFee, js, Start(js, base, l), cs)) &&
                     AllFinished(Run(baseFee, js, Start(js, base, l), cs'))
      ensures Run(baseFee, js, Start(js, base, l), cs).parent - {k} ==
        Run(baseFee, js, Start(js, base, l), cs').parent - {k}
    {
      WaveIsSequential(baseFee, js, own, {k}, base, l, cs);
      WaveIsSequential(baseFee, js, own, {k}, base, l, cs');
    }
  }

  /** In a wave of at least two messages, where whoever owns the coinbase balance owns another key
      too: all interleavings agree outside the coinbase balance, for all messages keeping to the
      access sets and from all states, exactly when the coinbase balance is in no access set. */
  lemma OnlyCoinbaseExactly(baseFee: Option<nat>, jobs: seq<Job>, own: seq<iset<Key>>, k: Key)
    requires |own| == |jobs| && |jobs| >= 2 && Disjoint(own)
    requires forall x :: 0 <= x < |own| && k in own[x] ==> exists to: Key :: to in own[x] && to != k
    ensures (forall x :: 0 <= x < |own| ==> k !in own[x]) <==>
      forall ms: seq<Part>, base: Store, l: Ledger ::
        Parts(ms, own) ==> OneStateBut(baseFee, WithProgs(jobs, MessagesOf(ms, k)), k, base, l)
  {
    hide OneStateBut, Proper;
    if x :| 0 <= x < |own| && k in own[x] {
      var to :| to in own[x] && to != k;
      var ms := CoinbaseInside(baseFee, jobs, own, k, to, x, if x == 0 then 1 else 0);
      assert Parts(ms, own);
    } else {
      forall ms: seq<Part>, base: Store, l: Ledger | Parts(ms, own)
        ensures OneStateBut(baseFee, WithProgs(jobs, MessagesOf(ms, k)), k, base, l)
      {
        ApartIsOneState(baseFee, jobs, own, k, ms, base, l);
      }
    }
  }
}
