/** Exactly when a wave is deterministic: two transactions that credit one key can lose a credit, so
    the access sets must be disjoint. */
module Races {
  import opened Base
  import opened Scheduler
  import opened Wave
  import opened Traces
  import opened Messages
  import opened Turns

  // ---------- Credits ----------

  /** A positive credit shows, also under another one. */
  lemma CreditShows(v: Value, fee: nat, fee': nat)
    requires 0 < fee < TWO_256
    ensures Paid(Paid(v, fee), fee') != Paid(v, fee')
  {
    hide Paid, FromBytes;
    PaidTwice(v, fee, fee');
    PaidOnce(v, fee');
    Shifted(FromBytes(v) % TWO_256 + fee', fee);
  }

  lemma PaidOnce(v: Value, fee: nat)
    ensures FromBytes(Paid(v, fee)) == (FromBytes(v) % TWO_256 + fee) % TWO_256
  {
  }

  lemma PaidTwice(v: Value, fee: nat, fee': nat)
    ensures FromBytes(Paid(Paid(v, fee), fee')) == (FromBytes(v) % TWO_256 + fee' + fee) % TWO_256
  {
    hide Paid, FromBytes;
    var a := FromBytes(v) % TWO_256;
    PaidOnce(v, fee);
    PaidOnce(Paid(v, fee), fee');
    SmallMod((a + fee) % TWO_256, TWO_256);
    ModAdd(a + fee, fee', TWO_256);
    assert a + fee + fee' == a + fee' + fee;
  }

  lemma Shifted(x: nat, y: nat)
    requires 0 < y < TWO_256
    ensures (x + y) % TWO_256 != x % TWO_256
  {
    var r := x % TWO_256;
    ModAdd(x, y, TWO_256);
    if r + y < TWO_256 { SmallMod(r + y, TWO_256); } else { DivModUnique(r + y, TWO_256, 1, r + y - TWO_256); }
  }

  // ---------- Two credits to one key ----------

  /** Positions `i` and `j` of a wave credit the same key; the others do nothing. */
  ghost predicate Crediting(jobs: seq<Job>, i: nat, j: nat, k: Key, fee: nat, fee': nat) {
    && i < |jobs| && j < |jobs| && i != j
    && (exists gas: nat :: jobs[i].prog == Credit(k, fee, gas))
    && (exists gas: nat :: jobs[j].prog == Credit(k, fee', gas))
    && (forall x :: 0 <= x < |jobs| && x != i && x != j ==> jobs[x].prog == Idle())
  }

  /** A credit always halts, executed, with the new balance in its overlay. */
  lemma CreditAlone(k: Key, fee: nat, gas: nat, s: Store)
    ensures Halts(Credit(k, fee, gas), s) && SoloOut(Credit(k, fee, gas), s) == Some(Applied(gas, false))
    ensures EndDirty(Credit(k, fee, gas), s) == map[k := Paid(Fetch(s, k), fee)]
    ensures Effect(Credit(k, fee, gas), s) == s[k := Paid(Fetch(s, k), fee)]
  {
    hide Paid;
    var p, v := Credit(k, fee, gas), Fetch(s, k);
    assert SoloAt(p, s, 0) == Local([], map[]);
    assert SoloAt(p, s, 1) == Local([v], map[]) by { assert [] + [v] == [v]; }
    assert SoloAt(p, s, 2) == Local([v, Paid(v, fee)], map[k := Paid(v, fee)]) by {
      assert [v] + [Paid(v, fee)] == [v, Paid(v, fee)];
    }
    assert HaltsAt(p, s, 2);
    SoloEndIs(p, s, 2);
    assert s + map[k := Paid(v, fee)] == s[k := Paid(v, fee)];
  }

  lemma IdleHalts(s: Store)
    ensures Halts(Idle(), s)
  {
    assert HaltsAt(Idle(), s, 0);
  }

  lemma CreditingHalts(jobs: seq<Job>, i: nat, j: nat, k: Key, fee: nat, fee': nat, x: nat)
    requires Crediting(jobs, i, j, k, fee, fee') && x < |jobs|
    ensures AlwaysHalts(jobs[x].prog)
  {
    hide Halts, Credit;
    var gas: nat :| jobs[i].prog == Credit(k, fee, gas);
    var gas': nat :| jobs[j].prog == Credit(k, fee', gas');
    forall s: Store ensures Halts(jobs[x].prog, s) {
      CreditAlone(k, fee, gas, s);
      CreditAlone(k, fee', gas', s);
      IdleHalts(s);
    }
  }

  /** Transactions that do nothing leave the state alone. */
  lemma {:induction false} IdleTurns(ps: seq<Program>, order: seq<nat>, s: Store)
    requires InRange(order, |ps|) && forall x :: 0 <= x < |order| ==> ps[order[x]] == Idle()
    ensures SeqAt(ps, order, s) == s
  {
    if order != [] {
      IdleTurns(ps, order[..|order| - 1], s);
      IdleEffect(s);
    }
  }

  lemma TwoThen(ps: seq<Program>, i: nat, j: nat, rest: seq<nat>, s: Store)
    requires i < |ps| && j < |ps| && InRange(rest, |ps|)
    ensures InRange([i, j] + rest, |ps|)
    ensures SeqAt(ps, [i, j] + rest, s) == SeqAt(ps, rest, Effect(ps[j], Effect(ps[i], s)))
  {
    hide Effect;
    SeqAtSnoc(ps, [], i, s);
    SeqAtSnoc(ps, [i], j, s);
    assert [] + [i] == [i] && [i] + [j] == [i, j];
    SeqAtConcat(ps, [i, j], rest, s);
  }

  /** In every wave two of whose transactions credit one key, from every starting state, one
      complete interleaving keeps both credits and another loses one. */
  lemma SharedKeyRace(baseFee: Option<nat>, jobs: seq<Job>, i: nat, j: nat, k: Key, fee: nat, fee': nat, base: Store,
                      l: Ledger)
    returns (cs: seq<Choice>, cs': seq<Choice>)
    requires Crediting(jobs, i, j, k, fee, fee')
    ensures var r, r' := Run(baseFee, jobs, Start(jobs, base, l), cs), Run(baseFee, jobs, Start(jobs, base, l), cs');
      && AllFinished(r) && r.parent == base[k := Paid(Paid(Fetch(base, k), fee), fee')]
      && AllFinished(r') && r'.parent == base[k := Paid(Fetch(base, k), fee')]
  {
    hide Paid, Run, Credit, Start, AlwaysHalts, Others, SeqAt, EndDirty, Effect, SoloOut, AllFinished;
    var gas: nat :| jobs[i].prog == Credit(k, fee, gas);
    var gas': nat :| jobs[j].prog == Credit(k, fee', gas');
    var ps, rest, v := Progs(jobs), Others(|jobs|, i, j), Fetch(base, k);
    forall x | 0 <= x < |jobs| ensures AlwaysHalts(jobs[x].prog) { CreditingHalts(jobs, i, j, k, fee, fee', x); }
    TwoFirst(|jobs|, i, j);
    OthersAre(|jobs|, i, j);
    CreditAlone(k, fee, gas, base);
    CreditAlone(k, fee', gas', base);
    CreditAlone(k, fee', gas', base[k := Paid(v, fee)]);
    forall x | 0 <= x < |rest| ensures ps[rest[x]] == Idle() { assert rest[x] in rest; }
    TwoThen(ps, i, j, rest, base);
    IdleTurns(ps, rest, base[k := Paid(v, fee)][k := Paid(Paid(v, fee), fee')]);
    cs := WholeWaveInTurn(baseFee, jobs, base, l, [i, j] + rest);
    cs' := OverlapThenTurns(baseFee, jobs, base, l, i, j, rest);
    assert base + map[k := Paid(v, fee)] + map[k := Paid(v, fee')] == base[k := Paid(v, fee')];
    IdleTurns(ps, rest, base[k := Paid(v, fee')]);
    assert base[k := Paid(v, fee)][k := Paid(Paid(v, fee), fee')] == base[k := Paid(Paid(v, fee), fee')];
  }

  // ---------- The exact condition ----------

  /** The wave with other programs. */
  function WithProgs(jobs: seq<Job>, ps: seq<Program>): (r: seq<Job>)
    requires |ps| == |jobs|
    ensures |r| == |jobs| && forall i :: 0 <= i < |jobs| ==> r[i] == jobs[i].(prog := ps[i])
  {
    seq(|jobs|, i requires 0 <= i < |jobs| => jobs[i].(prog := ps[i]))
  }

  /** Every program keeps to its access set. */
  ghost predicate KeepTo(ps: seq<Program>, access: seq<iset<Key>>) {
    |ps| == |access| && forall i :: 0 <= i < |ps| ==> Framed(ps[i], access[i], {})
  }

  ghost predicate Disjoint(access: seq<iset<Key>>) {
    forall i, j :: 0 <= i < j < |access| ==> access[i] !! access[j]
  }

  /** All complete interleavings end in one state. */
  ghost predicate OneState(baseFee: Option<nat>, jobs: seq<Job>, base: Store, l: Ledger) {
    forall cs, cs' ::
      AllFinished(Run(baseFee, jobs, Start(jobs, base, l), cs)) &&
      AllFinished(Run(baseFee, jobs, Start(jobs, base, l), cs')) ==>
      Run(baseFee, jobs, Start(jobs, base, l), cs).parent == Run(baseFee, jobs, Start(jobs, base, l), cs').parent
  }

  /** A wave ends in one state, for all programs keeping to given access sets and from all
      starting states, exactly when the access sets are pairwise disjoint. */
  lemma DeterministicExactly(baseFee: Option<nat>, jobs: seq<Job>, access: seq<iset<Key>>)
    requires |access| == |jobs|
    ensures Disjoint(access) <==>
      forall ps: seq<Program>, base: Store, l: Ledger ::
        KeepTo(ps, access) ==> OneState(baseFee, WithProgs(jobs, ps), base, l)
  {
    hide OneState;
    if Disjoint(access) {
      forall ps: seq<Program>, base: Store, l: Ledger | KeepTo(ps, access)
        ensures OneState(baseFee, WithProgs(jobs, ps), base, l)
      {
        DisjointIsOneState(baseFee, jobs, access, ps, base, l);
      }
    } else {
      var i, j :| 0 <= i < j < |access| && !(access[i] !! access[j]);
      var ps := OverlapShows(baseFee, jobs, access, i, j);
    }
  }

  lemma DisjointIsOneState(baseFee: Option<nat>, jobs: seq<Job>, access: seq<iset<Key>>, ps: seq<Program>, base: Store,
                           l: Ledger)
    requires |access| == |jobs| && Disjoint(access) && KeepTo(ps, access)
    ensures OneState(baseFee, WithProgs(jobs, ps), base, l)
  {
    hide Run, Framed, Fits, SeqRun, SoloOut;
    var js := WithProgs(jobs, ps);
    forall i | 0 <= i < |js| ensures Fits(js[i].prog, access[i], {}) { FitsAlone(ps[i], access[i]); }
    forall cs, cs' | AllFinished(Run(baseFee, js, Start(js, base, l), cs)) &&
                     AllFinished(Run(baseFee, js, Start(js, base, l), cs'))
      ensures Run(baseFee, js, Start(js, base, l), cs).parent == Run(baseFee, js, Start(js, base, l), cs').parent
    {
      WaveIsSequential(baseFee, js, access, {}, base, l, cs);
      WaveIsSequential(baseFee, js, access, {}, base, l, cs');
      NothingShared(Run(baseFee, js, Start(js, base, l), cs).parent);
      NothingShared(Run(baseFee, js, Start(js, base, l), cs').parent);
    }
  }

  function Creditor(x: nat, i: nat, j: nat, k: Key): (p: Program) {
    if x == i || x == j then Credit(k, 1, 0) else Idle()
  }

  function Creditors(n: nat, i: nat, j: nat, k: Key): (ps: seq<Program>)
    ensures |ps| == n && forall x :: 0 <= x < n ==> ps[x] == Creditor(x, i, j, k)
  {
    seq(n, x requires 0 <= x < n => Creditor(x, i, j, k))
  }

  lemma OverlapShows(baseFee: Option<nat>, jobs: seq<Job>, access: seq<iset<Key>>, i: nat, j: nat)
    returns (ps: seq<Program>)
    requires |access| == |jobs| && i < j < |access| && !(access[i] !! access[j])
    ensures KeepTo(ps, access)
    ensures !OneState(baseFee, WithProgs(jobs, ps), map[], Ledger(0, 0, []))
  {
    var base: Store, l := map[], Ledger(0, 0, []);
    var k :| k in access[i] && k in access[j];
    ps := Creditors(|jobs|, i, j, k);
    forall x | 0 <= x < |ps| ensures Framed(ps[x], access[x], {}) {
      forall obs ensures Within(ps[x](obs), access[x], {}) {}
    }
    RaceShows(baseFee, WithProgs(jobs, ps), i, j, k, base, l);
  }

  lemma RaceShows(baseFee: Option<nat>, jobs: seq<Job>, i: nat, j: nat, k: Key, base: Store, l: Ledger)
    requires i < |jobs| && j < |jobs| && i != j
    requires forall x :: 0 <= x < |jobs| ==> jobs[x].prog == Creditor(x, i, j, k)
    ensures !OneState(baseFee, jobs, base, l)
  {
    hide Run, Credit, Paid, Start;
    assert jobs[i].prog == Credit(k, 1, 0) && jobs[j].prog == Credit(k, 1, 0);
    assert Crediting(jobs, i, j, k, 1, 1);
    var cs, cs' := SharedKeyRace(baseFee, jobs, i, j, k, 1, 1, base, l);
    var v := Fetch(base, k);
    CreditShows(v, 1, 1);
    assert base[k := Paid(Paid(v, 1), 1)][k] != base[k := Paid(v, 1)][k];
  }
}
