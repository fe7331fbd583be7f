/** Interleavings made to order: transactions of a wave that run one after the other, or two that
    overlap. Whatever the programs, as long as they halt. */
module Turns {
  import opened Base
  import opened Scheduler
  import opened Wave
  import opened Traces

  function NewThread(): (t: Thread) { Thread(0, Local([], map[]), Running) }

  function Ticks(x: nat, n: nat): (cs: seq<Choice>) { if n == 0 then [] else Ticks(x, n - 1) + [Tick(x)] }

  ghost predicate NotYet(p: Program, parent: Store, n: nat) {
    forall m: nat :: m < n ==> !HaltsAt(p, parent, m)
  }

  /** The first point at which a run alone has halted. */
  lemma {:induction false} FirstHalt(p: Program, parent: Store, n: nat) returns (m: nat)
    requires HaltsAt(p, parent, n)
    ensures m <= n && HaltsAt(p, parent, m) && NotYet(p, parent, m)
  {
    if x: nat :| x < n && HaltsAt(p, parent, x) { m := FirstHalt(p, parent, x); } else { m := n; }
  }

  /** Thread `x` as it stands after `n` instructions alone. */
  function Along(jobs: seq<Job>, s: State, x: nat, n: nat): (r: State)
    requires x < |jobs| == |s.threads|
  {
    s.(threads := s.threads[x := Thread(n, SoloAt(jobs[x].prog, s.parent, n), Running)])
  }

  lemma AlongStep(baseFee: Option<nat>, jobs: seq<Job>, s: State, x: nat, n: nat)
    requires x < |jobs| == |s.threads| && !HaltsAt(jobs[x].prog, s.parent, n)
    ensures Step(baseFee, jobs, Along(jobs, s, x, n), Tick(x)) == Along(jobs, s, x, n + 1)
  {
    hide Advance;
    var p, l := jobs[x].prog, SoloAt(jobs[x].prog, s.parent, n);
    assert SoloAt(p, s.parent, n + 1) == Advance(p, s.parent, l);
    assert s.threads[x := Thread(n, l, Running)][x := Thread(n + 1, Advance(p, s.parent, l), Running)]
      == s.threads[x := Thread(n + 1, Advance(p, s.parent, l), Running)];
  }

  lemma AlongNone(baseFee: Option<nat>, jobs: seq<Job>, s: State, x: nat)
    requires x < |jobs| == |s.threads| && s.threads[x] == NewThread()
    ensures Run(baseFee, jobs, s, Ticks(x, 0)) == Along(jobs, s, x, 0)
  {
    assert s.threads[x := s.threads[x]] == s.threads;
  }

  lemma TicksNext(x: nat, n: nat)
    ensures Ticks(x, n + 1) == Ticks(x, n) + [Tick(x)]
  {
  }

  /** A transaction runs and nobody else moves. */
  lemma {:induction false} RunAlone(baseFee: Option<nat>, jobs: seq<Job>, s: State, x: nat, n: nat)
    requires x < |jobs| == |s.threads| && s.threads[x] == NewThread() && NotYet(jobs[x].prog, s.parent, n)
    ensures Run(baseFee, jobs, s, Ticks(x, n)) == Along(jobs, s, x, n)
  {
    hide Run, Step, Along, Ticks, SoloAt, HaltsAt;
    if n == 0 {
      AlongNone(baseFee, jobs, s, x);
    } else {
      assert !HaltsAt(jobs[x].prog, s.parent, n - 1);
      RunAlone(baseFee, jobs, s, x, n - 1);
      RunOneMore(baseFee, jobs, s, x, n - 1);
    }
  }

  lemma RunOneMore(baseFee: Option<nat>, jobs: seq<Job>, s: State, x: nat, n: nat)
    requires x < |jobs| == |s.threads| && !HaltsAt(jobs[x].prog, s.parent, n)
    requires Run(baseFee, jobs, s, Ticks(x, n)) == Along(jobs, s, x, n)
    ensures Run(baseFee, jobs, s, Ticks(x, n + 1)) == Along(jobs, s, x, n + 1)
  {
    hide Run, Step, Along, Ticks, SoloAt, HaltsAt;
    AlongStep(baseFee, jobs, s, x, n);
    TicksNext(x, n);
    RunConcat(baseFee, jobs, s, Ticks(x, n), [Tick(x)]);
    RunOne(baseFee, jobs, Run(baseFee, jobs, s, Ticks(x, n)), Tick(x));
  }

  /** The keys still to merge go to the parent. */
  lemma {:induction false} MergeKeys(baseFee: Option<nat>, jobs: seq<Job>, s: State, x: nat, left: set<Key>)
    returns (cs: seq<Choice>)
    requires x < |jobs| == |s.threads| && s.threads[x].phase == Merging(left) && left <= s.threads[x].local.dirty.Keys
    ensures var d := s.threads[x].local.dirty;
      Run(baseFee, jobs, s, cs) ==
        s.(parent := s.parent + (d - (d.Keys - left)), threads := s.threads[x := s.threads[x].(phase := Merging({}))])
    decreases left
  {
    var t := s.threads[x];
    var d := t.local.dirty;
    if left == {} {
      cs := [];
      assert d - d.Keys == map[] && s.parent + map[] == s.parent && d.Keys - {} == d.Keys;
      assert s.threads[x := t] == s.threads && t.(phase := Merging({})) == t;
    } else {
      var k :| k in left;
      var s1 := s.(parent := s.parent[k := d[k]], threads := s.threads[x := t.(phase := Merging(left - {k}))]);
      assert Step(baseFee, jobs, s, MergeKey(x, k)) == s1;
      var rest := MergeKeys(baseFee, jobs, s1, x, left - {k});
      cs := [MergeKey(x, k)] + rest;
      RunOne(baseFee, jobs, s, MergeKey(x, k));
      RunConcat(baseFee, jobs, s, [MergeKey(x, k)], rest);
      OneKeyMore(s.parent, d, left, k);
      assert s1.threads[x := s1.threads[x].(phase := Merging({}))] == s.threads[x := t.(phase := Merging({}))];
    }
  }

  lemma OneKeyMore(parent: Store, d: Store, left: set<Key>, k: Key)
    requires left <= d.Keys && k in left
    ensures parent[k := d[k]] + (d - (d.Keys - (left - {k}))) == parent + (d - (d.Keys - left))
  {
  }

  /** Nothing but thread `x` and the ledger differs; the thread is finished and the lock free. */
  ghost predicate Done(s: State, r: State, x: nat, parent: Store) {
    && x < |s.threads| == |r.threads| && r.threads == s.threads[x := r.threads[x]] && r.threads[x].phase.Finished?
    && r.lock.None? && r.parent == parent
  }

  /** An executed transaction takes the lock, merges, accounts and releases. */
  lemma MergeIn(baseFee: Option<nat>, jobs: seq<Job>, s: State, x: nat) returns (cs: seq<Choice>)
    requires x < |jobs| == |s.threads| && s.threads[x].phase.Running? && Applies(jobs[x], s.threads[x].local)
    requires s.lock.None?
    ensures Done(s, Run(baseFee, jobs, s, cs), x, s.parent + s.threads[x].local.dirty)
  {
    var t := s.threads[x];
    var d := t.local.dirty;
    var s1 := s.(lock := Some(x), threads := s.threads[x := t.(phase := Merging(d.Keys))]);
    assert Step(baseFee, jobs, s, Tick(x)) == s1;
    var merge := MergeKeys(baseFee, jobs, s1, x, d.Keys);
    assert d.Keys - d.Keys == {} && d - {} == d;
    var s2 := Run(baseFee, jobs, s1, merge);
    assert s2.threads[x] == t.(phase := Merging({}));
    RunOne(baseFee, jobs, s, Tick(x));
    RunConcat(baseFee, jobs, s, [Tick(x)], merge);
    RunOne(baseFee, jobs, s2, Tick(x));
    RunConcat(baseFee, jobs, s, [Tick(x)] + merge, [Tick(x)]);
    cs := [Tick(x)] + merge + [Tick(x)];
    assert Step(baseFee, jobs, s2, Tick(x)) == TickMerged(baseFee, jobs[x], s2, x);
    ReleaseDone(baseFee, jobs, s, s2, x);
  }

  lemma ReleaseDone(baseFee: Option<nat>, jobs: seq<Job>, s: State, s2: State, x: nat)
    requires x < |jobs| == |s.threads| == |s2.threads| && s2.threads == s.threads[x := s2.threads[x]]
    ensures Done(s, TickMerged(baseFee, jobs[x], s2, x), x, s2.parent)
  {
  }

  /** A transaction that was not executed returns. */
  lemma GiveUp(baseFee: Option<nat>, jobs: seq<Job>, s: State, x: nat)
    requires x < |jobs| == |s.threads| && s.threads[x].phase.Running? && s.lock.None?
    requires jobs[x].prog(s.threads[x].local.obs).Halt? && !Applies(jobs[x], s.threads[x].local)
    ensures Done(s, Run(baseFee, jobs, s, [Tick(x)]), x, s.parent)
  {
    RunOne(baseFee, jobs, s, Tick(x));
  }

  /** A transaction takes its turn: runs, then merges or returns. */
  lemma TakeTurn(baseFee: Option<nat>, jobs: seq<Job>, s: State, x: nat) returns (cs: seq<Choice>)
    requires x < |jobs| == |s.threads| && s.threads[x] == NewThread() && s.lock.None? && Halts(jobs[x].prog, s.parent)
    ensures Done(s, Run(baseFee, jobs, s, cs), x, Effect(jobs[x].prog, s.parent))
  {
    hide Run, Ticks, SoloAt;
    var p := jobs[x].prog;
    var h: nat :| HaltsAt(p, s.parent, h);
    var n := FirstHalt(p, s.parent, h);
    RunAlone(baseFee, jobs, s, x, n);
    SoloEndIs(p, s.parent, n);
    var s1 := Run(baseFee, jobs, s, Ticks(x, n));
    var l := SoloAt(p, s.parent, n);
    if Applies(jobs[x], l) {
      var rest := MergeIn(baseFee, jobs, s1, x);
      cs := Ticks(x, n) + rest;
      RunConcat(baseFee, jobs, s, Ticks(x, n), rest);
      DoneBefore(s, s1, Run(baseFee, jobs, s1, rest), x);
    } else {
      GiveUp(baseFee, jobs, s1, x);
      cs := Ticks(x, n) + [Tick(x)];
      RunConcat(baseFee, jobs, s, Ticks(x, n), [Tick(x)]);
      DoneBefore(s, s1, Run(baseFee, jobs, s1, [Tick(x)]), x);
    }
  }

  lemma DoneBefore(s: State, s1: State, r: State, x: nat)
    requires x < |s.threads| == |s1.threads| && s1.threads == s.threads[x := s1.threads[x]] && Done(s1, r, x, r.parent)
    ensures Done(s, r, x, r.parent)
  {
  }

  /** Threads that are to run are new, and halt on every state. */
  ghost predicate Fresh(jobs: seq<Job>, s: State, order: seq<nat>) {
    && |s.threads| == |jobs| && InRange(order, |jobs|) && Distinct(order)
    && (forall i :: 0 <= i < |order| ==> s.threads[order[i]] == NewThread() && AlwaysHalts(jobs[order[i]].prog))
  }

  ghost predicate AllDone(jobs: seq<Job>, s: State, r: State, order: seq<nat>) {
    && |s.threads| == |r.threads| == |jobs| && r.lock.None?
    && (forall x: nat :: x < |jobs| && x in order ==> r.threads[x].phase.Finished?)
    && (forall x: nat :: x < |jobs| && x !in order ==> r.threads[x] == s.threads[x])
  }

  /** Transactions that take turns in the given order do to the parent exactly what running them
      one at a time in that order does. */
  lemma {:induction false} InTurns(baseFee: Option<nat>, jobs: seq<Job>, s: State, order: seq<nat>)
    returns (cs: seq<Choice>)
    requires Fresh(jobs, s, order) && s.lock.None?
    ensures AllDone(jobs, s, Run(baseFee, jobs, s, cs), order)
    ensures Run(baseFee, jobs, s, cs).parent == SeqAt(Progs(jobs), order, s.parent)
  {
    hide Run, Effect, AlwaysHalts, Halts;
    if order == [] {
      cs := [];
      NoRun(baseFee, jobs, s);
    } else {
      var o, x := order[..|order| - 1], order[|order| - 1];
      assert Fresh(jobs, s, o);
      var init := InTurns(baseFee, jobs, s, o);
      var s1 := Run(baseFee, jobs, s, init);
      assert x !in o && s1.threads[x] == NewThread();
      HaltsOn(jobs[x].prog, s1.parent);
      var last := TakeTurn(baseFee, jobs, s1, x);
      cs := init + last;
      RunConcat(baseFee, jobs, s, init, last);
      OneMoreDone(jobs, s, s1, Run(baseFee, jobs, s1, last), o, x);
      assert order == o + [x];
    }
  }

  lemma NoRun(baseFee: Option<nat>, jobs: seq<Job>, s: State)
    requires |jobs| == |s.threads|
    ensures Run(baseFee, jobs, s, []) == s
  {
  }

  lemma HaltsOn(p: Program, s: Store)
    requires AlwaysHalts(p)
    ensures Halts(p, s)
  {
  }

  lemma OneMoreDone(jobs: seq<Job>, s: State, s1: State, r: State, o: seq<nat>, x: nat)
    requires AllDone(jobs, s, s1, o) && Done(s1, r, x, r.parent)
    ensures AllDone(jobs, s, r, o + [x])
  {
    forall y: nat | y < |jobs| ensures y in o + [x] <==> y in o || y == x {}
  }

  /** The overlay a transaction ends with when it runs alone. */
  ghost function EndDirty(p: Program, s: Store): (d: Store) {
    match SoloEnd(p, s) case Some(l) => l.dirty case None => map[]
  }

  /** Two executed transactions both run before either merges; then the first merges, then the
      second. */
  lemma Overlap(baseFee: Option<nat>, jobs: seq<Job>, s: State, i: nat, j: nat) returns (cs: seq<Choice>)
    requires i < |jobs| && j < |jobs| && Fresh(jobs, s, [i, j]) && s.lock.None?
    requires SoloOut(jobs[i].prog, s.parent).Some? && SoloOut(jobs[i].prog, s.parent).value.Applied?
    requires SoloOut(jobs[j].prog, s.parent).Some? && SoloOut(jobs[j].prog, s.parent).value.Applied?
    ensures AllDone(jobs, s, Run(baseFee, jobs, s, cs), [i, j])
    ensures Run(baseFee, jobs, s, cs).parent ==
      s.parent + EndDirty(jobs[i].prog, s.parent) + EndDirty(jobs[j].prog, s.parent)
  {
    hide Run, Ticks, SoloAt, AlwaysHalts;
    assert [i, j][0] == i && [i, j][1] == j;
    var n := HaltOf(jobs[i].prog, s.parent);
    var m := HaltOf(jobs[j].prog, s.parent);
    RunAlone(baseFee, jobs, s, i, n);
    var s1 := Run(baseFee, jobs, s, Ticks(i, n));
    RunAlone(baseFee, jobs, s1, j, m);
    RunConcat(baseFee, jobs, s, Ticks(i, n), Ticks(j, m));
    var s2 := Run(baseFee, jobs, s1, Ticks(j, m));
    var a := MergeIn(baseFee, jobs, s2, i);
    RunConcat(baseFee, jobs, s, Ticks(i, n) + Ticks(j, m), a);
    var s3 := Run(baseFee, jobs, s2, a);
    assert s3.threads[j] == s2.threads[j];
    var b := MergeIn(baseFee, jobs, s3, j);
    RunConcat(baseFee, jobs, s, Ticks(i, n) + Ticks(j, m) + a, b);
    cs := Ticks(i, n) + Ticks(j, m) + a + b;
  }

  /** Where a halting program halts first, with what it has then. */
  lemma HaltOf(p: Program, s: Store) returns (n: nat)
    requires AlwaysHalts(p)
    ensures NotYet(p, s, n) && HaltsAt(p, s, n) && SoloEnd(p, s) == Some(SoloAt(p, s, n))
    ensures EndDirty(p, s) == SoloAt(p, s, n).dirty
    ensures SoloOut(p, s) == Some(p(SoloAt(p, s, n).obs).out)
  {
    HaltsOn(p, s);
    var h: nat :| HaltsAt(p, s, h);
    n := FirstHalt(p, s, h);
    SoloEndIs(p, s, n);
  }

  /** A wave before anyone has moved. */
  lemma StartFresh(jobs: seq<Job>, base: Store, l: Ledger, order: seq<nat>)
    requires InRange(order, |jobs|) && Distinct(order) && forall x :: 0 <= x < |jobs| ==> AlwaysHalts(jobs[x].prog)
    ensures Fresh(jobs, Start(jobs, base, l), order)
  {
    hide AlwaysHalts;
  }

  lemma Finished(jobs: seq<Job>, s: State, r: State, order: seq<nat>)
    requires AllDone(jobs, s, r, order)
    requires forall x: nat :: x < |jobs| ==> x in order || s.threads[x].phase.Finished?
    ensures AllFinished(r)
  {
  }

  /** The whole wave in turn. */
  lemma WholeWaveInTurn(baseFee: Option<nat>, jobs: seq<Job>, base: Store, l: Ledger, order: seq<nat>)
    returns (cs: seq<Choice>)
    requires InRange(order, |jobs|) && Distinct(order) && forall x :: 0 <= x < |jobs| ==> AlwaysHalts(jobs[x].prog)
    requires forall x: nat :: x < |jobs| ==> x in order
    ensures AllFinished(Run(baseFee, jobs, Start(jobs, base, l), cs))
    ensures Run(baseFee, jobs, Start(jobs, base, l), cs).parent == SeqAt(Progs(jobs), order, base)
  {
    hide Run, AlwaysHalts, SeqAt;
    var s := Start(jobs, base, l);
    StartFresh(jobs, base, l, order);
    cs := InTurns(baseFee, jobs, s, order);
    Finished(jobs, s, Run(baseFee, jobs, s, cs), order);
  }

  /** Two overlap, the rest of the wave in turn. */
  lemma OverlapThenTurns(baseFee: Option<nat>, jobs: seq<Job>, base: Store, l: Ledger, i: nat, j: nat, rest: seq<nat>)
    returns (cs: seq<Choice>)
    requires i < |jobs| && j < |jobs| && forall x :: 0 <= x < |jobs| ==> AlwaysHalts(jobs[x].prog)
    requires InRange([i, j] + rest, |jobs|) && Distinct([i, j] + rest)
    requires forall x: nat :: x < |jobs| ==> x in [i, j] + rest
    requires SoloOut(jobs[i].prog, base).Some? && SoloOut(jobs[i].prog, base).value.Applied?
    requires SoloOut(jobs[j].prog, base).Some? && SoloOut(jobs[j].prog, base).value.Applied?
    ensures InRange(rest, |jobs|) && AllFinished(Run(baseFee, jobs, Start(jobs, base, l), cs))
    ensures Run(baseFee, jobs, Start(jobs, base, l), cs).parent ==
      SeqAt(Progs(jobs), rest, base + EndDirty(jobs[i].prog, base) + EndDirty(jobs[j].prog, base))
  {
    hide Run, AlwaysHalts, SeqAt, EndDirty, SoloOut;
    var s := Start(jobs, base, l);
    var all := [i, j] + rest;
    RestOf(all, i, j, rest);
    StartFresh(jobs, base, l, [i, j]);
    var a := Overlap(baseFee, jobs, s, i, j);
    var s1 := Run(baseFee, jobs, s, a);
    assert Fresh(jobs, s1, rest);
    var b := InTurns(baseFee, jobs, s1, rest);
    cs := a + b;
    RunConcat(baseFee, jobs, s, a, b);
    forall x: nat | x < |jobs| ensures x in rest || s1.threads[x].phase.Finished? {
      assert x in all;
    }
    Finished(jobs, s1, Run(baseFee, jobs, s1, b), rest);
  }

  lemma RestOf(all: seq<nat>, i: nat, j: nat, rest: seq<nat>)
    requires all == [i, j] + rest && Distinct(all)
    ensures Distinct([i, j]) && Distinct(rest) && i !in rest && j !in rest && i != j
    ensures forall n: nat :: InRange(all, n) ==> InRange(rest, n) && InRange([i, j], n)
    ensures forall x: nat :: x in all <==> x == i || x == j || x in rest
  {
    assert all[0] == i && all[1] == j && forall y :: 0 <= y < |rest| ==> all[y + 2] == rest[y];
  }

  /** The positions below `n` other than `i` and `j`. */
  ghost function Others(n: nat, i: nat, j: nat): (s: seq<nat>) {
    if n == 0 then [] else Others(n - 1, i, j) + if n - 1 == i || n - 1 == j then [] else [n - 1]
  }

  lemma {:induction false} OthersAre(n: nat, i: nat, j: nat)
    ensures InRange(Others(n, i, j), n) && Distinct(Others(n, i, j))
    ensures forall x: nat :: x in Others(n, i, j) <==> x < n && x != i && x != j
  {
    if n > 0 { OthersAre(n - 1, i, j); }
  }

  /** Two positions, then the others. */
  lemma TwoFirst(n: nat, i: nat, j: nat)
    requires i < n && j < n && i != j
    ensures InRange([i, j] + Others(n, i, j), n) && Distinct([i, j] + Others(n, i, j))
    ensures forall x: nat :: x < n ==> x in [i, j] + Others(n, i, j)
  {
    hide Others;
    var rest := Others(n, i, j);
    OthersAre(n, i, j);
    var all := [i, j] + rest;
    forall y | 0 <= y < |rest| ensures rest[y] < n && rest[y] != i && rest[y] != j { assert rest[y] in rest; }
    forall x, y | 0 <= x < y < |all| ensures all[x] != all[y] {
      if x >= 2 { assert all[x] == rest[x - 2] && all[y] == rest[y - 2]; }
    }
    forall x: nat | x < n ensures x in all {
      if x != i && x != j { assert x in rest; }
    }
  }
}
