/** A wave of halting programs always completes: every effective step lowers a rank, and some
    step is effective until all transactions are finished. */
module Progress {
  import opened Base
  import opened Wave

  /** Program `i` halts after at most `ns[i]` instructions when run alone on `base`. */
  ghost predicate AllHalt(jobs: seq<Job>, base: Store, ns: seq<nat>) {
    |ns| == |jobs| && forall i :: 0 <= i < |jobs| ==> HaltsAt(jobs[i].prog, base, ns[i])
  }

  /** What a transaction still has to do at most: instructions, keys to merge, lock and release. */
  ghost function Rank(job: Job, base: Store, n: nat, t: Thread): (r: nat) {
    match t.phase
    case Running => (if t.steps < n then n - t.steps else 0) + |SoloAt(job.prog, base, n).dirty.Keys| + 2
    case Merging(left) => |left| + 1
    case Finished => 0
  }

  ghost function Ranks(jobs: seq<Job>, base: Store, ns: seq<nat>, s: State): (rs: seq<nat>)
    requires |jobs| == |ns| == |s.threads|
    ensures |rs| == |jobs| && forall i :: 0 <= i < |jobs| ==> rs[i] == Rank(jobs[i], base, ns[i], s.threads[i])
  {
    seq(|jobs|, i requires 0 <= i < |jobs| => Rank(jobs[i], base, ns[i], s.threads[i]))
  }

  lemma HaltedEarlier(p: Program, base: Store, n: nat, m: nat)
    requires HaltsAt(p, base, n) && HaltsAt(p, base, m)
    ensures SoloAt(p, base, n) == SoloAt(p, base, m)
  {
    if n <= m { HaltStays(p, base, n, m); } else { HaltStays(p, base, m, n); }
  }

  lemma RunningDrops(baseFee: Option<nat>, job: Job, own: iset<Key>, shared: set<Key>, base: Store, n: nat, s: State,
                     i: nat)
    requires i < |s.threads| && ThreadOk(job, shared, base, s.threads[i]) && s.threads[i].phase.Running?
    requires Fits(job.prog, own, shared) && HaltsAt(job.prog, base, n)
    ensures var s' := TickRunning(baseFee, job, s, i);
      s' == s || Rank(job, base, n, s'.threads[i]) < Rank(job, base, n, s.threads[i])
  {
    hide SoloAt, Fits, Twin;
    var t, p := s.threads[i], job.prog;
    SameEnd(p, own, shared, t.local, SoloAt(p, base, t.steps));
    if p(t.local.obs).Halt? {
      assert HaltsAt(p, base, t.steps);
      HaltedEarlier(p, base, n, t.steps);
    } else if t.steps >= n {
      HaltStays(p, base, n, t.steps);
    }
  }

  lemma MergeDrops(s: State, i: nat, k: Key, job: Job, base: Store, n: nat)
    requires i < |s.threads|
    ensures MergeStep(s, i, k) == s ||
            Rank(job, base, n, MergeStep(s, i, k).threads[i]) < Rank(job, base, n, s.threads[i])
  {
  }

  /** Every effective step lowers the total rank, so no interleaving goes on for ever. */
  lemma StepDrops(baseFee: Option<nat>, jobs: seq<Job>, own: seq<iset<Key>>, shared: set<Key>, base: Store,
                  ns: seq<nat>, s: State, c: Choice)
    requires Independent(jobs, own, shared) && Inv(jobs, shared, base, s) && AllHalt(jobs, base, ns)
    requires Step(baseFee, jobs, s, c) != s
    ensures Total(Ranks(jobs, base, ns, Step(baseFee, jobs, s, c))) < Total(Ranks(jobs, base, ns, s))
  {
    hide Fits, Twins, MergedAll;
    var s', i := Step(baseFee, jobs, s, c), c.i;
    StepShape(baseFee, jobs, s, c);
    assert Moves(jobs, s, s', i);
    assert Rank(jobs[i], base, ns[i], s'.threads[i]) < Rank(jobs[i], base, ns[i], s.threads[i]) by {
      if c.MergeKey? {
        MergeDrops(s, i, c.k, jobs[i], base, ns[i]);
      } else if s.threads[i].phase.Running? {
        RunningDrops(baseFee, jobs[i], own[i], shared, base, ns[i], s, i);
      }
    }
    var rs, r := Ranks(jobs, base, ns, s), Rank(jobs[i], base, ns[i], s'.threads[i]);
    assert Ranks(jobs, base, ns, s') == rs[i := r];
    TotalUpdate(rs, i, r);
  }

  /** From every reachable state of a wave of halting programs the wave can be completed. */
  lemma {:induction false} CanComplete(baseFee: Option<nat>, jobs: seq<Job>, own: seq<iset<Key>>, shared: set<Key>,
                                       base: Store, ns: seq<nat>, s: State)
    returns (cs: seq<Choice>)
    requires Independent(jobs, own, shared) && Inv(jobs, shared, base, s) && AllHalt(jobs, base, ns)
    ensures AllFinished(Run(baseFee, jobs, s, cs))
    decreases Total(Ranks(jobs, base, ns, s))
  {
    hide Fits, Twins, MergedAll;
    if AllFinished(s) {
      cs := [];
    } else {
      var c := NoDeadlock(baseFee, jobs, s);
      StepDrops(baseFee, jobs, own, shared, base, ns, s, c);
      StepKeepsInv(baseFee, jobs, own, shared, base, s, c);
      var rest := CanComplete(baseFee, jobs, own, shared, base, ns, Step(baseFee, jobs, s, c));
      cs := [c] + rest;
      RunOne(baseFee, jobs, s, c);
      RunConcat(baseFee, jobs, s, [c], rest);
    }
  }
}
