/** Every block of halting programs can be run to the end: what is said about complete runs is
    said about runs that exist. */
module BlockProgress {
  import opened Base
  import opened Scheduler
  import opened Wave
  import opened Progress
  import opened Traces
  import opened BlockExec

  lemma HaltBound(p: Program, base: Store) returns (n: nat)
    requires AlwaysHalts(p)
    ensures HaltsAt(p, base, n)
  {
    assert Halts(p, base);
    n :| HaltsAt(p, base, n);
  }

  lemma {:induction false} HaltBounds(jobs: seq<Job>, base: Store, m: nat) returns (ns: seq<nat>)
    requires m <= |jobs| && forall i :: 0 <= i < |jobs| ==> AlwaysHalts(jobs[i].prog)
    ensures AllHalt(jobs[..m], base, ns)
  {
    hide HaltsAt, AlwaysHalts;
    ns := [];
    if m > 0 {
      ns := HaltBounds(jobs, base, m - 1);
      var n := HaltBound(jobs[m - 1].prog, base);
      ns := ns + [n];
    }
  }

  /** Earlier waves do not depend on later choices. */
  lemma {:induction false} ExecPrefix(b: Block, base: Store, css: seq<seq<Choice>>, cs: seq<Choice>, n: nat)
    requires Sized(b) && n <= |css|
    ensures Exec(b, base, css + [cs], n) == Exec(b, base, css, n)
  {
    if n > 0 { ExecPrefix(b, base, css, cs, n - 1); }
  }

  lemma WaveCanComplete(b: Block, owner: Key -> Address, shared: set<Key>, w: nat, s: BlockState)
    returns (cs: seq<Choice>)
    requires Scheduled(b) && FramedBlock(b.txs, b.ps, owner, shared)
    requires forall p :: 0 <= p < |b.ps| ==> AlwaysHalts(b.ps[p])
    ensures RunToEnd(b, w, s, cs)
  {
    hide FramedBlock, FirstFit, AlwaysHalts, Independent, Inv, Run, HaltsAt;
    var js, own := WaveJobs(b, w), WaveKeys(b, owner, shared, w);
    WaveIndependent(b, owner, shared, w);
    RunKeepsInv(b.baseFee, js, own, shared, s.store, s.ledger, []);
    RunNone(b.baseFee, js, Start(js, s.store, s.ledger));
    var ns := HaltBounds(js, s.store, |js|);
    assert js[..|js|] == js;
    cs := CanComplete(b.baseFee, js, own, shared, s.store, ns, Start(js, s.store, s.ledger));
  }

  lemma RunNone(baseFee: Option<nat>, jobs: seq<Job>, s: State)
    requires |jobs| == |s.threads|
    ensures Run(baseFee, jobs, s, []) == s
  {
  }

  /** From every starting state, a block of halting programs has a complete run of any number of
      waves. */
  lemma {:induction false} BlockCanComplete(b: Block, owner: Key -> Address, shared: set<Key>, base: Store, n: nat)
    returns (css: seq<seq<Choice>>)
    requires Scheduled(b) && FramedBlock(b.txs, b.ps, owner, shared)
    requires forall p :: 0 <= p < |b.ps| ==> AlwaysHalts(b.ps[p])
    ensures |css| == n && Complete(b, base, css, n)
  {
    hide FramedBlock, FirstFit, AlwaysHalts, RunToEnd, Exec;
    css := [];
    if n > 0 {
      var init := BlockCanComplete(b, owner, shared, base, n - 1);
      var cs := WaveCanComplete(b, owner, shared, n - 1, Exec(b, base, init, n - 1));
      css := init + [cs];
      forall w: nat | w < n ensures RunToEnd(b, w, Exec(b, base, css, w), css[w]) {
        ExecPrefix(b, base, init, cs, w);
        assert w < n - 1 ==> RunToEnd(b, w, Exec(b, base, init, w), init[w]);
      }
    }
  }
}
