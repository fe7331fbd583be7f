/** From block execution to the commit pipeline: in every interleaving, what `ApplyBlock` does to the
    in-memory state is a list of single writes, as the pipeline takes a block to be. */
module BlockWrites {
  import opened Base
  import opened Wave
  import opened BlockExec
  import opened BlockReceipts
  import Accounts
  import P = Pipeline

  /** A step of a wave writes one key to the parent, or none. */
  lemma StepWrites(baseFee: Option<nat>, jobs: seq<Job>, s: State, c: Choice) returns (ws: P.Writes)
    requires |jobs| == |s.threads|
    ensures Step(baseFee, jobs, s, c).parent == P.PutAll(s.parent, ws)
  {
    var s' := Step(baseFee, jobs, s, c);
    ws := [];
    if s'.parent != s.parent {
      ws := [(c.k, s.threads[c.i].local.dirty[c.k])];
      assert ws[..0] == [];
      assert P.PutAll(s.parent, ws[..0]) == s.parent;
    }
  }

  lemma {:induction false} WritesConcat(s: Store, a: P.Writes, b: P.Writes)
    ensures P.PutAll(s, a + b) == P.PutAll(P.PutAll(s, a), b)
  {
    if b == [] {
      assert a + b == a;
    } else {
      assert (a + b)[..|a + b| - 1] == a + b[..|b| - 1];
      WritesConcat(s, a, b[..|b| - 1]);
    }
  }

  lemma {:induction false} RunWrites(baseFee: Option<nat>, jobs: seq<Job>, s: State, cs: seq<Choice>)
    returns (ws: P.Writes)
    requires |jobs| == |s.threads|
    ensures Run(baseFee, jobs, s, cs).parent == P.PutAll(s.parent, ws)
  {
    hide Step;
    ws := [];
    if cs != [] {
      var init := RunWrites(baseFee, jobs, s, cs[..|cs| - 1]);
      var last := StepWrites(baseFee, jobs, Run(baseFee, jobs, s, cs[..|cs| - 1]), cs[|cs| - 1]);
      ws := init + last;
      WritesConcat(s.parent, init, last);
    }
  }

  lemma {:induction false} WaveWrites(b: Block, base: Store, css: seq<seq<Choice>>, n: nat) returns (ws: P.Writes)
    requires Sized(b) && n <= |css|
    ensures Exec(b, base, css, n).store == P.PutAll(base, ws)
  {
    hide Run;
    ws := [];
    if n > 0 {
      ws := WaveWrites(b, base, css, n - 1);
      var s := Exec(b, base, css, n - 1);
      if s.ledger.gas <= BLOCK_GAS {
        var js := WaveJobs(b, n - 1);
        var more := RunWrites(b.baseFee, js, Start(js, s.store, s.ledger), css[n - 1]);
        WritesConcat(base, ws, more);
        ws := ws + more;
      }
    }
  }

  /** Whatever the programs and the interleavings, the state after a block and its reward is the
      starting state with a list of writes put into it one by one. */
  lemma ApplyBlockWrites(b: Block, base: Store, css: seq<seq<Choice>>, coinbase: Address) returns (ws: P.Writes)
    requires Sized(b)
    ensures WithReward(Exec(b, base, css, |css|), coinbase) == P.PutAll(base, ws)
  {
    hide Exec;
    var s := Exec(b, base, css, |css|);
    var init := WaveWrites(b, base, css, |css|);
    var k := Accounts.FieldKey(coinbase, Accounts.BalanceOf);
    P.PutAllSnoc(base, init, k, WithReward(s, coinbase)[k]);
    ws := init + [(k, WithReward(s, coinbase)[k])];
  }
}
