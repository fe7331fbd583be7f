/** The commit pipeline and the chain: the indices in every interleaving, exactly which blocks the
    chain refuses, when the stored state is that of the accepted blocks, what importing a block
    twice does, and when a mined block extends the head. */
module PipelineChain {
  import opened Base
  import opened Database
  import opened Pipeline
  import Accounts
  import C = Chain
  import B = Blockchain

  // ---------- The indices ----------

  /** Header hashes tell fields and states apart, and none is zero. */
  ghost predicate GoodStamp(stamp: Stamp) {
    && (forall h: Header, s: Store :: stamp(h, s) != C.ZERO_HASH)
    && (forall h: Header, s: Store, h': Header, s': Store :: stamp(h, s) == stamp(h', s') ==> h == h' && s == s')
  }

  /** A uint64 number other than the one whose canonical key is the head key. */
  predicate OkNumber(n: nat) { n < TWO_64 && n != HEAD_NUMBER }

  function BlocksOf(stamp: Stamp, ks: seq<Kept>): (bs: seq<Block>)
    ensures |bs| == |ks| && forall i :: 0 <= i < |ks| ==> bs[i] == Stamped(stamp, ks[i])
  {
    seq(|ks|, i requires 0 <= i < |ks| => Stamped(stamp, ks[i]))
  }

  /** The block an action takes in hand has an ordinary number. */
  ghost predicate OkStep(n: Node, i: nat, a: Action) {
    match (Where(n, i), a)
    case (Waiting(parent), Mine(_, _)) => OkNumber(parent.number + 1)
    case (Idle, Import(header, _)) => OkNumber(header.number)
    case _ => true
  }

  ghost predicate Legal(n: Node, cs: seq<(nat, Action)>) {
    forall k :: 0 <= k < |cs| ==> OkStep(Run(n, cs[..k]), cs[k].0, cs[k].1)
  }

  ghost predicate HandsOk(n: Node) {
    forall i: nat :: Where(n, i).Busy? ==> OkNumber(Where(n, i).job.header.number)
  }

  /** The chain indices are those of the accepted blocks. */
  ghost predicate ChainInv(n: Node) {
    GoodStamp(n.stamp) && C.Indexed(ChainOf(n), BlocksOf(n.stamp, n.kept)) && HandsOk(n)
  }

  /** What an actor has in hand, before and after a step. */
  lemma HandStep(n: Node, i: nat, a: Action)
    ensures var p, p' := Where(n, i), Where(Step(n, i, a), i);
      || !p'.Busy?
      || (p.Busy? && p'.job == p.job)
      || (p.Waiting? && a.Mine? && p'.job == Mined(p.parent, a.fields, a.txs))
      || (p.Idle? && a.Import? && p'.job == Work(a.header, a.txs, None))
  {
    hide C.Add, Batch, Known;
  }

  lemma HandsKept(n: Node, i: nat, a: Action)
    requires HandsOk(n) && OkStep(n, i, a)
    ensures HandsOk(Step(n, i, a))
  {
    hide Step, OkNumber;
    var n' := Step(n, i, a);
    HandStep(n, i, a);
    forall j: nat | Where(n', j).Busy? ensures OkNumber(Where(n', j).job.header.number) {
      assert Where(n, j).Busy? ==> OkNumber(Where(n, j).job.header.number);
      if j != i { OthersStay(n, i, a, j); }
    }
  }

  lemma StampedOrdinary(stamp: Stamp, k: Kept)
    requires GoodStamp(stamp) && OkNumber(k.header.number)
    ensures C.Ordinary(Stamped(stamp, k))
  {
  }

  lemma BlocksSnoc(stamp: Stamp, ks: seq<Kept>, k: Kept)
    ensures BlocksOf(stamp, ks + [k]) == BlocksOf(stamp, ks) + [Stamped(stamp, k)]
  {
  }

  /** Steps other than writing and adding leave the chain alone. */
  lemma ChainUntouched(n: Node, i: nat, a: Action)
    requires !(Loud(Where(n, i), a) && (a.WriteBatch? || a.AddBlock?))
    ensures var n' := Step(n, i, a);
      n'.stamp == n.stamp && n'.disk == n.disk && n'.head == n.head && n'.log == n.log && n'.kept == n.kept
  {
    hide C.Add, Known;
    if !Loud(Where(n, i), a) { QuietStep(n, i, a); }
  }

  lemma ExtendedIndexed(n: Node, job: Work, receipts: Option<Bytes>)
    requires ChainInv(n) && OkNumber(job.header.number)
    ensures var r := Extended(n, job, receipts);
      C.Indexed(ChainOf(r), BlocksOf(r.stamp, r.kept))
  {
    hide C.Indexed, C.Add, BlocksOf, GoodStamp, C.Ordinary, HandsOk;
    var acc, k := BlocksOf(n.stamp, n.kept), Ready(n, job);
    B.IndexedReads(ChainOf(n), acc, Stamped(n.stamp, k).hash);
    if Known(n, job) {
      KnownIsRefused(ChainOf(n), Stamped(n.stamp, k), receipts);
    } else {
      StampedOrdinary(n.stamp, k);
      C.AddKeepsIndexed(ChainOf(n), acc, Stamped(n.stamp, k), receipts);
      BlocksSnoc(n.stamp, n.kept, k);
    }
  }

  lemma KnownIsRefused(c: C.Chain, b: Block, receipts: Option<Bytes>)
    requires C.ReadBlock(c.disk, b.hash).Some?
    ensures C.Add(c, b, receipts) == c
  {
  }

  lemma WriteKeepsChain(init: Store, n: Node, i: nat)
    requires Inv(init, n) && ChainInv(n) && Loud(Where(n, i), WriteBatch)
    ensures ChainInv(Step(n, i, WriteBatch))
  {
    hide C.Indexed, Batch, Leaves, HandsOk, PutAll, BlocksOf, Whole, GoodStamp, Exclusive;
    HandsKept(n, i, WriteBatch);
    HolderIs(n, i);
    B.CommitKeepsIndexed(ChainOf(n), BlocksOf(n.stamp, n.kept), PutAll(map[], Where(n, i).stage.done), n.code);
  }

  lemma AddKeepsChain(n: Node, i: nat, receipts: Option<Bytes>)
    requires ChainInv(n) && Loud(Where(n, i), AddBlock(receipts))
    ensures ChainInv(Step(n, i, AddBlock(receipts)))
  {
    hide C.Indexed, C.Add, BlocksOf, GoodStamp, Known, OkNumber;
    HandsKept(n, i, AddBlock(receipts));
    ExtendedIndexed(n, Where(n, i).job, receipts);
  }

  lemma ChainStep(init: Store, n: Node, i: nat, a: Action)
    requires Inv(init, n) && ChainInv(n) && OkStep(n, i, a)
    ensures ChainInv(Step(n, i, a))
  {
    hide Step, Inv, OkStep, C.Indexed, BlocksOf, GoodStamp, HandsOk;
    HandsKept(n, i, a);
    if Loud(Where(n, i), a) && a.WriteBatch? {
      WriteKeepsChain(init, n, i);
    } else if Loud(Where(n, i), a) && a.AddBlock? {
      AddKeepsChain(n, i, a.receipts);
    } else {
      ChainUntouched(n, i, a);
    }
  }

  /** A started node whose indices are in order. */
  ghost predicate InOrder(n: Node) {
    Started(n) && GoodStamp(n.stamp) && C.Indexed(ChainOf(n), BlocksOf(n.stamp, n.kept))
  }

  /** In every interleaving of rounds and imports, at every step, the chain indices are those of the
      accepted blocks. */
  lemma {:induction false} ChainInEveryInterleaving(n: Node, cs: seq<(nat, Action)>)
    requires InOrder(n) && Legal(n, cs)
    ensures var r := Run(n, cs);
      ChainInv(r) && C.Indexed(ChainOf(r), BlocksOf(n.stamp, r.kept))
  {
    hide Step, OkStep, Inv, ChainInv, InOrder;
    if cs == [] {
      ChainStarted(n);
    } else {
      var init := cs[..|cs| - 1];
      assert forall k :: 0 <= k < |init| ==> init[..k] == cs[..k];
      ChainInEveryInterleaving(n, init);
      Interleaved(n, init);
      assert OkStep(Run(n, cs[..|cs| - 1]), cs[|cs| - 1].0, cs[|cs| - 1].1);
      ChainStep(n.tree, Run(n, init), cs[|cs| - 1].0, cs[|cs| - 1].1);
    }
    Interleaved(n, cs);
    ChainMeans(Run(n, cs));
  }

  lemma Interleaved(n: Node, cs: seq<(nat, Action)>)
    requires InOrder(n)
    ensures Inv(n.tree, Run(n, cs)) && Run(n, cs).stamp == n.stamp
    ensures Leaves(Run(n, cs).disk) == Whole(n.tree, Run(n, cs).log)
  {
    hide Run, Inv, C.Indexed, Leaves, Whole;
    EveryInterleaving(n, cs);
  }

  lemma ChainMeans(n: Node)
    requires ChainInv(n)
    ensures C.Indexed(ChainOf(n), BlocksOf(n.stamp, n.kept)) && GoodStamp(n.stamp)
  {
    hide C.Indexed;
  }

  lemma ChainStarted(n: Node)
    requires InOrder(n)
    ensures ChainInv(n)
  {
    hide C.Indexed, GoodStamp;
  }

  // ---------- Which blocks are refused ----------

  /** An accepted block with the same header fields left the same state. */
  ghost predicate Repeats(ks: seq<Kept>, k: Kept) {
    exists x :: x in ks && x.header == k.header && x.state == k.state
  }

  lemma {:induction false} HashIn(acc: seq<Block>, h: Bytes)
    ensures C.ByHash(acc, h).Some? <==> exists b :: b in acc && b.hash == h
  {
    if acc != [] {
      HashIn(acc[..|acc| - 1], h);
      assert acc[|acc| - 1] in acc;
    }
  }

  lemma KnownExactly(n: Node, job: Work)
    requires ChainInv(n)
    ensures Known(n, job) <==> Repeats(n.kept, Ready(n, job))
  {
    hide C.Indexed, HandsOk, C.ReadBlock;
    var acc, k := BlocksOf(n.stamp, n.kept), Ready(n, job);
    var h := Stamped(n.stamp, k).hash;
    B.IndexedReads(ChainOf(n), acc, h);
    HashIn(acc, h);
    if b :| b in acc && b.hash == h {
      var i :| 0 <= i < |acc| && acc[i] == b;
      assert n.kept[i] in n.kept && n.stamp(n.kept[i].header, n.kept[i].state) == n.stamp(k.header, k.state);
    }
    if x :| x in n.kept && x.header == k.header && x.state == k.state {
      var i :| 0 <= i < |n.kept| && n.kept[i] == x;
      assert acc[i] in acc && acc[i].hash == h;
    }
  }

  /** In every interleaving, the chain refuses the block in hand exactly when it has accepted a
      block with the same header fields that left the same state. */
  lemma RefusedExactly(n: Node, cs: seq<(nat, Action)>, i: nat, receipts: Option<Bytes>)
    requires InOrder(n) && Legal(n, cs)
    requires Where(Run(n, cs), i).Busy? && Where(Run(n, cs), i).stage == Written
    ensures var r := Run(n, cs);
      Step(r, i, AddBlock(receipts)).kept == r.kept <==> Repeats(r.kept, Ready(r, Where(r, i).job))
  {
    hide Run, InOrder, Legal, ChainInv, C.Add, Known, Repeats;
    ChainInEveryInterleaving(n, cs);
    KnownExactly(Run(n, cs), Where(Run(n, cs), i).job);
  }

  // ---------- The state of the accepted blocks ----------

  /** The accepted blocks when the written ones are added in turn. */
  ghost function KeptAfter(init: Store, kept: seq<Kept>, log: seq<Done>): (ks: seq<Kept>) {
    if log == [] then kept else
      var ks := KeptAfter(init, kept, log[..|log| - 1]);
      if Repeats(ks, Outcome(init, log)) then ks else ks + [Outcome(init, log)]
  }

  /** The last written block with the state it left. */
  ghost function Outcome(init: Store, log: seq<Done>): (k: Kept)
    requires log != []
  {
    Kept(log[|log| - 1].header, log[|log| - 1].txs, Whole(init, log))
  }

  /** The writes of the accepted blocks among the written ones. */
  ghost function Picked(init: Store, kept: seq<Kept>, log: seq<Done>): (ws: seq<Writes>) {
    if log == [] then [] else
      var ws := Picked(init, kept, log[..|log| - 1]);
      if Refused(init, kept, log) then ws else ws + [log[|log| - 1].ws]
  }

  /** The last written block is refused. */
  ghost predicate Refused(init: Store, kept: seq<Kept>, log: seq<Done>)
    requires log != []
  {
    Repeats(KeptAfter(init, kept, log[..|log| - 1]), Outcome(init, log))
  }

  /** The written blocks that have also been handed to `AddBlock`. */
  function Handed(n: Node): (log: seq<Done>) {
    var p := HolderPhase(n);
    if p.Busy? && p.stage.Written? && n.log != [] then n.log[..|n.log| - 1] else n.log
  }

  ghost predicate HistOk(init: Store, kept: seq<Kept>, n: Node) {
    && n.kept == KeptAfter(init, kept, Handed(n))
    && (HolderPhase(n).Busy? && HolderPhase(n).stage.Written? ==>
          n.log != [] && n.log[|n.log| - 1].header == HolderPhase(n).job.header
          && n.log[|n.log| - 1].txs == HolderPhase(n).job.txs)
  }

  /** Whether the holder has a block written and not yet added changes only by those two steps. */
  lemma WrittenStays(n: Node, i: nat, a: Action)
    requires Exclusive(n) && !(Loud(Where(n, i), a) && (a.WriteBatch? || a.AddBlock?))
    ensures var p, p' := HolderPhase(n), HolderPhase(Step(n, i, a));
      || (!(p.Busy? && p.stage.Written?) && !(p'.Busy? && p'.stage.Written?))
      || p' == p
  {
    hide C.Add, Batch, Known;
    HolderIs(n, i);
  }

  lemma HistWrite(init: Store, kept: seq<Kept>, n: Node, i: nat)
    requires Inv(init, n) && HistOk(init, kept, n) && Loud(Where(n, i), WriteBatch)
    ensures HistOk(init, kept, Step(n, i, WriteBatch))
  {
    hide Batch, Leaves, PutAll, Whole, KeptAfter, Exclusive;
    HolderIs(n, i);
    var job, done := Where(n, i).job, Where(n, i).stage.done;
    assert (n.log + [Done(job.header, job.txs, done)])[..|n.log|] == n.log;
  }

  lemma HistAdd(init: Store, kept: seq<Kept>, n: Node, i: nat, receipts: Option<Bytes>)
    requires Inv(init, n) && ChainInv(n) && HistOk(init, kept, n) && Loud(Where(n, i), AddBlock(receipts))
    ensures HistOk(init, kept, Step(n, i, AddBlock(receipts)))
  {
    hide Batch, Leaves, PutAll, Whole, Exclusive, C.Add, Known, ChainInv, Repeats;
    HolderIs(n, i);
    KnownExactly(n, Where(n, i).job);
    assert Ready(n, Where(n, i).job) == Outcome(init, n.log);
  }

  lemma HistStep(init: Store, kept: seq<Kept>, n: Node, i: nat, a: Action)
    requires Inv(init, n) && ChainInv(n) && HistOk(init, kept, n)
    ensures HistOk(init, kept, Step(n, i, a))
  {
    hide Step, Inv, ChainInv, KeptAfter;
    if Loud(Where(n, i), a) && a.WriteBatch? {
      HistWrite(init, kept, n, i);
    } else if Loud(Where(n, i), a) && a.AddBlock? {
      HistAdd(init, kept, n, i, a.receipts);
    } else {
      InvMeans(init, n);
      ChainUntouched(n, i, a);
      WrittenStays(n, i, a);
    }
  }

  lemma {:induction false} HistoryInEveryInterleaving(n: Node, cs: seq<(nat, Action)>)
    requires InOrder(n) && Legal(n, cs)
    ensures HistOk(n.tree, n.kept, Run(n, cs))
  {
    hide Step, OkStep, Inv, ChainInv, InOrder, HistOk;
    if cs == [] {
      HistStarted(n);
    } else {
      var init := cs[..|cs| - 1];
      assert forall k :: 0 <= k < |init| ==> init[..k] == cs[..k];
      HistoryInEveryInterleaving(n, init);
      ChainInEveryInterleaving(n, init);
      Interleaved(n, init);
      HistStep(n.tree, n.kept, Run(n, init), cs[|cs| - 1].0, cs[|cs| - 1].1);
    }
  }

  lemma HistStarted(n: Node)
    requires InOrder(n)
    ensures HistOk(n.tree, n.kept, n)
  {
    hide C.Indexed, GoodStamp;
  }

  /** After the first `m` written blocks, the state is that of the accepted ones among them. */
  ghost predicate FoldsAlike(init: Store, kept: seq<Kept>, log: seq<Done>, m: nat)
    requires m <= |log|
  {
    Whole(init, log[..m]) == AfterBlocks(init, Picked(init, kept, log[..m]))
  }

  /** If block `m` is refused, it has left the state it found. */
  ghost predicate Harmless(init: Store, kept: seq<Kept>, log: seq<Done>, m: nat)
    requires m < |log|
  {
    Refused(init, kept, log[..m + 1]) ==> Whole(init, log[..m + 1]) == Whole(init, log[..m])
  }

  lemma PickedNext(init: Store, kept: seq<Kept>, log: seq<Done>, m: nat)
    requires m < |log|
    ensures Picked(init, kept, log[..m + 1]) ==
      if Refused(init, kept, log[..m + 1]) then Picked(init, kept, log[..m])
      else Picked(init, kept, log[..m]) + [log[m].ws]
    ensures Whole(init, log[..m + 1]) == PutAll(Whole(init, log[..m]), log[m].ws)
  {
    hide Refused, Whole;
    assert log[..m + 1][..m] == log[..m] && log[..m + 1] == log[..m] + [log[m]];
    WholeSnoc(init, log[..m], log[m]);
  }

  lemma FoldNext(init: Store, ws: seq<Writes>, w: Writes)
    ensures AfterBlocks(init, ws + [w]) == PutAll(AfterBlocks(init, ws), w)
  {
    assert (ws + [w])[..|ws|] == ws;
  }

  lemma {:induction false} HarmlessFolds(init: Store, kept: seq<Kept>, log: seq<Done>, m: nat)
    requires m <= |log| && forall x :: 0 <= x < m ==> Harmless(init, kept, log, x)
    ensures FoldsAlike(init, kept, log, m)
  {
    hide Refused, Whole, Picked, PutAll;
    if m == 0 {
      assert log[..0] == [];
      NothingWritten(init, kept);
    } else {
      HarmlessFolds(init, kept, log, m - 1);
      PickedNext(init, kept, log, m - 1);
      assert Harmless(init, kept, log, m - 1);
      FoldNext(init, Picked(init, kept, log[..m - 1]), log[m - 1].ws);
    }
  }

  lemma NothingWritten(init: Store, kept: seq<Kept>)
    ensures Whole(init, []) == init == AfterBlocks(init, Picked(init, kept, []))
  {
  }

  lemma FoldsHarmless(init: Store, kept: seq<Kept>, log: seq<Done>, m: nat)
    requires m < |log| && FoldsAlike(init, kept, log, m) && FoldsAlike(init, kept, log, m + 1)
    ensures Harmless(init, kept, log, m)
  {
    hide Refused, Whole, Picked, PutAll;
    PickedNext(init, kept, log, m);
  }

  /** In every interleaving: the accepted blocks are the written ones but for repeats; and the
      stored state has been, block after block, the fold of the accepted blocks if and only if
      every refused block left the state it found. */
  lemma StateOfAcceptedExactly(n: Node, cs: seq<(nat, Action)>)
    requires InOrder(n) && Legal(n, cs)
    ensures var r := Run(n, cs);
      && r.kept == KeptAfter(n.tree, n.kept, Handed(r))
      && Leaves(r.disk) == Whole(n.tree, r.log)
      && ((forall m :: 0 <= m <= |r.log| ==> FoldsAlike(n.tree, n.kept, r.log, m)) <==>
          (forall m :: 0 <= m < |r.log| ==> Harmless(n.tree, n.kept, r.log, m)))
  {
    hide Run, InOrder, Legal, FoldsAlike, Harmless, KeptAfter;
    HistoryInEveryInterleaving(n, cs);
    Interleaved(n, cs);
    var log := Run(n, cs).log;
    if forall m :: 0 <= m < |log| ==> Harmless(n.tree, n.kept, log, m) {
      forall m | 0 <= m <= |log| ensures FoldsAlike(n.tree, n.kept, log, m) { HarmlessFolds(n.tree, n.kept, log, m); }
    }
    if forall m :: 0 <= m <= |log| ==> FoldsAlike(n.tree, n.kept, log, m) {
      forall m | 0 <= m < |log| ensures Harmless(n.tree, n.kept, log, m) {
        assert FoldsAlike(n.tree, n.kept, log, m) && FoldsAlike(n.tree, n.kept, log, m + 1);
        FoldsHarmless(n.tree, n.kept, log, m);
      }
    }
  }

  /** Every block raises the measure of the state. */
  ghost predicate Growing(init: Store, log: seq<Done>, mu: Store -> nat) {
    forall m :: 0 <= m < |log| ==> mu(Whole(init, log[..m])) < mu(Whole(init, log[..m + 1]))
  }

  lemma {:induction false} KeptBelow(init: Store, kept: seq<Kept>, log: seq<Done>, mu: Store -> nat, m: nat)
    requires m <= |log| && Growing(init, log, mu) && forall k :: k in kept ==> mu(k.state) <= mu(init)
    ensures forall k :: k in KeptAfter(init, kept, log[..m]) ==> mu(k.state) <= mu(Whole(init, log[..m]))
  {
    hide Whole, Repeats;
    if m == 0 {
      assert log[..0] == [];
      NothingWritten(init, kept);
    } else {
      KeptBelow(init, kept, log, mu, m - 1);
      assert log[..m][..m - 1] == log[..m - 1];
      assert mu(Whole(init, log[..m - 1])) < mu(Whole(init, log[..m - 1 + 1]));
    }
  }

  /** Where every block raises some measure of the state, as the block reward raises the supply, no
      block is ever refused, so the stored state is always the fold of the accepted blocks. */
  lemma GrowthIsNeverRefused(init: Store, kept: seq<Kept>, log: seq<Done>, mu: Store -> nat, m: nat)
    requires m < |log| && Growing(init, log, mu) && forall k :: k in kept ==> mu(k.state) <= mu(init)
    ensures !Refused(init, kept, log[..m + 1]) && Harmless(init, kept, log, m)
  {
    hide Whole, KeptAfter;
    KeptBelow(init, kept, log, mu, m);
    assert log[..m + 1][..m] == log[..m];
    assert mu(Whole(init, log[..m])) < mu(Whole(init, log[..m + 1]));
  }

  // ---------- Whole rounds ----------

  function Sets(j: nat, ws: Writes): (cs: seq<(nat, Action)>) {
    if ws == [] then [] else Sets(j, ws[..|ws| - 1]) + [(j, Set(ws[|ws| - 1].0, ws[|ws| - 1].1))]
  }

  /** What is left of a round or import once it has the lock. */
  function Rest(j: nat, ws: Writes): (cs: seq<(nat, Action)>) {
    [(j, Begin)] + (Sets(j, ws) +
      ([(j, Finish)] + ([(j, Commit)] + ([(j, WriteBatch)] + ([(j, AddBlock(None))] + [(j, Release)])))))
  }

  function AfterExec(n: Node, j: nat, job: Work, ws: Writes): (r: Node) {
    Moved(n, j, Busy(job, Executing(ws))).(tree := PutAll(n.tree, ws), dirty := PutAll(n.dirty, ws))
  }

  lemma {:induction false} SetsRun(n: Node, j: nat, job: Work, ws: Writes)
    ensures Run(Moved(n, j, Busy(job, Executing([]))), Sets(j, ws)) == AfterExec(n, j, job, ws)
  {
    hide C.Add, Batch, Known, Run;
    var n0 := Moved(n, j, Busy(job, Executing([])));
    if ws == [] {
      RunNone(n0);
    } else {
      var w, k, v := ws[..|ws| - 1], ws[|ws| - 1].0, ws[|ws| - 1].1;
      SetsRun(n, j, job, w);
      RunConcat(n0, Sets(j, w), [(j, Set(k, v))]);
      RunOne(AfterExec(n, j, job, w), j, Set(k, v));
      assert ws == w + [(k, v)];
    }
  }

  /** After commit, batch and `AddBlock`, with the lock released. */
  function Closed(n: Node, j: nat, job: Work, done: Writes): (r: Node) {
    var n1 := n.(dirty := map[], disk := n.disk + Batch(n.dirty, n.code),
                 log := n.log + [Done(job.header, job.txs, done)]);
    Moved(Extended(n1, job, None), j, Idle).(lock := None)
  }

  lemma CloseRuns(n: Node, j: nat, job: Work, done: Writes)
    requires Where(n, j) == Busy(job, Executing(done))
    ensures Run(n, [(j, Finish)] + ([(j, Commit)] + ([(j, WriteBatch)] + ([(j, AddBlock(None))] + [(j, Release)]))))
         == Closed(n, j, job, done)
  {
    hide Run, Step, Extended, Batch;
    var c5 := [(j, Release)];
    var c4 := [(j, AddBlock(None))] + c5;
    var c3 := [(j, WriteBatch)] + c4;
    RunCons(n, j, Finish, [(j, Commit)] + c3);
    var n1 := Step(n, j, Finish);
    RunCons(n1, j, Commit, c3);
    var n2 := Step(n1, j, Commit);
    RunCons(n2, j, WriteBatch, c4);
    var n3 := Step(n2, j, WriteBatch);
    RunCons(n3, j, AddBlock(None), c5);
    var n4 := Step(n3, j, AddBlock(None));
    RunOne(n4, j, Release);
    CloseFirst(n, j, job, done);
    CloseLast(n3, j, job);
    var written := n.(dirty := map[], disk := n.disk + Batch(n.dirty, n.code),
                      log := n.log + [Done(job.header, job.txs, done)]);
    ExtendedMoved(written, j, Busy(job, Written), job);
  }

  lemma ExtendedMoved(n: Node, j: nat, p: Phase, job: Work)
    ensures Moved(Extended(Moved(n, j, p), job, None), j, Idle) == Moved(Extended(n, job, None), j, Idle)
  {
    hide C.Add;
    MovedTwice(n.at, j, p, Idle);
  }

  lemma CloseFirst(n: Node, j: nat, job: Work, done: Writes)
    requires Where(n, j) == Busy(job, Executing(done))
    ensures Step(Step(Step(n, j, Finish), j, Commit), j, WriteBatch) ==
      Moved(n, j, Busy(job, Written)).(dirty := map[], disk := n.disk + Batch(n.dirty, n.code),
                                       log := n.log + [Done(job.header, job.txs, done)])
  {
    hide Step, Batch;
    var n1 := Moved(n, j, Busy(job, Executed(done)));
    FinishStep(n, j, job, done);
    var n2 := Moved(n1, j, Busy(job, Committed(done, Batch(n.dirty, n.code)))).(dirty := map[]);
    CommitStep(n1, j, job, done);
    WriteStep(n2, j, job, done, Batch(n.dirty, n.code));
    MovedTwice(n.at, j, Busy(job, Executed(done)), Busy(job, Committed(done, Batch(n.dirty, n.code))));
    MovedTwice(n.at, j, Busy(job, Committed(done, Batch(n.dirty, n.code))), Busy(job, Written));
  }

  lemma MovedTwice(at: map<nat, Phase>, j: nat, p: Phase, q: Phase)
    ensures at[j := p][j := q] == at[j := q]
  {
  }

  lemma FinishStep(n: Node, j: nat, job: Work, done: Writes)
    requires Where(n, j) == Busy(job, Executing(done))
    ensures Step(n, j, Finish) == Moved(n, j, Busy(job, Executed(done)))
  {
  }

  lemma CommitStep(n: Node, j: nat, job: Work, done: Writes)
    requires Where(n, j) == Busy(job, Executed(done))
    ensures Step(n, j, Commit) == Moved(n, j, Busy(job, Committed(done, Batch(n.dirty, n.code)))).(dirty := map[])
  {
    hide Batch;
  }

  lemma WriteStep(n: Node, j: nat, job: Work, done: Writes, batch: Disk)
    requires Where(n, j) == Busy(job, Committed(done, batch))
    ensures Step(n, j, WriteBatch) ==
      Moved(n, j, Busy(job, Written)).(disk := n.disk + batch, log := n.log + [Done(job.header, job.txs, done)])
  {
  }

  lemma CloseLast(n: Node, j: nat, job: Work)
    requires Where(n, j) == Busy(job, Written)
    ensures Step(Step(n, j, AddBlock(None)), j, Release) == Moved(Extended(n, job, None), j, Idle).(lock := None)
  {
    hide C.Add, Batch, Known;
    var n1 := Step(n, j, AddBlock(None));
    assert n1 == Moved(Extended(n, job, None), j, Busy(job, Added));
  }

  /** What a whole round or import does. */
  function Round(n: Node, j: nat, job: Work, ws: Writes): (r: Node) {
    Closed(AfterExec(n, j, job, ws), j, job, ws)
  }

  lemma RoundRuns(n: Node, j: nat, job: Work, ws: Writes)
    requires Where(n, j) == Busy(job, Locked)
    ensures Run(n, Rest(j, ws)) == Round(n, j, job, ws)
  {
    hide Run, Closed, Sets;
    var close := [(j, Finish)] + ([(j, Commit)] + ([(j, WriteBatch)] + ([(j, AddBlock(None))] + [(j, Release)])));
    RunCons(n, j, Begin, Sets(j, ws) + close);
    var n1 := Moved(n, j, Busy(job, Executing([])));
    assert Step(n, j, Begin) == n1;
    RunConcat(n1, Sets(j, ws), close);
    SetsRun(n, j, job, ws);
    CloseRuns(AfterExec(n, j, job, ws), j, job, ws);
  }

  /** A round whose block repeats no accepted one: the block is accepted, with the state it left. */
  lemma RoundAccepted(n: Node, j: nat, job: Work, ws: Writes)
    requires ChainInv(n) && OkNumber(job.header.number) && n.dirty == map[]
    requires !Repeats(n.kept, Kept(job.header, job.txs, PutAll(n.tree, ws)))
    ensures var r, k := Round(n, j, job, ws), Kept(job.header, job.txs, PutAll(n.tree, ws));
      && r.kept == n.kept + [k] && r.tree == k.state && r.dirty == map[] && r.lock.None? && r.stamp == n.stamp
      && r.at == n.at[j := Idle]
      && C.Indexed(ChainOf(r), BlocksOf(r.stamp, r.kept))
      && r.head == if C.Newer(ChainOf(n), Stamped(n.stamp, k)) then Some(Stamped(n.stamp, k)) else n.head
  {
    hide C.Indexed, PutAll, Batch, GoodStamp, HandsOk, Repeats, BlocksOf, C.Add, Known;
    var n1 := AfterExec(n, j, job, ws);
    var n2 := n1.(dirty := map[], disk := n1.disk + Batch(n1.dirty, n1.code),
                  log := n1.log + [Done(job.header, job.txs, ws)], at := map[]);
    B.CommitKeepsIndexed(ChainOf(n1), BlocksOf(n.stamp, n.kept), n1.dirty, n1.code);
    EmptyHands(n2);
    NewIsAdded(n2, job);
    SameExtension(n2, n1.at, job);
    MovedTwice(n.at, j, Busy(job, Executing(ws)), Idle);
  }

  lemma NewIsAdded(n: Node, job: Work)
    requires ChainInv(n) && OkNumber(job.header.number) && !Repeats(n.kept, Ready(n, job))
    ensures var r, k := Extended(n, job, None), Ready(n, job);
      && r.kept == n.kept + [k] && C.Indexed(ChainOf(r), BlocksOf(r.stamp, r.kept))
      && r.head == if C.Newer(ChainOf(n), Stamped(n.stamp, k)) then Some(Stamped(n.stamp, k)) else n.head
  {
    hide C.Indexed, GoodStamp, HandsOk, Repeats, BlocksOf;
    KnownExactly(n, job);
    ExtendedIndexed(n, job, None);
    C.AddHead(ChainOf(n), Stamped(n.stamp, Ready(n, job)), None);
  }

  lemma EmptyHands(n: Node)
    requires n.at == map[]
    ensures HandsOk(n)
  {
  }

  /** Program counters play no part in adding a block. */
  lemma SameExtension(n: Node, at: map<nat, Phase>, job: Work)
    ensures Extended(n.(at := at), job, None) == Extended(n, job, None).(at := at)
  {
    hide C.Add;
  }

  // ---------- Importing a block twice ----------

  /** No accepted block has this header. */
  ghost predicate NewHeader(ks: seq<Kept>, h: Header) {
    forall k :: k in ks ==> k.header != h
  }

  /** A received block is imported twice, and its second execution leaves another state, as the
      block reward alone makes it: the chain accepts it twice, under one number. The canonical
      entry then names the second copy; the head, if the block was newer, is the first. */
  lemma ImportedTwice(n: Node, j: nat, header: Header, txs: seq<Bytes>, ws: Writes, ws': Writes)
    requires InOrder(n) && OkNumber(header.number) && NewHeader(n.kept, header)
    requires PutAll(PutAll(n.tree, ws), ws') != PutAll(n.tree, ws)
    ensures var once := [(j, Import(header, txs))] + Rest(j, ws);
      var r := Run(n, once + ([(j, Import(header, txs))] + Rest(j, ws')));
      var k, k' := Kept(header, txs, PutAll(n.tree, ws)), Kept(header, txs, PutAll(PutAll(n.tree, ws), ws'));
      && r.kept == n.kept + [k] + [k']
      && C.BlockByNumber(r.disk, header.number) == Some(Stamped(n.stamp, k'))
      && (C.Newer(ChainOf(n), Stamped(n.stamp, k)) ==> r.head == Some(Stamped(n.stamp, k)))
  {
    hide Run, Rest, Round, PutAll, C.Indexed, Step, BlocksOf, C.BlockByNumber, GoodStamp;
    var job := Work(header, txs, None);
    var k, k' := Kept(header, txs, PutAll(n.tree, ws)), Kept(header, txs, PutAll(PutAll(n.tree, ws), ws'));
    var once := [(j, Import(header, txs))] + Rest(j, ws);
    assert ChainInv(n) by { ChainStarted(n); }
    ImportRuns(n, j, header, txs, ws);
    var r1 := Run(n, once);
    assert ChainInv(r1) by { AllIdle(r1); }
    RunConcat(n, once, [(j, Import(header, txs))] + Rest(j, ws'));
    ImportRuns(r1, j, header, txs, ws');
    var r := Run(r1, [(j, Import(header, txs))] + Rest(j, ws'));
    B.CanonicalIsLast(ChainOf(r), BlocksOf(n.stamp, r.kept), header.number);
    LastKept(n.stamp, n.kept + [k], k');
  }

  lemma AllIdle(n: Node)
    requires forall i :: i in n.at ==> n.at[i] == Idle
    ensures HandsOk(n)
  {
  }

  lemma LastKept(stamp: Stamp, ks: seq<Kept>, k: Kept)
    ensures C.LastAt(BlocksOf(stamp, ks + [k]), k.header.number) == Some(Stamped(stamp, k))
  {
    BlocksSnoc(stamp, ks, k);
  }

  /** One import on a node at rest. */
  lemma ImportRuns(n: Node, j: nat, header: Header, txs: seq<Bytes>, ws: Writes)
    requires ChainInv(n) && OkNumber(header.number) && n.dirty == map[] && n.lock.None?
    requires forall i :: i in n.at ==> n.at[i] == Idle
    requires !Repeats(n.kept, Kept(header, txs, PutAll(n.tree, ws)))
    ensures var r, k := Run(n, [(j, Import(header, txs))] + Rest(j, ws)), Kept(header, txs, PutAll(n.tree, ws));
      && r.kept == n.kept + [k] && r.tree == k.state && r.dirty == map[] && r.lock.None? && r.stamp == n.stamp
      && (forall i :: i in r.at ==> r.at[i] == Idle)
      && C.Indexed(ChainOf(r), BlocksOf(r.stamp, r.kept))
      && r.head == if C.Newer(ChainOf(n), Stamped(n.stamp, k)) then Some(Stamped(n.stamp, k)) else n.head
  {
    hide Run, Rest, Round, PutAll, C.Indexed, BlocksOf, Repeats, HandsOk, GoodStamp;
    var job := Work(header, txs, None);
    RunCons(n, j, Import(header, txs), Rest(j, ws));
    var n1 := Step(n, j, Import(header, txs));
    assert n1 == Moved(n, j, Busy(job, Locked)).(lock := Some(j));
    RoundRuns(n1, j, job, ws);
    assert HandsOk(n1) by { OneHand(n, j, job); }
    RoundAccepted(n1, j, job, ws);
  }

  lemma OneHand(n: Node, j: nat, job: Work)
    requires HandsOk(n) && OkNumber(job.header.number)
    ensures HandsOk(Moved(n, j, Busy(job, Locked)).(lock := Some(j)))
  {
    var n1 := Moved(n, j, Busy(job, Locked)).(lock := Some(j));
    forall i: nat | Where(n1, i).Busy? ensures OkNumber(Where(n1, i).job.header.number) {
      assert i != j ==> Where(n1, i) == Where(n, i);
    }
  }

  // ---------- Startup ----------

  /** A node that has just opened a database with the given chain. */
  function Loaded(stamp: Stamp, c: C.Chain, kept: seq<Kept>): (n: Node) {
    Node(stamp, Leaves(c.disk), map[], map[], c.disk, c.head, None, map[], [], kept)
  }

  /** A node that opens an empty database starts from the genesis allocation, with the genesis
      block as its head and its indices in order: what the theorems assume of a started node. */
  lemma FreshNodeStarts(stamp: Stamp, header: Header, alloc: map<Address, nat>)
    requires GoodStamp(stamp) && OkNumber(header.number)
    ensures var genesis := Kept(header, [], Accounts.Grants(map[], alloc));
      var n := Loaded(stamp, B.Opened(map[], Stamped(stamp, genesis), alloc), [genesis]);
      InOrder(n) && n.head == Some(Stamped(stamp, genesis)) && n.tree == genesis.state
  {
    hide Leaves, Batch, C.Add, C.Indexed, C.Ordinary, GoodStamp, OkNumber, Accounts.Grants;
    var genesis := Kept(header, [], Accounts.Grants(map[], alloc));
    var g := Stamped(stamp, genesis);
    StampedOrdinary(stamp, genesis);
    B.FreshStartIndexed(g, alloc);
    NoLeaves();
    var d1 := map[] + Batch(genesis.state, map[]);
    var c := C.Add(C.Chain(d1, None), g, None);
    BatchLeaves(map[], genesis.state, map[]);
    B.AddKeepsState(C.Chain(d1, None), g, None);
    ChainPutKeepsState(c.disk, Head, Raw(g.hash));
    assert BlocksOf(stamp, [genesis]) == [g];
    assert map[] + genesis.state == genesis.state;
  }

  lemma NoLeaves()
    ensures Leaves(map[]) == map[]
  {
  }

  /** A seal can fail: every started node with a head reaches a state in which the lock is never
      freed again. */
  lemma SealCanFail(n: Node, i: nat, fields: Bytes, txs: seq<Bytes>)
    requires Started(n) && n.head.Some?
    ensures var r := Run(n, [(i, ReadParent)] + ([(i, Mine(fields, txs))] +
                             ([(i, Begin)] + ([(i, Finish)] + [(i, FailSeal)]))));
      Exclusive(r) && Where(r, i).Stuck?
  {
    hide Inv, Step, Run, Started, Exclusive;
    var c5 := [(i, FailSeal)];
    var c4 := [(i, Finish)] + c5;
    var c3 := [(i, Begin)] + c4;
    var c2 := [(i, Mine(fields, txs))] + c3;
    RunCons(n, i, ReadParent, c2);
    var n1 := Step(n, i, ReadParent);
    RunCons(n1, i, Mine(fields, txs), c3);
    var n2 := Step(n1, i, Mine(fields, txs));
    RunCons(n2, i, Begin, c4);
    var n3 := Step(n2, i, Begin);
    RunCons(n3, i, Finish, c5);
    RunOne(Step(n3, i, Finish), i, FailSeal);
    RoundStarts(n, i, fields, txs);
    SealFails(n2, i, Mined(n.head.value, fields, txs));
    EveryInterleaving(n, [(i, ReadParent)] + c2);
    InvMeans(n.tree, Run(n, [(i, ReadParent)] + c2));
  }

  lemma RoundStarts(n: Node, i: nat, fields: Bytes, txs: seq<Bytes>)
    requires Started(n) && n.head.Some?
    ensures Where(Step(Step(n, i, ReadParent), i, Mine(fields, txs)), i) ==
      Busy(Mined(n.head.value, fields, txs), Locked)
  {
    hide C.Add, Batch, Leaves, Known;
    var n1 := Step(n, i, ReadParent);
    assert n1 == Moved(n, i, Waiting(n.head.value));
  }

  lemma SealFails(n: Node, i: nat, job: Work)
    requires Where(n, i) == Busy(job, Locked) && job.parent.Some?
    ensures Where(Step(Step(Step(n, i, Begin), i, Finish), i, FailSeal), i) == Stuck([])
  {
    hide C.Add, Batch, Known;
    var n1 := Step(n, i, Begin);
    assert n1 == Moved(n, i, Busy(job, Executing([])));
    var n2 := Step(n1, i, Finish);
    assert n2 == Moved(n1, i, Busy(job, Executed([])));
  }

  // ---------- The number of a mined block ----------

  function ParentOf(p: Phase): (b: Option<Block>) {
    match p
    case Waiting(parent) => Some(parent)
    case Busy(job, stage) => if stage.Added? then None else job.parent
    case _ => None
  }

  /** A parent read is the head, or has been overtaken by a newer one; a mined block is numbered
      after the parent read. */
  ghost predicate ParentOk(head: Option<Block>, p: Phase) {
    && (ParentOf(p).Some? ==>
          && head.Some? && ParentOf(p).value.number <= head.value.number
          && (ParentOf(p).value.number == head.value.number ==> head == ParentOf(p)))
    && (p.Busy? && p.job.parent.Some? ==> p.job.header.number == p.job.parent.value.number + 1)
  }

  ghost predicate ParentsOk(n: Node) {
    forall i: nat :: ParentOk(n.head, Where(n, i))
  }

  ghost predicate Rises(h: Option<Block>, h': Option<Block>) {
    h' == h || (h'.Some? && (h.Some? ==> h'.value.number > h.value.number))
  }

  lemma AddRises(c: C.Chain, b: Block, receipts: Option<Bytes>)
    ensures Rises(c.head, C.Add(c, b, receipts).head)
  {
    hide C.PutLookups, C.PutReceipts;
  }

  /** Heads only rise. */
  lemma HeadRises(n: Node, i: nat, a: Action)
    ensures Rises(n.head, Step(n, i, a).head)
  {
    hide C.Add, Known;
    if !Loud(Where(n, i), a) {
      QuietStep(n, i, a);
    } else if a.AddBlock? {
      AddRises(ChainOf(n), Stamped(n.stamp, Ready(n, Where(n, i).job)), a.receipts);
    }
  }

  /** A parent read stays as it should under a rising head. */
  lemma ParentKept(h: Option<Block>, h': Option<Block>, p: Phase)
    requires ParentOk(h, p) && Rises(h, h')
    ensures ParentOk(h', p)
  {
  }

  /** What an actor has in hand comes from what it had, or from the head just read. */
  lemma ParentStep(n: Node, i: nat, a: Action)
    ensures var p, p' := Where(n, i), Where(Step(n, i, a), i);
      || (ParentOf(p').None? && (p'.Busy? ==> (p.Busy? && p'.job == p.job) || p'.job.parent.None?))
      || (p'.Waiting? && !p.Waiting? && n.head == Some(p'.parent) && Step(n, i, a).head == n.head)
      || (ParentOf(p') == ParentOf(p) && (p' == p || (p.Busy? && p'.Busy? && p'.job == p.job) || FromParent(p, p')))
  {
    hide C.Add, Batch, Known;
    match Where(n, i)
    case Busy(job, stage) => StageKeepsJob(n, i, job, stage, a);
    case _ =>
  }

  lemma StageKeepsJob(n: Node, i: nat, job: Work, stage: Stage, a: Action)
    requires Where(n, i) == Busy(job, stage)
    ensures var p' := Where(StageStep(n, i, job, stage, a), i);
      if p'.Busy? then p'.job == job else p'.Idle? || p'.Stuck?
  {
    hide C.Add, Batch, Known, Extended;
  }

  ghost predicate FromParent(p: Phase, p': Phase) {
    p.Waiting? && p'.Busy? && p'.job.parent == Some(p.parent) && p'.job.header.number == p.parent.number + 1
  }

  lemma ParentsStep(n: Node, i: nat, a: Action)
    requires ParentsOk(n)
    ensures ParentsOk(Step(n, i, a))
  {
    hide Step, Rises;
    var n' := Step(n, i, a);
    HeadRises(n, i, a);
    forall j: nat ensures ParentOk(n'.head, Where(n', j)) {
      assert ParentOk(n.head, Where(n, j));
      ParentKept(n.head, n'.head, Where(n, j));
      if j == i { ParentStep(n, i, a); } else { OthersStay(n, i, a, j); }
    }
  }

  lemma {:induction false} ParentsInEveryInterleaving(n: Node, cs: seq<(nat, Action)>)
    requires Started(n)
    ensures ParentsOk(Run(n, cs))
  {
    hide Step, ParentOk;
    if cs == [] {
      ParentsStarted(n);
    } else {
      ParentsInEveryInterleaving(n, cs[..|cs| - 1]);
      ParentsStep(Run(n, cs[..|cs| - 1]), cs[|cs| - 1].0, cs[|cs| - 1].1);
    }
  }

  lemma ParentsStarted(n: Node)
    requires Started(n)
    ensures ParentsOk(n)
  {
  }

  /** In every interleaving, a mined block about to be added has the number after the head's
      exactly when the head is still the parent its round read before it took the lock. If not,
      its number is the head's or lower, so that it does not become the head. */
  lemma MinedNumberExactly(n: Node, cs: seq<(nat, Action)>, i: nat)
    requires Started(n) && Where(Run(n, cs), i).Busy? && Where(Run(n, cs), i).stage == Written
    requires Where(Run(n, cs), i).job.parent.Some?
    ensures var r, job := Run(n, cs), Where(Run(n, cs), i).job;
      && r.head.Some?
      && (job.header.number == r.head.value.number + 1 <==> r.head == job.parent)
      && (r.head != job.parent ==> job.header.number <= r.head.value.number
                                   && !C.Newer(ChainOf(r), Stamped(r.stamp, Ready(r, job))))
  {
    hide Run;
    ParentsInEveryInterleaving(n, cs);
    assert ParentOk(Run(n, cs).head, Where(Run(n, cs), i));
  }

  // ---------- A stale parent ----------

  lemma BothStart(n: Node, i: nat, j: nat, header: Header, txs: seq<Bytes>)
    requires Started(n) && n.head.Some? && i != j
    ensures Step(Step(n, i, ReadParent), j, Import(header, txs)) ==
      n.(at := map[i := Waiting(n.head.value), j := Busy(Work(header, txs, None), Locked)], lock := Some(j))
  {
    hide C.Add, Batch, Known, Leaves;
    var n1 := Step(n, i, ReadParent);
    assert n1 == n.(at := map[i := Waiting(n.head.value)]);
  }

  /** A round that reads its parent just before an import takes the lock mines a block of the
      imported block's number: the chain accepts two blocks of one number. */
  lemma StaleParent(n: Node, i: nat, j: nat, header: Header, txs: seq<Bytes>, ws: Writes, fields: Bytes,
                    txs': seq<Bytes>, ws': Writes)
    requires InOrder(n) && n.head.Some? && i != j && OkNumber(header.number)
    requires header.number == n.head.value.number + 1 && fields != header.fields
    requires NewHeader(n.kept, header) && NewHeader(n.kept, Header(header.number, fields))
    ensures var imported := [(j, Import(header, txs))] + Rest(j, ws);
      var r := Run(n, [(i, ReadParent)] + (imported + ([(i, Mine(fields, txs'))] + Rest(i, ws'))));
      var k := Kept(header, txs, PutAll(n.tree, ws));
      var k' := Kept(Header(header.number, fields), txs', PutAll(k.state, ws'));
      r.kept == n.kept + [k] + [k'] && r.head == Some(Stamped(n.stamp, k))
  {
    hide Run, Rest, Round, PutAll, C.Indexed, Step, BlocksOf, GoodStamp, OkNumber, HandsOk;
    var job, job' := Work(header, txs, None), Mined(n.head.value, fields, txs');
    var tail := [(i, Mine(fields, txs'))] + Rest(i, ws');
    var imported := [(j, Import(header, txs))] + Rest(j, ws);
    assert imported + tail == [(j, Import(header, txs))] + (Rest(j, ws) + tail);
    RunCons(n, i, ReadParent, imported + tail);
    var n1 := Step(n, i, ReadParent);
    RunCons(n1, j, Import(header, txs), Rest(j, ws) + tail);
    var n2 := Step(n1, j, Import(header, txs));
    BothStart(n, i, j, header, txs);
    RunConcat(n2, Rest(j, ws), tail);
    RoundRuns(n2, j, job, ws);
    assert HandsOk(n2) by { StartedHands(n2, i, j, n.head.value, job); }
    RoundAccepted(n2, j, job, ws);
    var n3 := Run(n2, Rest(j, ws));
    assert n3.at == map[i := Waiting(n.head.value), j := Idle];
    assert HandsOk(n3) by { NoHands(n3, i, j, n.head.value); }
    RunCons(n3, i, Mine(fields, txs'), Rest(i, ws'));
    var n4 := Moved(n3, i, Busy(job', Locked)).(lock := Some(i));
    assert Step(n3, i, Mine(fields, txs')) == n4 by { MineStarts(n3, i, n.head.value, fields, txs'); }
    RoundRuns(n4, i, job', ws');
    assert HandsOk(n4) by { OneHand(n3, i, job'); }
    RoundAccepted(n4, i, job', ws');
  }

  lemma MineStarts(n: Node, i: nat, parent: Block, fields: Bytes, txs: seq<Bytes>)
    requires Where(n, i) == Waiting(parent) && n.lock.None?
    ensures Step(n, i, Mine(fields, txs)) == Moved(n, i, Busy(Mined(parent, fields, txs), Locked)).(lock := Some(i))
  {
  }

  lemma StartedHands(n: Node, i: nat, j: nat, parent: Block, job: Work)
    requires n.at == map[i := Waiting(parent), j := Busy(job, Locked)] && OkNumber(job.header.number) && i != j
    ensures HandsOk(n)
  {
  }

  lemma NoHands(n: Node, i: nat, j: nat, parent: Block)
    requires n.at == map[i := Waiting(parent), j := Idle] && i != j
    ensures HandsOk(n)
  {
  }
}
