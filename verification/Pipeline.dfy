/** The node's commit pipeline. Mining rounds and block imports take the state lock, execute a
    block on the in-memory state, commit, write the batch, add the block to the chain and release
    the lock; a mining round reads its parent before it takes the lock, and hands the held lock
    to a goroutine for the second half. The hash of a block covers its header fields and the root
    of the state its execution left, so it is known only then. Any number of rounds and imports
    run side by side, each with its own program counter. */
module Pipeline {
  import opened Base
  import opened Database
  import C = Chain
  import B = Blockchain

  type Writes = seq<(Key, Value)>

  function PutAll(s: Store, ws: Writes): (r: Store) {
    if ws == [] then s else PutAll(s, ws[..|ws| - 1])[ws[|ws| - 1].0 := ws[|ws| - 1].1]
  }

  /** A header without its state root: the number, and everything else it holds. */
  datatype Header = Header(number: nat, fields: Bytes)

  /** The header hash, as a function of the fields and the state whose root goes with them. */
  type Stamp = (Header, Store) -> Bytes

  /** The block in hand; a mined one has the parent its round read. */
  datatype Work = Work(header: Header, txs: seq<Bytes>, parent: Option<Block>)

  datatype Stage =
    | Locked
    | Executing(done: Writes)
    | Executed(done: Writes)
    | Committed(done: Writes, batch: Disk)
    | Written
    | Added

  /** Where an actor stands. `Stuck` is a mining round whose sealing failed: it returned without
      releasing the lock. */
  datatype Phase = Idle | Waiting(parent: Block) | Busy(job: Work, stage: Stage) | Stuck(done: Writes)

  /** A block whose batch has been written, with the writes of its execution. */
  datatype Done = Done(header: Header, txs: seq<Bytes>, ws: Writes)

  /** A block the chain accepted, with the state its execution left. */
  datatype Kept = Kept(header: Header, txs: seq<Bytes>, state: Store)

  /** Memory, disk and head, lock and program counters; and two histories: the blocks whose
      batches have been written, and the blocks the chain accepted. */
  datatype Node = Node(stamp: Stamp, tree: Store, dirty: Store, code: map<Bytes, Bytes>, disk: Disk,
                       head: Option<Block>, lock: Option<nat>, at: map<nat, Phase>, log: seq<Done>, kept: seq<Kept>)

  datatype Action =
    | ReadParent
    | Mine(fields: Bytes, txs: seq<Bytes>)
    | Import(header: Header, txs: seq<Bytes>)
    | Refuse                    // an import whose signature does not verify
    | Begin
    | Set(k: Key, v: Value)     // one state write of the block being executed
    | Deploy(h: Bytes, c: Bytes) // contract code it brings into the cache
    | Finish
    | FailSeal
    | Commit
    | WriteBatch
    | AddBlock(receipts: Option<Bytes>)
    | Release

  function Where(n: Node, i: nat): (p: Phase) { if i in n.at then n.at[i] else Idle }

  function Moved(n: Node, i: nat, p: Phase): (r: Node) { n.(at := n.at[i := p]) }

  function ChainOf(n: Node): (c: C.Chain) { C.Chain(n.disk, n.head) }

  /** The block as the chain stores it. */
  function Stamped(stamp: Stamp, k: Kept): (b: Block) { Block(stamp(k.header, k.state), k.header.number, k.txs) }

  /** The block in hand once it is executed. */
  function Ready(n: Node, job: Work): (k: Kept) { Kept(job.header, job.txs, n.tree) }

  function Mined(parent: Block, fields: Bytes, txs: seq<Bytes>): (w: Work) {
    Work(Header(parent.number + 1, fields), txs, Some(parent))
  }

  function Take(n: Node, i: nat, job: Work): (r: Node) {
    if n.lock.None? then Moved(n, i, Busy(job, Locked)).(lock := Some(i)) else n
  }

  /** `AddBlock` finds the hash of the block in hand on the chain. */
  predicate Known(n: Node, job: Work) {
    C.ReadBlock(n.disk, Stamped(n.stamp, Ready(n, job)).hash).Some?
  }

  /** `AddBlock`: a known block is refused, after its execution has been committed. */
  function Extended(n: Node, job: Work, receipts: Option<Bytes>): (r: Node) {
    var c := C.Add(ChainOf(n), Stamped(n.stamp, Ready(n, job)), receipts);
    n.(disk := c.disk, head := c.head, kept := if Known(n, job) then n.kept else n.kept + [Ready(n, job)])
  }

  function StageStep(n: Node, i: nat, job: Work, stage: Stage, a: Action): (r: Node) {
    match (stage, a)
    case (Locked, Refuse) => if job.parent.None? then Moved(n, i, Idle).(lock := None) else n
    case (Locked, Begin) => Moved(n, i, Busy(job, Executing([])))
    case (Executing(done), Set(k, v)) =>
      Moved(n, i, Busy(job, Executing(done + [(k, v)]))).(tree := n.tree[k := v], dirty := n.dirty[k := v])
    case (Executing(_), Deploy(h, c)) => n.(code := n.code[h := c])
    case (Executing(done), Finish) => Moved(n, i, Busy(job, Executed(done)))
    case (Executed(done), FailSeal) => if job.parent.Some? then Moved(n, i, Stuck(done)) else n
    case (Executed(done), Commit) =>
      Moved(n, i, Busy(job, Committed(done, Batch(n.dirty, n.code)))).(dirty := map[])
    case (Committed(done, batch), WriteBatch) =>
      Moved(n, i, Busy(job, Written)).(disk := n.disk + batch, log := n.log + [Done(job.header, job.txs, done)])
    case (Written, AddBlock(receipts)) => Moved(Extended(n, job, receipts), i, Busy(job, Added))
    case (Added, Release) => Moved(n, i, Idle).(lock := None)
    case _ => n
  }

  /** One step of actor `i`; an action that its program counter does not allow changes nothing. */
  function Step(n: Node, i: nat, a: Action): (r: Node) {
    match (Where(n, i), a)
    case (Idle, ReadParent) => if n.head.Some? then Moved(n, i, Waiting(n.head.value)) else n
    case (Idle, Import(header, txs)) => Take(n, i, Work(header, txs, None))
    case (Waiting(parent), Mine(fields, txs)) => Take(n, i, Mined(parent, fields, txs))
    case (Busy(job, stage), _) => StageStep(n, i, job, stage, a)
    case _ => n
  }

  function Run(n: Node, cs: seq<(nat, Action)>): (r: Node) {
    if cs == [] then n else Step(Run(n, cs[..|cs| - 1]), cs[|cs| - 1].0, cs[|cs| - 1].1)
  }

  lemma {:induction false} RunConcat(n: Node, a: seq<(nat, Action)>, b: seq<(nat, Action)>)
    ensures Run(n, a + b) == Run(Run(n, a), b)
    decreases |b|
  {
    hide Step;
    if b == [] {
      assert a + b == a;
    } else {
      assert (a + b)[..|a + b| - 1] == a + b[..|b| - 1];
      RunConcat(n, a, b[..|b| - 1]);
    }
  }

  lemma RunOne(n: Node, i: nat, a: Action)
    ensures Run(n, [(i, a)]) == Step(n, i, a)
  {
    hide Step;
    var cs := [(i, a)];
    assert cs[..0] == [];
    assert Run(n, cs[..0]) == n;
  }

  lemma RunCons(n: Node, i: nat, a: Action, cs: seq<(nat, Action)>)
    ensures Run(n, [(i, a)] + cs) == Run(Step(n, i, a), cs)
  {
    hide Step, Run;
    RunConcat(n, [(i, a)], cs);
    RunOne(n, i, a);
  }

  /** The state after a list of whole blocks. */
  function AfterBlocks(s: Store, log: seq<Writes>): (r: Store) {
    if log == [] then s else PutAll(AfterBlocks(s, log[..|log| - 1]), log[|log| - 1])
  }

  function WritesOf(log: seq<Done>): (ws: seq<Writes>)
    ensures |ws| == |log| && forall i :: 0 <= i < |log| ==> ws[i] == log[i].ws
  {
    seq(|log|, i requires 0 <= i < |log| => log[i].ws)
  }

  /** The state of a list of written blocks. */
  function Whole(init: Store, log: seq<Done>): (s: Store) { AfterBlocks(init, WritesOf(log)) }

  // ---------- What a step can change ----------

  /** Past its start, with the lock. */
  predicate Holds(p: Phase) { p.Busy? || p.Stuck? }

  ghost predicate Exclusive(n: Node) {
    forall i: nat :: Holds(Where(n, i)) <==> n.lock == Some(i)
  }

  /** Memory, disk, head and histories are the same. */
  ghost predicate SameContents(n: Node, r: Node) {
    && r.stamp == n.stamp && r.tree == n.tree && r.dirty == n.dirty && r.code == n.code && r.disk == n.disk
    && r.head == n.head && r.log == n.log && r.kept == n.kept
  }

  /** The five steps that do something to memory or disk. */
  predicate Loud(p: Phase, a: Action) {
    && p.Busy?
    && (|| (p.stage.Executing? && (a.Set? || a.Deploy?))
        || (p.stage.Executed? && a.Commit?)
        || (p.stage.Committed? && a.WriteBatch?)
        || (p.stage.Written? && a.AddBlock?))
  }

  lemma QuietStep(n: Node, i: nat, a: Action)
    requires !Loud(Where(n, i), a)
    ensures SameContents(n, Step(n, i, a))
  {
    hide C.Add, Batch, Known, Extended;
  }

  lemma LoudStep(n: Node, i: nat, a: Action)
    requires Loud(Where(n, i), a)
    ensures var n' := Step(n, i, a);
      n'.lock == n.lock && Where(n', i).Busy? && Where(n', i).job == Where(n, i).job && n'.stamp == n.stamp
  {
    hide C.Add, Batch, Known;
  }

  lemma OthersStay(n: Node, i: nat, a: Action, j: nat)
    requires j != i
    ensures Where(Step(n, i, a), j) == Where(n, j)
  {
    hide C.Add, Batch, Known;
  }

  /** What becomes of the lock and of the actor that steps. */
  lemma LockStep(n: Node, i: nat, a: Action)
    ensures var n' := Step(n, i, a);
      || (n'.lock == n.lock && Holds(Where(n', i)) == Holds(Where(n, i)))
      || (n.lock.None? && n'.lock == Some(i) && Holds(Where(n', i)))
      || (n'.lock.None? && Holds(Where(n, i)) && !Holds(Where(n', i)))
  {
    hide C.Add, Batch, Known;
  }

  /** Every step keeps the lock with one actor. */
  lemma StepKeepsExclusive(n: Node, i: nat, a: Action)
    requires Exclusive(n)
    ensures Exclusive(Step(n, i, a))
  {
    hide Step;
    var n' := Step(n, i, a);
    LockStep(n, i, a);
    assert Holds(Where(n, i)) <==> n.lock == Some(i);
    forall j: nat ensures Holds(Where(n', j)) <==> n'.lock == Some(j) {
      assert Holds(Where(n, j)) <==> n.lock == Some(j);
      if j != i { OthersStay(n, i, a, j); }
    }
  }

  lemma HolderIs(n: Node, i: nat)
    requires Exclusive(n)
    ensures Holds(Where(n, i)) <==> n.lock == Some(i)
  {
  }

  // ---------- Memory and disk ----------

  /** Memory, seen from the phase of the lock's holder. */
  ghost predicate InPhase(n: Node, p: Phase, whole: Store) {
    match p
    case Busy(_, Executing(done)) => n.tree == PutAll(whole, done) && n.dirty == PutAll(map[], done)
    case Busy(_, Executed(done)) => n.tree == PutAll(whole, done) && n.dirty == PutAll(map[], done)
    case Busy(_, Committed(done, batch)) =>
      n.tree == PutAll(whole, done) && n.dirty == map[] && batch == Batch(PutAll(map[], done), n.code)
    case Stuck(done) => n.tree == PutAll(whole, done) && n.dirty == PutAll(map[], done)
    case _ => n.tree == whole && n.dirty == map[]
  }

  function HolderPhase(n: Node): (p: Phase) { if n.lock.Some? then Where(n, n.lock.value) else Idle }

  /** Only the lock's holder is past its start; the disk holds whole blocks; memory is ahead of it
      by the block being processed. */
  ghost predicate Inv(init: Store, n: Node) {
    && Exclusive(n)
    && Leaves(n.disk) == Whole(init, n.log)
    && InPhase(n, HolderPhase(n), Whole(init, n.log))
  }

  lemma {:induction false} PutAllOver(s: Store, ws: Writes)
    ensures PutAll(s, ws) == s + PutAll(map[], ws)
  {
    if ws != [] { PutAllOver(s, ws[..|ws| - 1]); }
  }

  lemma PutAllSnoc(s: Store, ws: Writes, k: Key, v: Value)
    ensures PutAll(s, ws + [(k, v)]) == PutAll(s, ws)[k := v]
  {
    assert (ws + [(k, v)])[..|ws|] == ws;
  }

  lemma EmptyPut(s: Store)
    ensures PutAll(s, []) == s && PutAll(map[], []) == map[]
  {
  }

  lemma WholeSnoc(init: Store, log: seq<Done>, d: Done)
    ensures Whole(init, log + [d]) == PutAll(Whole(init, log), d.ws)
  {
    var ws := WritesOf(log + [d]);
    assert ws == WritesOf(log) + [d.ws];
    assert ws[..|log|] == WritesOf(log);
  }

  /** The phases in which memory and disk agree. */
  predicate Settled(p: Phase) { p.Idle? || p.Waiting? || (p.Busy? && p.stage in {Locked, Written, Added}) }

  /** A step that touches neither memory nor disk leaves the holder in a phase of the same kind. */
  lemma QuietPhase(n: Node, i: nat, a: Action)
    requires Exclusive(n) && !Loud(Where(n, i), a)
    ensures var p, p' := HolderPhase(n), HolderPhase(Step(n, i, a));
      || p' == p
      || (Settled(p) && Settled(p'))
      || (Settled(p) && p'.Busy? && p'.stage == Executing([]))
      || (p.Busy? && p.stage.Executing? && p'.Busy? && p'.stage == Executed(p.stage.done))
      || (p.Busy? && p.stage.Executed? && p' == Stuck(p.stage.done))
  {
    hide C.Add, Batch, Known;
    HolderIs(n, i);
  }

  lemma QuietKeepsInv(init: Store, n: Node, i: nat, a: Action)
    requires Inv(init, n) && !Loud(Where(n, i), a)
    ensures Inv(init, Step(n, i, a))
  {
    hide Step, PutAll, Whole, Leaves, Batch, Exclusive;
    StepKeepsExclusive(n, i, a);
    QuietStep(n, i, a);
    QuietPhase(n, i, a);
    EmptyPut(Whole(init, n.log));
  }

  lemma SetKeepsInv(init: Store, n: Node, i: nat, k: Key, v: Value)
    requires Inv(init, n) && Loud(Where(n, i), Set(k, v))
    ensures Inv(init, Step(n, i, Set(k, v)))
  {
    hide PutAll, Whole, Leaves, Batch, Exclusive;
    StepKeepsExclusive(n, i, Set(k, v));
    HolderIs(n, i);
    var done := Where(n, i).stage.done;
    PutAllSnoc(Whole(init, n.log), done, k, v);
    PutAllSnoc(map[], done, k, v);
  }

  lemma DeployKeepsInv(init: Store, n: Node, i: nat, h: Bytes, c: Bytes)
    requires Inv(init, n) && Loud(Where(n, i), Deploy(h, c))
    ensures Inv(init, Step(n, i, Deploy(h, c)))
  {
    hide PutAll, Whole, Leaves, Batch, Exclusive;
    StepKeepsExclusive(n, i, Deploy(h, c));
    HolderIs(n, i);
  }

  lemma CommitKeepsInv(init: Store, n: Node, i: nat)
    requires Inv(init, n) && Loud(Where(n, i), Commit)
    ensures Inv(init, Step(n, i, Commit))
  {
    hide PutAll, Whole, Leaves, Batch, Exclusive;
    StepKeepsExclusive(n, i, Commit);
    HolderIs(n, i);
  }

  lemma WriteKeepsInv(init: Store, n: Node, i: nat)
    requires Inv(init, n) && Loud(Where(n, i), WriteBatch)
    ensures Inv(init, Step(n, i, WriteBatch))
  {
    hide PutAll, Whole, Leaves, Batch, Exclusive;
    StepKeepsExclusive(n, i, WriteBatch);
    HolderIs(n, i);
    var job, done := Where(n, i).job, Where(n, i).stage.done;
    BatchLeaves(n.disk, PutAll(map[], done), n.code);
    PutAllOver(Whole(init, n.log), done);
    WholeSnoc(init, n.log, Done(job.header, job.txs, done));
  }

  lemma AddKeepsInv(init: Store, n: Node, i: nat, receipts: Option<Bytes>)
    requires Inv(init, n) && Loud(Where(n, i), AddBlock(receipts))
    ensures Inv(init, Step(n, i, AddBlock(receipts)))
  {
    hide PutAll, Whole, Leaves, Batch, Exclusive, C.Add, Known;
    StepKeepsExclusive(n, i, AddBlock(receipts));
    HolderIs(n, i);
    B.AddKeepsState(ChainOf(n), Stamped(n.stamp, Ready(n, Where(n, i).job)), receipts);
  }

  /** Each step of each round and import keeps the invariant. */
  lemma StepKeepsInv(init: Store, n: Node, i: nat, a: Action)
    requires Inv(init, n)
    ensures Inv(init, Step(n, i, a))
  {
    hide Inv, Step;
    if !Loud(Where(n, i), a) {
      QuietKeepsInv(init, n, i, a);
    } else {
      match a
      case Set(k, v) => SetKeepsInv(init, n, i, k, v);
      case Deploy(h, c) => DeployKeepsInv(init, n, i, h, c);
      case Commit => CommitKeepsInv(init, n, i);
      case WriteBatch => WriteKeepsInv(init, n, i);
      case AddBlock(receipts) => AddKeepsInv(init, n, i, receipts);
    }
  }

  /** A node as it is after startup. */
  ghost predicate Started(n: Node) {
    n.lock.None? && n.at == map[] && n.log == [] && n.dirty == map[] && n.tree == Leaves(n.disk)
  }

  /** In every interleaving of mining rounds and imports, memory equals the state rebuilt from
      the database whenever the lock is free; and at every step, also in the middle of a commit,
      the stored state is the result of whole blocks, in the order they took the lock. */
  lemma {:induction false} EveryInterleaving(n: Node, cs: seq<(nat, Action)>)
    requires Started(n)
    ensures var r := Run(n, cs);
      && Inv(n.tree, r) && r.stamp == n.stamp
      && Leaves(r.disk) == Whole(n.tree, r.log)
      && (r.lock.None? ==> r.tree == Leaves(r.disk) && r.dirty == map[])
  {
    hide Inv, Leaves, Whole, Step;
    if cs == [] {
      StartedInv(n);
    } else {
      var r := Run(n, cs[..|cs| - 1]);
      EveryInterleaving(n, cs[..|cs| - 1]);
      StepKeepsInv(n.tree, r, cs[|cs| - 1].0, cs[|cs| - 1].1);
      StampStays(r, cs[|cs| - 1].0, cs[|cs| - 1].1);
    }
    InvMeans(n.tree, Run(n, cs));
  }

  lemma StampStays(n: Node, i: nat, a: Action)
    ensures Step(n, i, a).stamp == n.stamp
  {
    hide Step;
    if Loud(Where(n, i), a) { LoudStep(n, i, a); } else { QuietStep(n, i, a); }
  }

  lemma StartedInv(n: Node)
    requires Started(n)
    ensures Inv(n.tree, n)
  {
  }

  lemma InvMeans(init: Store, n: Node)
    requires Inv(init, n)
    ensures Exclusive(n) && Leaves(n.disk) == Whole(init, n.log)
    ensures n.lock.None? ==> n.tree == Leaves(n.disk) && n.dirty == map[]
  {
    hide Exclusive, Leaves, Whole;
  }

  // ---------- A failed seal ----------

  lemma StuckStays(n: Node, h: nat, i: nat, a: Action)
    requires Exclusive(n) && Where(n, h).Stuck?
    ensures var r := Step(n, i, a);
      SameContents(n, r) && r.lock == n.lock && Where(r, h).Stuck?
  {
    hide Step, Exclusive;
    HolderIs(n, h);
    HolderIs(n, i);
    QuietStep(n, i, a);
    LockStep(n, i, a);
    if i == h { StuckDoesNothing(n, h, a); } else { OthersStay(n, i, a, h); }
  }

  lemma StuckDoesNothing(n: Node, h: nat, a: Action)
    requires Where(n, h).Stuck?
    ensures Step(n, h, a) == n
  {
  }

  /** A mining round that fails to seal returns with the lock held: from then on no round and no
      import ever changes memory, disk or head again, nor frees the lock. */
  lemma {:induction false} FailedSealStopsTheNode(n: Node, h: nat, cs: seq<(nat, Action)>)
    requires Exclusive(n) && Where(n, h).Stuck?
    ensures var r := Run(n, cs);
      SameContents(n, r) && r.lock == n.lock && Exclusive(r) && Where(r, h).Stuck?
  {
    hide Exclusive, Step;
    if cs != [] {
      var r := Run(n, cs[..|cs| - 1]);
      FailedSealStopsTheNode(n, h, cs[..|cs| - 1]);
      StuckStays(r, h, cs[|cs| - 1].0, cs[|cs| - 1].1);
      StepKeepsExclusive(r, cs[|cs| - 1].0, cs[|cs| - 1].1);
    }
  }

  /** The steps left to a holder that seals successfully, be it a round or an import. */
  function StepsLeft(stage: Stage): (k: nat) {
    match stage
    case Added => 1
    case Written => 2
    case Committed(_, _) => 3
    case Executed(_) => 4
    case Executing(_) => 5
    case Locked => 6
  }

  function NextAction(stage: Stage): (a: Action) {
    match stage
    case Locked => Begin
    case Executing(_) => Finish
    case Executed(_) => Commit
    case Committed(_, _) => WriteBatch
    case Written => AddBlock(None)
    case Added => Release
  }

  lemma NextStage(n: Node, i: nat, job: Work, stage: Stage)
    ensures var n' := StageStep(n, i, job, stage, NextAction(stage));
      if stage.Added? then n'.lock.None?
      else n'.lock == n.lock && Where(n', i).Busy? && StepsLeft(Where(n', i).stage) < StepsLeft(stage)
  {
    hide C.Add, Batch, Known;
  }

  lemma NextActionMoves(n: Node, i: nat)
    requires Where(n, i).Busy?
    ensures var stage, n' := Where(n, i).stage, Step(n, i, NextAction(Where(n, i).stage));
      if stage.Added? then n'.lock.None?
      else n'.lock == n.lock && Where(n', i).Busy? && StepsLeft(Where(n', i).stage) < StepsLeft(stage)
  {
    hide C.Add, Batch, Known, StageStep;
    NextStage(n, i, Where(n, i).job, Where(n, i).stage);
  }

  /** Unless its holder failed to seal, a held lock can always be freed: with
      `FailedSealStopsTheNode`, the lock can be freed exactly when no seal has failed. */
  lemma {:induction false} LockCanBeFreed(n: Node, i: nat) returns (cs: seq<(nat, Action)>)
    requires Exclusive(n) && n.lock == Some(i) && !Where(n, i).Stuck?
    ensures Run(n, cs).lock.None?
    decreases if Where(n, i).Busy? then StepsLeft(Where(n, i).stage) else 0
  {
    hide Exclusive, Step, Run;
    HolderIs(n, i);
    var a := NextAction(Where(n, i).stage);
    var n' := Step(n, i, a);
    StepKeepsExclusive(n, i, a);
    NextActionMoves(n, i);
    var rest: seq<(nat, Action)> := [];
    if n'.lock.Some? {
      rest := LockCanBeFreed(n', i);
    } else {
      RunNone(n');
    }
    cs := [(i, a)] + rest;
    RunCons(n, i, a, rest);
  }

  lemma RunNone(n: Node)
    ensures Run(n, []) == n
  {
  }

  // ---------- What becomes of the work in hand ----------

  /** A block was written after the first `from` ones with this header and these transactions. */
  ghost predicate Delivered(n: Node, from: nat, job: Work) {
    exists k :: from <= k < |n.log| && n.log[k].header == job.header && n.log[k].txs == job.txs
  }

  /** A mining round with the lock: at its block, stuck, or done with it. */
  ghost predicate AtWork(n: Node, i: nat, from: nat, job: Work) {
    || Delivered(n, from, job)
    || Where(n, i).Stuck?
    || (Where(n, i).Busy? && Where(n, i).job == job && !Settled(Where(n, i)))
    || Where(n, i) == Busy(job, Locked)
  }

  lemma LogGrows(n: Node, i: nat, a: Action)
    ensures var n' := Step(n, i, a);
      |n.log| <= |n'.log| && forall k :: 0 <= k < |n.log| ==> n'.log[k] == n.log[k]
  {
    hide C.Add, Batch, Known;
  }

  lemma WorkStep(n: Node, i: nat, from: nat, job: Work, a: Action)
    requires job.parent.Some? && AtWork(n, i, from, job) && !Delivered(n, from, job) && from <= |n.log|
    ensures AtWork(Step(n, i, a), i, from, job)
  {
    hide C.Add, Batch, Known, Extended;
    var n' := Step(n, i, a);
    if Where(n, i).Busy? && Where(n, i).stage.Committed? && a.WriteBatch? {
      assert n'.log[|n.log|].header == job.header && n'.log[|n.log|].txs == job.txs;
    }
  }

  lemma WorkStays(n: Node, i: nat, from: nat, job: Work, j: nat, a: Action)
    requires job.parent.Some? && AtWork(n, i, from, job) && from <= |n.log|
    ensures AtWork(Step(n, j, a), i, from, job)
  {
    hide Step;
    LogGrows(n, j, a);
    if Delivered(n, from, job) {
      var k :| from <= k < |n.log| && n.log[k].header == job.header && n.log[k].txs == job.txs;
      assert Step(n, j, a).log[k] == n.log[k];
    } else if j == i {
      WorkStep(n, i, from, job, a);
    } else {
      OthersStay(n, j, a, i);
    }
  }

  /** Whatever the others do, a mining round that has the lock either fails to seal, or is still at
      its block, or has written it with its header and transactions: it never gives up. */
  lemma {:induction false} RoundDelivers(n: Node, i: nat, job: Work, cs: seq<(nat, Action)>)
    requires job.parent.Some? && Where(n, i) == Busy(job, Locked)
    ensures AtWork(Run(n, cs), i, |n.log|, job) && |n.log| <= |Run(n, cs).log|
  {
    hide Step, AtWork;
    if cs == [] {
      StartsWork(n, i, job);
    } else {
      var r, c := Run(n, cs[..|cs| - 1]), cs[|cs| - 1];
      RoundDelivers(n, i, job, cs[..|cs| - 1]);
      WorkStays(r, i, |n.log|, job, c.0, c.1);
      LogGrows(r, c.0, c.1);
    }
  }

  lemma StartsWork(n: Node, i: nat, job: Work)
    requires Where(n, i) == Busy(job, Locked)
    ensures AtWork(n, i, |n.log|, job)
  {
  }

  /** Nobody mines or is stuck. */
  ghost predicate NoRounds(n: Node) {
    forall i: nat :: !Where(n, i).Stuck? && (Where(n, i).Busy? ==> Where(n, i).job.parent.None?)
  }

  lemma ImportStep(n: Node, i: nat, a: Action)
    requires NoRounds(n) && !a.Mine?
    ensures NoRounds(Step(n, i, a))
  {
    var n' := Step(n, i, a);
    forall j: nat ensures !Where(n', j).Stuck? && (Where(n', j).Busy? ==> Where(n', j).job.parent.None?) {
      assert !Where(n, j).Stuck? && (Where(n, j).Busy? ==> Where(n, j).job.parent.None?);
      if j == i { ImportMoves(n, i, a); } else { OthersStay(n, i, a, j); }
    }
  }

  lemma ImportMoves(n: Node, i: nat, a: Action)
    requires !Where(n, i).Stuck? && (Where(n, i).Busy? ==> Where(n, i).job.parent.None?) && !a.Mine?
    ensures var p := Where(Step(n, i, a), i); !p.Stuck? && (p.Busy? ==> p.job.parent.None?)
  {
    hide C.Add, Batch, Known, Extended;
  }

  /** Imports alone never get stuck: without mining, the lock can always be freed. */
  lemma {:induction false} ImportsNeverStick(n: Node, cs: seq<(nat, Action)>)
    requires NoRounds(n) && forall k :: 0 <= k < |cs| ==> !cs[k].1.Mine?
    ensures NoRounds(Run(n, cs))
  {
    hide Step, NoRounds;
    if cs != [] {
      ImportsNeverStick(n, cs[..|cs| - 1]);
      ImportStep(Run(n, cs[..|cs| - 1]), cs[|cs| - 1].0, cs[|cs| - 1].1);
    }
  }
}
