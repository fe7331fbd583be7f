/** Contract code in the commit pipeline: what a block deploys is cached at once and stored with the
    block; stored code never changes. */
module PipelineCode {
  import opened Base
  import opened Database
  import opened Pipeline
  import C = Chain
  import B = Blockchain

  ghost predicate Injective(digest: Bytes -> Bytes) {
    forall x: Bytes, y: Bytes :: digest(x) == digest(y) ==> x == y
  }

  /** Cached and stored code lies under its own hash. */
  ghost predicate Matching(digest: Bytes -> Bytes, n: Node) {
    && (forall h :: h in n.code ==> digest(n.code[h]) == h)
    && (forall h: Bytes :: ReadCode(n.disk, h).Some? ==> digest(ReadCode(n.disk, h).value) == h)
  }

  /** Everything in the cache is stored. */
  ghost predicate Stored(n: Node) {
    forall h :: h in n.code ==> ReadCode(n.disk, h) == Some(n.code[h])
  }

  /** Outside the execution and commit of a block everything cached is stored. */
  ghost predicate CodeInv(digest: Bytes -> Bytes, n: Node) {
    Matching(digest, n) && (Settled(HolderPhase(n)) ==> Stored(n))
  }

  /** Code that is cached stays cached, code that is stored stays stored, unchanged. */
  ghost predicate Lasting(n: Node, r: Node) {
    && (forall h :: h in n.code ==> h in r.code && r.code[h] == n.code[h])
    && (forall h: Bytes :: ReadCode(n.disk, h).Some? ==> ReadCode(r.disk, h) == ReadCode(n.disk, h))
  }

  /** Code is deployed under its hash. */
  predicate Hashed(digest: Bytes -> Bytes, a: Action) { a.Deploy? ==> a.h == digest(a.c) }

  lemma QuietCode(digest: Bytes -> Bytes, n: Node, i: nat, a: Action)
    requires Exclusive(n) && CodeInv(digest, n) && !Loud(Where(n, i), a)
    ensures CodeInv(digest, Step(n, i, a)) && Lasting(n, Step(n, i, a))
  {
    hide Step, Exclusive, ReadCode;
    QuietStep(n, i, a);
    QuietPhase(n, i, a);
  }

  lemma SetCodeInv(digest: Bytes -> Bytes, n: Node, i: nat, a: Action)
    requires Injective(digest) && Exclusive(n) && CodeInv(digest, n) && Hashed(digest, a)
    requires Loud(Where(n, i), a) && (a.Set? || a.Deploy? || a.Commit?)
    ensures CodeInv(digest, Step(n, i, a)) && Lasting(n, Step(n, i, a))
  {
    hide Exclusive, ReadCode, Batch, C.Add, Known, Extended;
    HolderIs(n, i);
    var r := Step(n, i, a);
    assert r.disk == n.disk && !Settled(HolderPhase(r));
    if a.Deploy? {
      assert r.code == n.code[a.h := a.c];
      assert a.h in n.code ==> digest(n.code[a.h]) == digest(a.c);
    }
  }

  lemma WriteShape(init: Store, n: Node, i: nat) returns (dirty: Store)
    requires Inv(init, n) && Loud(Where(n, i), WriteBatch)
    ensures Step(n, i, WriteBatch).disk == n.disk + Batch(dirty, n.code) && Step(n, i, WriteBatch).code == n.code
  {
    hide Exclusive, Batch, PutAll, Whole, Leaves;
    HolderIs(n, i);
    dirty := PutAll(map[], Where(n, i).stage.done);
  }

  /** A batch with all the cached code is written. */
  lemma CacheWritten(digest: Bytes -> Bytes, n: Node, r: Node, dirty: Store)
    requires Injective(digest) && Matching(digest, n) && r.disk == n.disk + Batch(dirty, n.code) && r.code == n.code
    ensures Matching(digest, r) && Stored(r) && Lasting(n, r)
  {
    hide ReadCode, Batch;
    forall h: Bytes ensures ReadCode(r.disk, h) == if h in n.code then Some(n.code[h]) else ReadCode(n.disk, h) {
      BatchCode(n.disk, dirty, n.code, h);
    }
    forall h: Bytes | ReadCode(n.disk, h).Some? ensures ReadCode(r.disk, h) == ReadCode(n.disk, h) {
      if h in n.code { assert digest(n.code[h]) == digest(ReadCode(n.disk, h).value); }
    }
  }

  lemma WriteCode(digest: Bytes -> Bytes, init: Store, n: Node, i: nat)
    requires Injective(digest) && Inv(init, n) && CodeInv(digest, n) && Loud(Where(n, i), WriteBatch)
    ensures CodeInv(digest, Step(n, i, WriteBatch)) && Lasting(n, Step(n, i, WriteBatch))
  {
    hide Inv, Step, Matching, Stored, Lasting, Injective, Batch;
    var dirty := WriteShape(init, n, i);
    CacheWritten(digest, n, Step(n, i, WriteBatch), dirty);
  }

  lemma AddCode(digest: Bytes -> Bytes, n: Node, i: nat, receipts: Option<Bytes>)
    requires Exclusive(n) && CodeInv(digest, n) && Loud(Where(n, i), AddBlock(receipts))
    ensures CodeInv(digest, Step(n, i, AddBlock(receipts))) && Lasting(n, Step(n, i, AddBlock(receipts)))
  {
    hide Exclusive, ReadCode, Batch, C.Add, Known;
    HolderIs(n, i);
    var r := Step(n, i, AddBlock(receipts));
    forall h: Bytes ensures ReadCode(r.disk, h) == ReadCode(n.disk, h) {
      B.AddKeepsCode(ChainOf(n), Stamped(n.stamp, Ready(n, Where(n, i).job)), receipts, h);
    }
    assert r.code == n.code;
  }

  lemma StepCode(digest: Bytes -> Bytes, init: Store, n: Node, i: nat, a: Action)
    requires Injective(digest) && Inv(init, n) && CodeInv(digest, n) && Hashed(digest, a)
    ensures CodeInv(digest, Step(n, i, a)) && Lasting(n, Step(n, i, a))
  {
    hide Inv, CodeInv, Step, Lasting, Exclusive;
    InvMeans(init, n);
    if !Loud(Where(n, i), a) {
      QuietCode(digest, n, i, a);
    } else {
      match a
      case WriteBatch => WriteCode(digest, init, n, i);
      case AddBlock(receipts) => AddCode(digest, n, i, receipts);
      case _ => SetCodeInv(digest, n, i, a);
    }
  }

  lemma LastingTrans(a: Node, b: Node, c: Node)
    requires Lasting(a, b) && Lasting(b, c)
    ensures Lasting(a, c)
  {
  }

  ghost predicate AllHashed(digest: Bytes -> Bytes, cs: seq<(nat, Action)>) {
    forall j :: 0 <= j < |cs| ==> Hashed(digest, cs[j].1)
  }

  /** In every interleaving of rounds and imports: code once stored stays stored and unchanged, every
      stored code lies under its own hash, and whenever the lock is free everything cached is
      stored. */
  lemma {:induction false} CodeInEveryInterleaving(digest: Bytes -> Bytes, n: Node, cs: seq<(nat, Action)>)
    requires Injective(digest) && Started(n) && Matching(digest, n) && Stored(n) && AllHashed(digest, cs)
    ensures var r := Run(n, cs);
      CodeInv(digest, r) && Lasting(n, r) && (r.lock.None? ==> Stored(r))
  {
    hide Inv, Step, Matching, Stored, Lasting, Started, Injective;
    if cs == [] {
      NothingHappened(digest, n);
    } else {
      var init, c := cs[..|cs| - 1], cs[|cs| - 1];
      var r := Run(n, init);
      CodeInEveryInterleaving(digest, n, init);
      EveryInterleaving(n, init);
      StepCode(digest, n.tree, r, c.0, c.1);
      LastingTrans(n, r, Step(r, c.0, c.1));
    }
  }

  lemma NothingHappened(digest: Bytes -> Bytes, n: Node)
    requires Matching(digest, n) && Stored(n)
    ensures CodeInv(digest, n) && Lasting(n, n)
  {
  }

  /** Code that a block being executed deploys is in the database at every later point of the run at
      which the lock is free. */
  lemma DeployedCodeIsStored(digest: Bytes -> Bytes, n: Node, cs: seq<(nat, Action)>, i: nat, c: Bytes,
                             more: seq<(nat, Action)>)
    requires Injective(digest) && Started(n) && Matching(digest, n) && Stored(n)
    requires Where(Run(n, cs), i).Busy? && Where(Run(n, cs), i).stage.Executing?
    requires AllHashed(digest, cs + [(i, Deploy(digest(c), c))] + more)
    requires Run(n, cs + [(i, Deploy(digest(c), c))] + more).lock.None?
    ensures ReadCode(Run(n, cs + [(i, Deploy(digest(c), c))] + more).disk, digest(c)) == Some(c)
  {
    hide Run, Started, Injective, Matching, ReadCode;
    var d := cs + [(i, Deploy(digest(c), c))];
    RunConcat(n, cs, [(i, Deploy(digest(c), c))]);
    RunOne(Run(n, cs), i, Deploy(digest(c), c));
    DeployCaches(Run(n, cs), i, digest(c), c);
    CodeInEveryInterleaving(digest, n, d + more);
    CacheGrows(digest, n, d, more);
  }

  lemma DeployCaches(n: Node, i: nat, h: Bytes, c: Bytes)
    requires Where(n, i).Busy? && Where(n, i).stage.Executing?
    ensures h in Step(n, i, Deploy(h, c)).code && Step(n, i, Deploy(h, c)).code[h] == c
  {
  }

  lemma {:induction false} CacheGrows(digest: Bytes -> Bytes, n: Node, cs: seq<(nat, Action)>,
                                      more: seq<(nat, Action)>)
    requires Injective(digest) && Started(n) && Matching(digest, n) && Stored(n) && AllHashed(digest, cs + more)
    ensures Lasting(Run(n, cs), Run(n, cs + more))
    decreases |more|
  {
    hide Inv, Step, Matching, Stored, Started, Injective, ReadCode;
    if more == [] {
      assert cs + more == cs;
    } else {
      var init, c := more[..|more| - 1], more[|more| - 1];
      assert (cs + more)[..|cs + more| - 1] == cs + init && (cs + more)[|cs + more| - 1] == c;
      assert AllHashed(digest, cs + init) by {
        forall j | 0 <= j < |cs + init| ensures Hashed(digest, (cs + init)[j].1) {
          assert (cs + init)[j] == (cs + more)[j];
        }
      }
      CacheGrows(digest, n, cs, init);
      CodeInEveryInterleaving(digest, n, cs + init);
      EveryInterleaving(n, cs + init);
      StepCode(digest, n.tree, Run(n, cs + init), c.0, c.1);
    }
  }
}
