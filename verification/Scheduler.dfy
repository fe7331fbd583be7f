/** The wave scheduler: a greedy partition of a block's transactions into waves whose
    sender/recipient footprints are disjoint. Members of a wave are named by block position,
    so that equal transactions at different positions stay apart. */
module Scheduler {
  import opened Base

  /** The addresses a transaction marks as touched. */
  function Footprint(tx: Tx): (f: set<Address>) {
    {tx.sender} + if tx.to.Some? then {tx.to.value} else {}
  }

  /** Two block positions whose footprints meet. */
  predicate Clash(txs: seq<Tx>, i: nat, j: nat) {
    i < |txs| && j < |txs| && !(Footprint(txs[i]) !! Footprint(txs[j]))
  }

  /** Neither transaction's sender or recipient is sender or recipient of the other. */
  predicate Strangers(t: Tx, u: Tx) {
    && t.sender != u.sender && u.to != Some(t.sender) && t.to != Some(u.sender)
    && (t.to.Some? ==> t.to != u.to)
  }

  lemma ClashExactly(txs: seq<Tx>, i: nat, j: nat)
    requires i < |txs| && j < |txs|
    ensures Clash(txs, i, j) <==> !Strangers(txs[i], txs[j])
  {
  }

  // ---------- First fit ----------

  /** An earlier position of level `w` clashes with `i`. */
  ghost predicate Blocked(txs: seq<Tx>, lv: seq<nat>, i: nat, w: nat)
    requires i <= |lv|
  {
    exists j: nat :: j < i && Clash(txs, j, i) && lv[j] == w
  }

  /** First fit: every position has the least level free of earlier clashing positions. Speaks
      of neither a queue nor a set of touched addresses. */
  ghost predicate FirstFit(txs: seq<Tx>, lv: seq<nat>) {
    && |lv| <= |txs|
    && (forall i: nat :: i < |lv| ==> !Blocked(txs, lv, i, lv[i]))
    && (forall i: nat, v: nat :: i < |lv| && v < lv[i] ==> Blocked(txs, lv, i, v))
  }

  /** The first-fit levels of the first `n` positions. */
  ghost function Levels(txs: seq<Tx>, n: nat): (lv: seq<nat>)
    requires n <= |txs|
    ensures |lv| == n && forall i :: 0 <= i < n ==> lv[i] <= i
  {
    if n == 0 then [] else
      var lv := Levels(txs, n - 1);
      lv + [LeastFree(txs, lv, 0)]
  }

  ghost function LeastFree(txs: seq<Tx>, lv: seq<nat>, w: nat): (r: nat)
    requires w <= |lv|
    ensures w <= r <= |lv|
    decreases |lv| - w
  {
    if w == |lv| || !Blocked(txs, lv, |lv|, w) then w else LeastFree(txs, lv, w + 1)
  }

  lemma {:induction false} LeastFreeIsLeast(txs: seq<Tx>, lv: seq<nat>, w: nat)
    requires w <= |lv| && forall i :: 0 <= i < |lv| ==> lv[i] <= i
    ensures !Blocked(txs, lv, |lv|, LeastFree(txs, lv, w))
    ensures forall v: nat :: w <= v < LeastFree(txs, lv, w) ==> Blocked(txs, lv, |lv|, v)
    decreases |lv| - w
  {
    if w < |lv| && Blocked(txs, lv, |lv|, w) { LeastFreeIsLeast(txs, lv, w + 1); }
  }

  /** What blocks a position is settled by the levels below it. */
  lemma BlockedSnoc(txs: seq<Tx>, lv: seq<nat>, x: nat, i: nat, v: nat)
    requires i <= |lv|
    ensures Blocked(txs, lv + [x], i, v) <==> Blocked(txs, lv, i, v)
  {
  }

  lemma LevelSnoc(txs: seq<Tx>, lv: seq<nat>, d: nat)
    requires FirstFit(txs, lv) && |lv| < |txs| && !Blocked(txs, lv, |lv|, d)
    requires forall v: nat :: v < d ==> Blocked(txs, lv, |lv|, v)
    ensures FirstFit(txs, lv + [d])
  {
    var lv' := lv + [d];
    forall i: nat | i < |lv'| ensures !Blocked(txs, lv', i, lv'[i]) { BlockedSnoc(txs, lv, d, i, lv'[i]); }
    forall i: nat, v: nat | i < |lv'| && v < lv'[i] ensures Blocked(txs, lv', i, v) { BlockedSnoc(txs, lv, d, i, v); }
  }

  lemma LevelsStart(txs: seq<Tx>)
    ensures FirstFit(txs, Levels(txs, 0))
  {
  }

  lemma LevelsStep(txs: seq<Tx>, n: nat)
    requires n < |txs|
    ensures Levels(txs, n + 1) == Levels(txs, n) + [LeastFree(txs, Levels(txs, n), 0)]
  {
  }

  lemma {:induction false} LevelsFit(txs: seq<Tx>, n: nat)
    requires n <= |txs|
    ensures FirstFit(txs, Levels(txs, n))
  {
    hide *;
    if n == 0 {
      LevelsStart(txs);
    } else {
      LevelsFit(txs, n - 1);
      LevelsStep(txs, n - 1);
      var lv := Levels(txs, n - 1);
      LeastFreeIsLeast(txs, lv, 0);
      LevelSnoc(txs, lv, LeastFree(txs, lv, 0));
    }
  }

  /** First fit determines the levels. */
  lemma {:induction false} FirstFitUnique(txs: seq<Tx>, a: seq<nat>, b: seq<nat>, i: nat)
    requires FirstFit(txs, a) && FirstFit(txs, b) && i <= |a| && i <= |b|
    ensures a[..i] == b[..i]
  {
    if i > 0 {
      FirstFitUnique(txs, a, b, i - 1);
      assert forall j: nat :: j < i - 1 ==> a[j] == a[..i - 1][j];
      assert forall j: nat :: j < i - 1 ==> b[j] == b[..i - 1][j];
      forall v: nat {:trigger Blocked(txs, a, i - 1, v)} {:trigger Blocked(txs, b, i - 1, v)}
        ensures Blocked(txs, a, i - 1, v) <==> Blocked(txs, b, i - 1, v) {}
      assert a[i - 1] == b[i - 1];
      assert a[..i] == a[..i - 1] + [a[i - 1]] && b[..i] == b[..i - 1] + [b[i - 1]];
    }
  }

  /** Clashing positions never share a level. */
  lemma ClashApart(txs: seq<Tx>, lv: seq<nat>, i: nat, j: nat)
    requires FirstFit(txs, lv) && i < |lv| && j < |lv| && i != j && Clash(txs, i, j)
    ensures lv[i] != lv[j]
  {
    assert Clash(txs, j, i);
    assert !Blocked(txs, lv, i, lv[i]) && !Blocked(txs, lv, j, lv[j]);
  }

  // ---------- Waves and queues, in list order ----------

  ghost predicate InRange(s: seq<nat>, n: nat) {
    forall x :: 0 <= x < |s| ==> s[x] < n
  }

  /** Positions below `n` of level `w`. */
  ghost function Members(lv: seq<nat>, w: nat, n: nat): (s: seq<nat>)
    requires n <= |lv|
    ensures InRange(s, n)
  {
    if n == 0 then [] else Members(lv, w, n - 1) + if lv[n - 1] == w then [n - 1] else []
  }

  /** Positions below `n` of level `w` or above: the queue as wave `w` starts. */
  ghost function Pending(lv: seq<nat>, w: nat, n: nat): (s: seq<nat>)
    requires n <= |lv|
    ensures InRange(s, n)
  {
    if n == 0 then [] else Pending(lv, w, n - 1) + if lv[n - 1] >= w then [n - 1] else []
  }

  ghost predicate Ascending(s: seq<nat>, n: nat) {
    && (forall x :: 0 <= x < |s| ==> s[x] < n)
    && (forall x, y :: 0 <= x < y < |s| ==> s[x] < s[y])
  }

  lemma {:induction false} MembersAscend(lv: seq<nat>, w: nat, n: nat)
    requires n <= |lv|
    ensures Ascending(Members(lv, w, n), n)
    ensures forall i: nat :: i in Members(lv, w, n) <==> i < n && lv[i] == w
  {
    if n > 0 { MembersAscend(lv, w, n - 1); }
  }

  lemma {:induction false} PendingAscend(lv: seq<nat>, w: nat, n: nat)
    requires n <= |lv|
    ensures Ascending(Pending(lv, w, n), n)
    ensures forall i: nat :: i in Pending(lv, w, n) <==> i < n && lv[i] >= w
  {
    if n > 0 { PendingAscend(lv, w, n - 1); }
  }

  lemma {:induction false} PendingAtStart(lv: seq<nat>, n: nat)
    requires n <= |lv|
    ensures |Pending(lv, 0, n)| == n
    ensures forall x :: 0 <= x < n ==> Pending(lv, 0, n)[x] == x
  {
    if n > 0 { PendingAtStart(lv, n - 1); }
  }

  /** The transactions at the given positions. */
  ghost function Pick(txs: seq<Tx>, q: seq<nat>): (s: seq<Tx>)
    requires InRange(q, |txs|)
    ensures |s| == |q| && forall x :: 0 <= x < |q| ==> s[x] == txs[q[x]]
  {
    seq(|q|, x requires 0 <= x < |q| => txs[q[x]])
  }

  lemma PickSnoc(txs: seq<Tx>, q: seq<nat>, i: nat)
    requires i < |txs| && InRange(q, |txs|)
    ensures InRange(q + [i], |txs|) && Pick(txs, q + [i]) == Pick(txs, q) + [txs[i]]
  {
  }

  /** The transactions of the block at level `w`, in block order. */
  ghost function WaveTxs(txs: seq<Tx>, lv: seq<nat>, w: nat): (s: seq<Tx>)
    requires |lv| == |txs|
    ensures |s| == |Members(lv, w, |lv|)|
  {
    Pick(txs, Members(lv, w, |lv|))
  }

  /** The queue as wave `w` starts. */
  ghost function QueueTxs(txs: seq<Tx>, lv: seq<nat>, w: nat): (s: seq<Tx>)
    requires |lv| == |txs|
    ensures |s| == |Pending(lv, w, |lv|)|
  {
    Pick(txs, Pending(lv, w, |lv|))
  }

  // ---------- One scan of the queue ----------

  /** What one scan has collected: the wave, the next queue and the touched addresses. */
  datatype Scan = Scan(wave: seq<Tx>, next: seq<Tx>, touched: set<Address>)

  /** The scan for wave `w` after the positions below `n`. */
  ghost function ScanTo(txs: seq<Tx>, lv: seq<nat>, w: nat, n: nat): (s: Scan)
    requires n <= |lv| == |txs|
  {
    if n == 0 then Scan([], [], {}) else
      var s := ScanTo(txs, lv, w, n - 1);
      var tx := txs[n - 1];
      if lv[n - 1] == w then Scan(s.wave + [tx], s.next, s.touched + Footprint(tx))
      else if lv[n - 1] > w then Scan(s.wave, s.next + [tx], s.touched)
      else s
  }

  lemma {:induction false} ScanWave(txs: seq<Tx>, lv: seq<nat>, w: nat, n: nat)
    requires n <= |lv| == |txs|
    ensures ScanTo(txs, lv, w, n).wave == Pick(txs, Members(lv, w, n))
  {
    if n > 0 {
      ScanWave(txs, lv, w, n - 1);
      PickSnoc(txs, Members(lv, w, n - 1), n - 1);
    }
  }

  lemma {:induction false} ScanNext(txs: seq<Tx>, lv: seq<nat>, w: nat, n: nat)
    requires n <= |lv| == |txs|
    ensures ScanTo(txs, lv, w, n).next == Pick(txs, Pending(lv, w + 1, n))
  {
    if n > 0 {
      ScanNext(txs, lv, w, n - 1);
      PickSnoc(txs, Pending(lv, w + 1, n - 1), n - 1);
    }
  }

  lemma {:induction false} TouchedBy(txs: seq<Tx>, lv: seq<nat>, w: nat, n: nat, a: Address)
    requires n <= |lv| == |txs|
    ensures a in ScanTo(txs, lv, w, n).touched <==> exists j: nat :: j < n && lv[j] == w && a in Footprint(txs[j])
  {
    if n > 0 { TouchedBy(txs, lv, w, n - 1, a); }
  }

  /** What the scan of wave `w` decides at a queued position. */
  lemma ScanDecision(txs: seq<Tx>, lv: seq<nat>, w: nat, n: nat)
    requires FirstFit(txs, lv) && n < |lv| == |txs| && lv[n] >= w
    ensures Footprint(txs[n]) !! ScanTo(txs, lv, w, n).touched <==> lv[n] == w
  {
    if a :| a in Footprint(txs[n]) && a in ScanTo(txs, lv, w, n).touched {
      TouchedBy(txs, lv, w, n, a);
      var j: nat :| j < n && lv[j] == w && a in Footprint(txs[j]);
      assert Clash(txs, j, n);
      assert Blocked(txs, lv, n, w);
    } else if lv[n] > w {
      assert Blocked(txs, lv, n, w);
      var j: nat :| j < n && Clash(txs, j, n) && lv[j] == w;
      var a :| a in Footprint(txs[j]) && a in Footprint(txs[n]);
      TouchedBy(txs, lv, w, n, a);
    }
  }

  /** The position the scan meets at queue index `k`; the end of the block after the last. */
  ghost function Bound(lv: seq<nat>, w: nat, k: nat): (n: nat)
    ensures n <= |lv|
  {
    PendingAscend(lv, w, |lv|);
    if k < |Pending(lv, w, |lv|)| then Pending(lv, w, |lv|)[k] else |lv|
  }

  lemma Queued(txs: seq<Tx>, lv: seq<nat>, w: nat, k: nat)
    requires |lv| == |txs| && k < |QueueTxs(txs, lv, w)|
    ensures Bound(lv, w, k) < |lv| && lv[Bound(lv, w, k)] >= w
    ensures QueueTxs(txs, lv, w)[k] == txs[Bound(lv, w, k)]
  {
    PendingAscend(lv, w, |lv|);
    assert Bound(lv, w, k) in Pending(lv, w, |lv|);
  }

  /** Positions between two consecutive queued ones belong to earlier waves: they add nothing. */
  lemma ScanGap(txs: seq<Tx>, lv: seq<nat>, w: nat, k: nat)
    requires |lv| == |txs| && k <= |Pending(lv, w, |lv|)|
    ensures
      var lo := if k == 0 then 0 else Bound(lv, w, k - 1) + 1;
      lo <= |lv| && ScanTo(txs, lv, w, lo) == ScanTo(txs, lv, w, Bound(lv, w, k))
  {
    var pend := Pending(lv, w, |lv|);
    PendingAscend(lv, w, |lv|);
    var lo := if k == 0 then 0 else pend[k - 1] + 1;
    var hi := Bound(lv, w, k);
    forall i: nat | lo <= i < hi ensures lv[i] < w { NotBetween(pend, |lv|, k, i); }
    SkipGap(txs, lv, w, lo, hi);
  }

  lemma NotBetween(s: seq<nat>, n: nat, k: nat, i: nat)
    requires Ascending(s, n) && k <= |s|
    requires k > 0 ==> s[k - 1] < i
    requires k < |s| ==> i < s[k]
    ensures i !in s
  {
    forall x | 0 <= x < |s| ensures s[x] != i {
      assert x < k ==> s[x] <= s[k - 1];
    }
  }

  lemma {:induction false} SkipGap(txs: seq<Tx>, lv: seq<nat>, w: nat, lo: nat, hi: nat)
    requires lo <= hi <= |lv| == |txs|
    requires forall i: nat :: lo <= i < hi ==> lv[i] < w
    ensures ScanTo(txs, lv, w, lo) == ScanTo(txs, lv, w, hi)
    decreases hi - lo
  {
    if lo < hi { SkipGap(txs, lv, w, lo, hi - 1); }
  }

  lemma ScanDone(txs: seq<Tx>, lv: seq<nat>, w: nat)
    requires |lv| == |txs|
    ensures ScanTo(txs, lv, w, |lv|).wave == WaveTxs(txs, lv, w)
    ensures ScanTo(txs, lv, w, |lv|).next == QueueTxs(txs, lv, w + 1)
  {
    ScanWave(txs, lv, w, |lv|);
    ScanNext(txs, lv, w, |lv|);
  }

  // ---------- The program ----------

  /** `schedule`: wave `w` holds exactly the transactions first fit puts at level `w`, in block
      order. The branch that forces progress after an empty wave is never taken. */
  method Schedule(txs: seq<Tx>) returns (waves: seq<seq<Tx>>)
    ensures var lv := Levels(txs, |txs|);
      && (forall w :: 0 <= w < |waves| ==> waves[w] == WaveTxs(txs, lv, w) && waves[w] != [])
      && (forall i :: 0 <= i < |txs| ==> lv[i] < |waves|)
    ensures forall w, x, y :: 0 <= w < |waves| && 0 <= x < y < |waves[w]| ==> Strangers(waves[w][x], waves[w][y])
  {
    hide Levels, FirstFit, WaveTxs, QueueTxs;
    ghost var lv := Levels(txs, |txs|);
    LevelsFit(txs, |txs|);
    QueueAtStart(txs, lv);
    waves := [];
    var queue := txs;
    while |queue| > 0
      invariant queue == QueueTxs(txs, lv, |waves|)
      invariant forall w :: 0 <= w < |waves| ==> waves[w] == WaveTxs(txs, lv, w) && waves[w] != []
      decreases |queue|
    {
      var currentWave, nextQueue := TakeWave(txs, lv, |waves|, queue);
      if |currentWave| == 0 {
        assert false;
      } else {
        waves := waves + [currentWave];
        queue := nextQueue;
      }
    }
    QueueAtEnd(txs, lv, |waves|);
    forall w, x, y | 0 <= w < |waves| && 0 <= x < y < |waves[w]| ensures Strangers(waves[w][x], waves[w][y]) {
      WaveOfStrangers(txs, lv, w, x, y);
    }
  }

  lemma WaveOfStrangers(txs: seq<Tx>, lv: seq<nat>, w: nat, x: nat, y: nat)
    requires |lv| == |txs| && FirstFit(txs, lv) && x < y < |WaveTxs(txs, lv, w)|
    ensures Strangers(WaveTxs(txs, lv, w)[x], WaveTxs(txs, lv, w)[y])
  {
    hide FirstFit, Clash, Strangers;
    var wave := Members(lv, w, |lv|);
    WaveApart(txs, lv, w);
    assert wave[x] in wave && wave[y] in wave && wave[x] < wave[y];
    ClashExactly(txs, wave[x], wave[y]);
  }

  lemma QueueAtStart(txs: seq<Tx>, lv: seq<nat>)
    requires |lv| == |txs|
    ensures QueueTxs(txs, lv, 0) == txs
  {
    PendingAtStart(lv, |lv|);
  }

  lemma QueueAtEnd(txs: seq<Tx>, lv: seq<nat>, w: nat)
    requires |lv| == |txs| && |QueueTxs(txs, lv, w)| == 0
    ensures forall i :: 0 <= i < |txs| ==> lv[i] < w
  {
    PendingAscend(lv, w, |lv|);
    forall i: nat | i < |txs| ensures lv[i] < w {
      assert i !in Pending(lv, w, |lv|);
    }
  }

  /** The inner loop of `schedule`: one scan of the queue with its `touched` map. */
  method TakeWave(ghost txs: seq<Tx>, ghost lv: seq<nat>, ghost w: nat, queue: seq<Tx>)
    returns (currentWave: seq<Tx>, nextQueue: seq<Tx>)
    requires |lv| == |txs| && FirstFit(txs, lv) && queue == QueueTxs(txs, lv, w)
    ensures currentWave == WaveTxs(txs, lv, w)
    ensures nextQueue == QueueTxs(txs, lv, w + 1)
    ensures |queue| > 0 ==> |currentWave| > 0
    ensures |currentWave| + |nextQueue| == |queue|
  {
    currentWave, nextQueue := [], [];
    var touched: set<Address> := {};
    ScanGap(txs, lv, w, 0);
    for k := 0 to |queue|
      invariant Scan(currentWave, nextQueue, touched) == ScanTo(txs, lv, w, Bound(lv, w, k))
      invariant if k > 0 then currentWave != [] else touched == {}
      invariant |currentWave| + |nextQueue| == k
    {
      Queued(txs, lv, w, k);
      ScanDecision(txs, lv, w, Bound(lv, w, k));
      ScanGap(txs, lv, w, k + 1);
      var tx := queue[k];
      if tx.sender in touched || (tx.to.Some? && tx.to.value in touched) {
        nextQueue := nextQueue + [tx];
      } else {
        currentWave := currentWave + [tx];
        touched := touched + {tx.sender};
        if tx.to.Some? {
          touched := touched + {tx.to.value};
        }
      }
    }
    ScanDone(txs, lv, w);
  }

  // ---------- The theorem about `schedule` ----------

  ghost function EarlierClashes(txs: seq<Tx>, j: nat): (s: set<nat>) {
    set i: nat | i < j && Clash(txs, i, j)
  }

  /** The earlier clashing positions lying in the first `m` waves. */
  ghost function ClashesBelow(txs: seq<Tx>, lv: seq<nat>, j: nat, m: nat): (s: set<nat>)
    requires j <= |lv|
    ensures s <= EarlierClashes(txs, j)
  {
    set i: nat | i in EarlierClashes(txs, j) && lv[i] < m
  }

  lemma {:induction false} WaitBound(txs: seq<Tx>, lv: seq<nat>, j: nat, m: nat)
    requires FirstFit(txs, lv) && j < |lv| && m <= lv[j]
    ensures m <= |ClashesBelow(txs, lv, j, m)|
  {
    if m > 0 {
      WaitBound(txs, lv, j, m - 1);
      assert Blocked(txs, lv, j, m - 1);
      var i: nat :| i < j && Clash(txs, i, j) && lv[i] == m - 1;
      SubsetSize(ClashesBelow(txs, lv, j, m - 1) + {i}, ClashesBelow(txs, lv, j, m));
    }
  }

  lemma {:induction false} SubsetSize<T>(a: set<T>, b: set<T>)
    requires a <= b
    ensures |a| <= |b|
  {
    if a != {} {
      var x :| x in a;
      SubsetSize(a - {x}, b - {x});
    }
  }

  /** A wave lists, in block order, the positions of its level; their footprints are disjoint. */
  lemma WaveApart(txs: seq<Tx>, lv: seq<nat>, w: nat)
    requires FirstFit(txs, lv)
    ensures var wave := Members(lv, w, |lv|);
      && Ascending(wave, |lv|)
      && (forall i: nat :: i in wave <==> i < |lv| && lv[i] == w)
      && (forall i, j :: i in wave && j in wave && i != j ==> !Clash(txs, i, j))
  {
    var wave := Members(lv, w, |lv|);
    MembersAscend(lv, w, |lv|);
    forall i, j | i in wave && j in wave && i != j ensures !Clash(txs, i, j) {
      if Clash(txs, i, j) { ClashApart(txs, lv, i, j); }
    }
  }

  /** Each position is in exactly the wave its level names; inside a wave list order is kept and
      footprints are disjoint; and a transaction waits at most one wave for each earlier
      transaction it clashes with. */
  lemma ScheduleCorrect(txs: seq<Tx>, w: nat)
    ensures var lv := Levels(txs, |txs|);
      var wave := Members(lv, w, |txs|);
      && Ascending(wave, |txs|)
      && (forall i: nat :: i in wave <==> i < |txs| && lv[i] == w)
      && (forall i, j :: i in wave && j in wave && i != j ==> !Clash(txs, i, j))
      && (forall j: nat :: j < |txs| ==> lv[j] <= |EarlierClashes(txs, j)|)
  {
    var lv := Levels(txs, |txs|);
    LevelsFit(txs, |txs|);
    WaveApart(txs, lv, w);
    forall j: nat | j < |txs| ensures lv[j] <= |EarlierClashes(txs, j)| {
      WaitBound(txs, lv, j, lv[j]);
      SubsetSize(ClashesBelow(txs, lv, j, lv[j]), EarlierClashes(txs, j));
    }
  }
}
