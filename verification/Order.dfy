/** When the waves keep block order. Deferred transactions do not mark `touched`, so a later
    transaction can overtake an earlier one it conflicts with; this module says exactly when
    that does not happen. */
module Order {
  import opened Base
  import opened Scheduler

  /** Conflicting transactions run in block order. */
  ghost predicate OrderKept(txs: seq<Tx>, lv: seq<nat>) {
    forall i: nat, j: nat :: i < j < |lv| && Clash(txs, i, j) ==> lv[i] < lv[j]
  }

  /** Dependency depth: the length of the longest chain of conflicts ending at a position. */
  ghost predicate IsDepth(txs: seq<Tx>, dp: seq<nat>) {
    && |dp| <= |txs|
    && (forall i: nat, j: nat :: i < j < |dp| && Clash(txs, i, j) ==> dp[i] < dp[j])
    && (forall j: nat :: j < |dp| && dp[j] > 0 ==> Blocked(txs, dp, j, dp[j] - 1))
  }

  /** Every transaction conflicts directly with an earlier one at each depth below those of the
      earlier transactions it conflicts with. */
  ghost predicate GapFree(txs: seq<Tx>, dp: seq<nat>) {
    forall j: nat, k: nat, d: nat :: j < k < |dp| && Clash(txs, j, k) && d < dp[j] ==> Blocked(txs, dp, k, d)
  }

  // ---------- Depths exist and are unique ----------

  ghost function Depths(txs: seq<Tx>, n: nat): (dp: seq<nat>)
    requires n <= |txs|
    ensures |dp| == n
  {
    if n == 0 then [] else
      var dp := Depths(txs, n - 1);
      dp + [DepthOver(txs, dp, n - 1, n - 1)]
  }

  /** One more than the greatest depth among the first `m` positions clashing with `i`. */
  ghost function DepthOver(txs: seq<Tx>, dp: seq<nat>, i: nat, m: nat): (d: nat)
    requires m <= i <= |dp|
  {
    if m == 0 then 0 else
      var d := DepthOver(txs, dp, i, m - 1);
      if Clash(txs, m - 1, i) && dp[m - 1] >= d then dp[m - 1] + 1 else d
  }

  lemma {:induction false} DepthOverIsMax(txs: seq<Tx>, dp: seq<nat>, i: nat, m: nat)
    requires m <= i <= |dp|
    ensures forall j: nat :: j < m && Clash(txs, j, i) ==> dp[j] < DepthOver(txs, dp, i, m)
    ensures DepthOver(txs, dp, i, m) > 0 ==> Blocked(txs, dp, i, DepthOver(txs, dp, i, m) - 1)
  {
    if m > 0 { DepthOverIsMax(txs, dp, i, m - 1); }
  }

  lemma DepthSnoc(txs: seq<Tx>, dp: seq<nat>, d: nat)
    requires IsDepth(txs, dp) && |dp| < |txs|
    requires forall j: nat :: j < |dp| && Clash(txs, j, |dp|) ==> dp[j] < d
    requires d > 0 ==> Blocked(txs, dp, |dp|, d - 1)
    ensures IsDepth(txs, dp + [d])
  {
    hide Clash;
    var dp' := dp + [d];
    forall i: nat, j: nat | i < j < |dp'| && Clash(txs, i, j) ensures dp'[i] < dp'[j] {}
    forall j: nat | j < |dp'| && dp'[j] > 0 ensures Blocked(txs, dp', j, dp'[j] - 1) {
      BlockedSnoc(txs, dp, d, j, dp'[j] - 1);
    }
  }

  lemma DepthsStart(txs: seq<Tx>)
    ensures IsDepth(txs, Depths(txs, 0))
  {
  }

  lemma DepthsStep(txs: seq<Tx>, n: nat)
    requires n < |txs|
    ensures Depths(txs, n + 1) == Depths(txs, n) + [DepthOver(txs, Depths(txs, n), n, n)]
  {
  }

  lemma {:induction false} DepthsExist(txs: seq<Tx>, n: nat)
    requires n <= |txs|
    ensures IsDepth(txs, Depths(txs, n))
  {
    hide *;
    if n == 0 {
      DepthsStart(txs);
    } else {
      DepthsExist(txs, n - 1);
      DepthsStep(txs, n - 1);
      var dp := Depths(txs, n - 1);
      DepthOverIsMax(txs, dp, n - 1, n - 1);
      DepthSnoc(txs, dp, DepthOver(txs, dp, n - 1, n - 1));
    }
  }

  lemma {:induction false} DepthUnique(txs: seq<Tx>, a: seq<nat>, b: seq<nat>, i: nat)
    requires IsDepth(txs, a) && IsDepth(txs, b) && |a| == |b| && i < |a|
    ensures a[i] <= b[i]
  {
    if a[i] > 0 {
      assert Blocked(txs, a, i, a[i] - 1);
      var j: nat :| j < i && Clash(txs, j, i) && a[j] == a[i] - 1;
      DepthUnique(txs, a, b, j);
    }
  }

  lemma DepthsEqual(txs: seq<Tx>, a: seq<nat>, b: seq<nat>)
    requires IsDepth(txs, a) && IsDepth(txs, b) && |a| == |b|
    ensures a == b
  {
    forall i | 0 <= i < |a| ensures a[i] == b[i] {
      DepthUnique(txs, a, b, i);
      DepthUnique(txs, b, a, i);
    }
  }

  // ---------- The exact condition ----------

  lemma OrderNeedsGapFree(txs: seq<Tx>, lv: seq<nat>, dp: seq<nat>)
    requires FirstFit(txs, lv) && IsDepth(txs, dp) && |lv| == |dp|
    requires OrderKept(txs, lv)
    ensures GapFree(txs, dp)
  {
    assert IsDepth(txs, lv);
    DepthsEqual(txs, lv, dp);
  }

  lemma GapFreeFits(txs: seq<Tx>, dp: seq<nat>)
    requires IsDepth(txs, dp) && GapFree(txs, dp)
    ensures FirstFit(txs, dp)
  {
    forall k: nat, v: nat | k < |dp| && v < dp[k] ensures Blocked(txs, dp, k, v) {
      assert Blocked(txs, dp, k, dp[k] - 1);
      var j: nat :| j < k && Clash(txs, j, k) && dp[j] == dp[k] - 1;
    }
  }

  /** The waves keep the order of conflicting transactions exactly when dependency depths are
      gap free: a condition on the block's conflict graph alone. */
  lemma OrderKeptExactly(txs: seq<Tx>)
    ensures OrderKept(txs, Levels(txs, |txs|)) <==> GapFree(txs, Depths(txs, |txs|))
  {
    var lv, dp := Levels(txs, |txs|), Depths(txs, |txs|);
    LevelsFit(txs, |txs|);
    DepthsExist(txs, |txs|);
    if OrderKept(txs, lv) {
      OrderNeedsGapFree(txs, lv, dp);
    }
    if GapFree(txs, dp) {
      GapFreeFits(txs, dp);
      FirstFitUnique(txs, lv, dp, |txs|);
      assert lv == lv[..|txs|] == dp[..|txs|] == dp;
    }
  }

  ghost predicate Transitive(txs: seq<Tx>) {
    forall i: nat, j: nat, k: nat :: Clash(txs, i, j) && Clash(txs, j, k) ==> Clash(txs, i, k)
  }

  lemma {:induction false} ChainDown(txs: seq<Tx>, dp: seq<nat>, j: nat, d: nat)
    requires IsDepth(txs, dp) && Transitive(txs) && j < |dp| && d < dp[j]
    ensures Blocked(txs, dp, j, d)
    decreases dp[j]
  {
    assert Blocked(txs, dp, j, dp[j] - 1);
    var i: nat :| i < j && Clash(txs, i, j) && dp[i] == dp[j] - 1;
    if d < dp[i] {
      ChainDown(txs, dp, i, d);
      var h: nat :| h < i && Clash(txs, h, i) && dp[h] == d;
      assert Clash(txs, h, j);
    }
  }

  /** A transitive conflict relation keeps block order. */
  lemma TransitiveKeepsOrder(txs: seq<Tx>)
    requires Transitive(txs)
    ensures OrderKept(txs, Levels(txs, |txs|))
  {
    var dp := Depths(txs, |txs|);
    DepthsExist(txs, |txs|);
    forall j: nat, k: nat, d: nat | j < k < |dp| && Clash(txs, j, k) && d < dp[j]
      ensures Blocked(txs, dp, k, d)
    {
      ChainDown(txs, dp, j, d);
      var i: nat :| i < j && Clash(txs, i, j) && dp[i] == d;
      assert Clash(txs, i, k);
    }
    OrderKeptExactly(txs);
  }

  /** A -> B, B -> C, C -> D: the third transaction overtakes the second. */
  lemma OvertakingExample(txs: seq<Tx>)
    requires |txs| == 3
    requires forall i :: 0 <= i < 3 ==> txs[i].sender == i && txs[i].to == Some(i + 1)
    ensures Levels(txs, 3) == [0, 1, 0]
    ensures Clash(txs, 1, 2) && !OrderKept(txs, Levels(txs, 3))
  {
    var lv := [0, 1, 0];
    assert 1 in Footprint(txs[0]) && 1 in Footprint(txs[1]);
    assert 2 in Footprint(txs[1]) && 2 in Footprint(txs[2]);
    assert Clash(txs, 0, 1) && Clash(txs, 1, 2) && !Clash(txs, 0, 2);
    assert lv[0] == 0;
    assert Blocked(txs, lv, 1, 0);
    assert FirstFit(txs, lv);
    LevelsFit(txs, 3);
    FirstFitUnique(txs, Levels(txs, 3), lv, 3);
    assert Levels(txs, 3) == Levels(txs, 3)[..3] == lv[..3] == lv;
  }
}
