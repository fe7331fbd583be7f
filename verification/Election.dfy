/** Weighted leader election: the validator whose cumulative stake first reaches the target. The
    comparison is `>=`, so the exact number of targets a position wins differs from its stake
    by one at the two ends of the list. */
module Election {
  import opened Base

  /** The sum of the first `n` stakes. */
  function Prefix(stakes: seq<int>, n: nat): (s: int)
    requires n <= |stakes|
  {
    if n == 0 then 0 else Prefix(stakes, n - 1) + stakes[n - 1]
  }

  /** The first position from `i` on whose cumulative stake reaches the target. */
  function Search(stakes: seq<int>, i: nat, target: int): (r: Option<nat>)
    requires i <= |stakes|
    ensures r.Some? ==> i <= r.value < |stakes| && Prefix(stakes, r.value + 1) >= target
    ensures forall j :: i < j <= (if r.Some? then r.value else |stakes|) ==> Prefix(stakes, j) < target
    decreases |stakes| - i
  {
    if i == |stakes| then None
    else if Prefix(stakes, i + 1) >= target then Some(i)
    else Search(stakes, i + 1, target)
  }

  /** The elected position; the first one when no cumulative stake reaches the target. */
  function Winner(stakes: seq<int>, target: int): (i: nat) {
    match Search(stakes, 0, target) case Some(i) => i case None => 0
  }

  ghost predicate Nonnegative(stakes: seq<int>) {
    forall i :: 0 <= i < |stakes| ==> stakes[i] >= 0
  }

  lemma {:induction false} PrefixMonotone(stakes: seq<int>, i: nat, j: nat)
    requires Nonnegative(stakes) && i <= j <= |stakes|
    ensures Prefix(stakes, i) <= Prefix(stakes, j)
  {
    if i < j { PrefixMonotone(stakes, i, j - 1); }
  }

  /** The fallback is never reached, and a position wins exactly the targets above the stake
      before it, up to the stake through it; the first position also wins target zero. */
  lemma WinnerInterval(stakes: seq<int>, target: int, i: nat)
    requires Nonnegative(stakes) && 0 <= target < Prefix(stakes, |stakes|) && i < |stakes|
    ensures Search(stakes, 0, target).Some?
    ensures Winner(stakes, target) == i <==> target <= Prefix(stakes, i + 1) && (i == 0 || Prefix(stakes, i) < target)
  {
    var w := Winner(stakes, target);
    if w < i {
      PrefixMonotone(stakes, w + 1, i);
    } else if i < w {
      assert Prefix(stakes, i + 1) < target;
    }
  }

  /** How many targets below `n` elect position `i`. */
  function Wins(stakes: seq<int>, i: nat, n: nat): (c: nat) {
    if n == 0 then 0 else Wins(stakes, i, n - 1) + if Winner(stakes, n - 1) == i then 1 else 0
  }

  function Min(a: int, b: int): int { if a < b then a else b }

  lemma {:induction false} WinsClosedForm(stakes: seq<int>, i: nat, n: nat)
    requires Nonnegative(stakes) && i < |stakes| && n <= Prefix(stakes, |stakes|)
    ensures Wins(stakes, i, n) ==
      Min(Prefix(stakes, i + 1) + 1, n) - if i == 0 then 0 else Min(Prefix(stakes, i) + 1, n)
  {
    PrefixMonotone(stakes, 0, i);
    PrefixMonotone(stakes, i, i + 1);
    if n > 0 {
      WinsClosedForm(stakes, i, n - 1);
      WinnerInterval(stakes, n - 1, i);
    }
  }

  /** The last position with a positive stake. */
  ghost predicate LastPositive(stakes: seq<int>, l: nat) {
    l < |stakes| && stakes[l] > 0 && forall j :: l < j < |stakes| ==> stakes[j] == 0
  }

  /** A positive total has a last positive stake. */
  lemma {:induction false} HasLastPositive(stakes: seq<int>) returns (l: nat)
    requires Nonnegative(stakes) && Prefix(stakes, |stakes|) > 0
    ensures LastPositive(stakes, l)
  {
    var n := |stakes| - 1;
    if stakes[n] > 0 {
      l := n;
    } else {
      PrefixOfInit(stakes, n);
      l := HasLastPositive(stakes[..n]);
    }
  }

  lemma {:induction false} PrefixOfInit(stakes: seq<int>, i: nat)
    requires i < |stakes|
    ensures Prefix(stakes[..|stakes| - 1], i) == Prefix(stakes, i)
  {
    if i > 0 { PrefixOfInit(stakes, i - 1); }
  }

  lemma {:induction false} PrefixAfterLast(stakes: seq<int>, l: nat, i: nat)
    requires LastPositive(stakes, l) && l < i <= |stakes|
    ensures Prefix(stakes, i) == Prefix(stakes, l + 1)
  {
    if l + 1 < i { PrefixAfterLast(stakes, l, i - 1); }
  }

  lemma WinsWithLast(stakes: seq<int>, total: nat, l: nat, i: nat)
    requires Nonnegative(stakes) && total == Prefix(stakes, |stakes|) && LastPositive(stakes, l) && i < |stakes|
    ensures Wins(stakes, i, total) == stakes[i] + (if i == 0 then 1 else 0) - (if i == l then 1 else 0)
  {
    WinsClosedForm(stakes, i, total);
    PrefixAfterLast(stakes, l, |stakes|);
    if i >= l { PrefixAfterLast(stakes, l, i + 1); }
    if i > l { PrefixAfterLast(stakes, l, i); }
    if i < l {
      PrefixMonotone(stakes, i + 1, l);
      assert Prefix(stakes, l + 1) == Prefix(stakes, l) + stakes[l];
    }
    PrefixMonotone(stakes, 0, i);
    if i == l { PrefixMonotone(stakes, 0, l); }
  }

  /** For nonnegative stakes with a positive total: there is a last position with a positive stake,
      and over all targets below the total each position wins exactly its stake, except that one
      unit moves from that position to the first; so a position without stake, other than the
      first, never wins. */
  lemma ExactWins(stakes: seq<int>, total: nat) returns (l: nat)
    requires Nonnegative(stakes) && total == Prefix(stakes, |stakes|) && total > 0
    ensures LastPositive(stakes, l)
    ensures forall i :: 0 <= i < |stakes| ==>
      Wins(stakes, i, total) == stakes[i] + (if i == 0 then 1 else 0) - (if i == l then 1 else 0)
  {
    l := HasLastPositive(stakes);
    forall i | 0 <= i < |stakes|
      ensures Wins(stakes, i, total) == stakes[i] + (if i == 0 then 1 else 0) - (if i == l then 1 else 0)
    {
      WinsWithLast(stakes, total, l, i);
    }
  }
}
