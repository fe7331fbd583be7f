/** The base fee of the next block: the rule of the Specification section of EIP-1559, with a
    floor of 1 Gwei below the gas target. */
module BaseFee {
  import opened Base

  const GWEI: nat := 1_000_000_000
  const ELASTICITY: nat := 2
  const DENOMINATOR: nat := 8

  datatype Header = Header(number: nat, gasLimit: nat, gasUsed: nat, baseFee: Option<nat>)

  function Target(h: Header): (t: nat) { h.gasLimit / ELASTICITY }

  /** `CalcBaseFee`. Past the fork, a zero gas target with gas used divides by zero. */
  function NextFee(london: nat, parent: Header): (fee: nat)
    requires parent.number < london || parent.baseFee.None? || Target(parent) > 0 || parent.gasUsed == 0
  {
    if parent.number < london || parent.baseFee.None? then GWEI
    else Adjust(parent.baseFee.value, parent.gasUsed, Target(parent))
  }

  /** The change for a gas distance `d` from the target: one division by target times
      denominator. */
  function Delta(fee: nat, d: nat, target: nat): (x: nat)
    requires target > 0
  {
    fee * d / (target * DENOMINATOR)
  }

  /** The adjustment proper. */
  function Adjust(fee: nat, used: nat, target: nat): (next: nat)
    requires target > 0 || used == 0
  {
    if used == target then fee
    else if used > target then
      var delta := Delta(fee, used - target, target);
      fee + if delta < 1 then 1 else delta
    else
      var delta := Delta(fee, target - used, target);
      if fee - delta < GWEI then GWEI else fee - delta
  }

  // ---------- Division ----------

  lemma DivDiv(a: nat, b: nat, c: nat)
    requires b > 0 && c > 0
    ensures b * c > 0 && a / (b * c) == a / b / c
  {
    var q, r := a / b / c, a / b % c;
    assert a / b == q * c + r;
    assert a == (q * c + r) * b + a % b;
    assert a == q * (b * c) + (r * b + a % b);
    assert r * b <= (c - 1) * b;
    assert (c - 1) * b == b * c - b;
    DivModUnique(a, b * c, q, r * b + a % b);
  }

  lemma DivMonotone(a: nat, b: nat, d: nat)
    requires a <= b && d > 0
    ensures a / d <= b / d
  {
    var x, y := a / d, b / d;
    assert x * d <= a && b < (y + 1) * d;
    assert x >= y + 1 ==> x * d >= (y + 1) * d;
  }

  lemma MulMonotone(a: nat, x: nat, y: nat)
    requires x <= y
    ensures a * x <= a * y
  {
  }

  lemma DeltaMonotone(fee: nat, c: nat, d: nat, target: nat)
    requires c <= d && target > 0
    ensures Delta(fee, c, target) <= Delta(fee, d, target)
  {
    MulMonotone(fee, c, d);
    DivMonotone(fee * c, fee * d, target * DENOMINATOR);
  }

  /** A full distance changes the fee by one eighth. */
  lemma DeltaFull(fee: nat, target: nat)
    requires target > 0
    ensures Delta(fee, target, target) == fee / DENOMINATOR
  {
    DivDiv(fee * target, target, DENOMINATOR);
    DivModUnique(fee * target, target, fee, 0);
  }

  // ---------- Properties of one step ----------

  /** The two divisions of EIP-1559, clamped below the target. */
  function EipFee(fee: nat, used: nat, target: nat): (next: int)
    requires target > 0
  {
    if used == target then fee
    else if used > target then
      var delta := fee * (used - target) / target / DENOMINATOR;
      fee + if delta > 1 then delta else 1
    else
      var next := fee - fee * (target - used) / target / DENOMINATOR;
      if next < GWEI then GWEI else next
  }

  lemma MatchesEip(fee: nat, used: nat, target: nat)
    requires target > 0
    ensures Adjust(fee, used, target) == EipFee(fee, used, target)
  {
    if used > target {
      DivDiv(fee * (used - target), target, DENOMINATOR);
    } else if used < target {
      DivDiv(fee * (target - used), target, DENOMINATOR);
    }
  }

  lemma FeeDirection(fee: nat, used: nat, target: nat)
    requires target > 0 && fee >= GWEI
    ensures used > target ==> Adjust(fee, used, target) > fee
    ensures used < target ==> GWEI <= Adjust(fee, used, target) <= fee
  {
    hide Delta;
  }

  /** More gas used never lowers the next fee. */
  lemma FeeMonotone(fee: nat, a: nat, b: nat, target: nat)
    requires target > 0 && fee >= GWEI && a <= b
    ensures Adjust(fee, a, target) <= Adjust(fee, b, target)
  {
    hide Delta;
    FeeDirection(fee, a, target);
    FeeDirection(fee, b, target);
    if b < target {
      DeltaMonotone(fee, target - b, target - a, target);
    } else if a > target {
      DeltaMonotone(fee, a - target, b - target, target);
    }
  }

  /** Up to twice the target the fee moves by at most one eighth. */
  lemma FeeMovesByAnEighth(fee: nat, used: nat, target: nat)
    requires target > 0 && fee >= GWEI && used <= 2 * target
    ensures fee - fee / DENOMINATOR <= Adjust(fee, used, target) <= fee + fee / DENOMINATOR
  {
    hide Delta;
    DeltaFull(fee, target);
    if used > target {
      DeltaMonotone(fee, used - target, target, target);
    } else if used < target {
      DeltaMonotone(fee, target - used, target, target);
    }
  }

  // ---------- The rule in a header's own fields ----------

  /** The next fee from fee, gas used and gas limit of the parent, written as the two divisions of
      EIP-1559 with elasticity 2, denominator 8 and a floor of 1 Gwei below the target. */
  function FeeRule(fee: nat, used: nat, limit: nat): (next: int)
    requires limit / 2 > 0
  {
    var target := limit / 2;
    if used > target then
      var up := fee * (used - target) / target / 8;
      fee + if up > 1 then up else 1
    else
      var down := fee * (target - used) / target / 8;
      if used < target && fee - down < 1_000_000_000 then 1_000_000_000 else fee - down
  }

  /** Past the fork, from a parent with a fee and a positive gas target, `CalcBaseFee` is that rule;
      before the fork, or without a fee, it is exactly 1 Gwei. */
  lemma NextFeeIs(london: nat, parent: Header)
    requires parent.number < london || parent.baseFee.None? || parent.gasLimit / 2 > 0 || parent.gasUsed == 0
    ensures parent.number < london || parent.baseFee.None? ==> NextFee(london, parent) == 1_000_000_000
    ensures parent.number >= london && parent.baseFee.Some? && parent.gasLimit / 2 > 0 ==>
      NextFee(london, parent) == FeeRule(parent.baseFee.value, parent.gasUsed, parent.gasLimit)
    ensures parent.number >= london && parent.baseFee.Some? && parent.gasLimit / 2 == 0 ==>
      NextFee(london, parent) == parent.baseFee.value
  {
    hide Adjust;
    if parent.number >= london && parent.baseFee.Some? {
      if Target(parent) > 0 {
        MatchesEip(parent.baseFee.value, parent.gasUsed, Target(parent));
        SameRule(parent.baseFee.value, parent.gasUsed, parent.gasLimit);
      } else {
        AtZero(parent.baseFee.value);
      }
    }
  }

  lemma AtZero(fee: nat)
    ensures Adjust(fee, 0, 0) == fee
  {
  }

  lemma SameRule(fee: nat, used: nat, limit: nat)
    requires limit / 2 > 0
    ensures EipFee(fee, used, limit / 2) == FeeRule(fee, used, limit)
  {
    if used == limit / 2 { assert fee * 0 / (limit / 2) / 8 == 0; }
  }

  // ---------- Chains of headers ----------

  /** Headers whose fees are computed from their parents, as the miner builds them. */
  ghost predicate Built(london: nat, hs: seq<Header>) {
    && (forall i :: 0 <= i < |hs| ==> Target(hs[i]) > 0)
    && (forall i :: 0 < i < |hs| ==> hs[i].baseFee == Some(NextFee(london, hs[i - 1])))
  }

  /** From a genesis fee that is absent or at least 1 Gwei, no fee ever falls below 1 Gwei. */
  lemma {:induction false} FeesAboveFloor(london: nat, hs: seq<Header>, i: nat)
    requires Built(london, hs) && 0 < i < |hs|
    requires hs[0].baseFee.Some? ==> hs[0].baseFee.value >= GWEI
    ensures hs[i].baseFee.Some? && hs[i].baseFee.value >= GWEI
  {
    if i > 1 { FeesAboveFloor(london, hs, i - 1); }
    var p := hs[i - 1];
    if p.baseFee.Some? { FeeDirection(p.baseFee.value, p.gasUsed, Target(p)); }
  }

  /** On a built chain past the fork, with fees of at least 1 Gwei, the fee rises exactly after more
      than half the gas limit is used, and falls only after less. */
  lemma FeeRisesExactly(london: nat, hs: seq<Header>, i: nat)
    requires Built(london, hs) && i + 1 < |hs| && hs[i].number >= london
    requires hs[i].baseFee.Some? && hs[i].baseFee.value >= 1_000_000_000
    ensures hs[i + 1].baseFee.Some?
    ensures hs[i + 1].baseFee.value > hs[i].baseFee.value <==> hs[i].gasUsed > hs[i].gasLimit / 2
    ensures hs[i + 1].baseFee.value < hs[i].baseFee.value ==> hs[i].gasUsed < hs[i].gasLimit / 2
    ensures hs[i + 1].baseFee.value == FeeRule(hs[i].baseFee.value, hs[i].gasUsed, hs[i].gasLimit)
  {
    hide Adjust, FeeRule;
    var h := hs[i];
    assert hs[i + 1].baseFee == Some(NextFee(london, h));
    assert Target(h) > 0;
    NextFeeIs(london, h);
    FeeDirection(h.baseFee.value, h.gasUsed, Target(h));
    if h.gasUsed == Target(h) { AtTarget(h.baseFee.value, Target(h)); }
  }

  lemma AtTarget(fee: nat, target: nat)
    requires target > 0
    ensures Adjust(fee, target, target) == fee
  {
  }

  /** The fee after `n` empty blocks. */
  function AfterEmpty(fee: nat, target: nat, n: nat): (r: nat)
    requires target > 0
  {
    if n == 0 then fee else Adjust(AfterEmpty(fee, target, n - 1), 0, target)
  }

  lemma EmptyStep(fee: nat, target: nat)
    requires target > 0 && fee >= GWEI
    ensures Adjust(fee, 0, target) == if fee - fee / DENOMINATOR < GWEI then GWEI else fee - fee / DENOMINATOR
  {
    DeltaFull(fee, target);
  }

  /** A run of empty blocks strictly lowers the fee until it is exactly 1 Gwei, which it reaches
      after at most one block per eighth of a Gwei above the floor, and holds. */
  lemma {:induction false} EmptyRunReachesFloor(fee: nat, target: nat, n: nat)
    requires target > 0 && fee >= GWEI
    ensures AfterEmpty(fee, target, n) >= GWEI
    ensures AfterEmpty(fee, target, n) > GWEI ==> AfterEmpty(fee, target, n + 1) < AfterEmpty(fee, target, n)
    ensures AfterEmpty(fee, target, n) == GWEI ==> AfterEmpty(fee, target, n + 1) == GWEI
    ensures AfterEmpty(fee, target, n) == GWEI || AfterEmpty(fee, target, n) + n * (GWEI / DENOMINATOR) <= fee
    ensures n * (GWEI / DENOMINATOR) > fee - GWEI ==> AfterEmpty(fee, target, n) == GWEI
  {
    if n > 0 {
      EmptyRunReachesFloor(fee, target, n - 1);
      EmptyStep(AfterEmpty(fee, target, n - 1), target);
    }
    EmptyStep(AfterEmpty(fee, target, n), target);
  }

  // ---------- Empty blocks on a chain ----------

  /** The headers from `i` to before `i + n` used no gas. */
  ghost predicate EmptyRun(hs: seq<Header>, i: nat, n: nat) {
    i + n < |hs| && forall j :: i <= j < i + n ==> hs[j].gasUsed == 0
  }

  /** The gas limit does not matter to an empty block. */
  lemma EmptyTargets(fee: nat, target: nat, target': nat)
    requires target > 0 && target' > 0 && fee >= GWEI
    ensures Adjust(fee, 0, target) == Adjust(fee, 0, target')
  {
    EmptyStep(fee, target);
    EmptyStep(fee, target');
  }

  /** Along a built chain the fee after `n` empty headers is that of `n` empty blocks, whatever
      the later gas limits. */
  lemma {:induction false} EmptyHeaders(london: nat, hs: seq<Header>, i: nat, n: nat)
    requires Built(london, hs) && EmptyRun(hs, i, n) && forall j :: i <= j < i + n ==> hs[j].number >= london
    requires hs[i].baseFee.Some? && hs[i].baseFee.value >= GWEI
    ensures hs[i + n].baseFee == Some(AfterEmpty(hs[i].baseFee.value, Target(hs[i]), n))
  {
    if n > 0 {
      EmptyHeaders(london, hs, i, n - 1);
      var p := hs[i + n - 1];
      var fee := AfterEmpty(hs[i].baseFee.value, Target(hs[i]), n - 1);
      EmptyRunReachesFloor(hs[i].baseFee.value, Target(hs[i]), n - 1);
      EmptyTargets(fee, Target(p), Target(hs[i]));
      assert hs[i + n].baseFee == Some(NextFee(london, p));
    }
  }

  /** One empty header on a built chain: before the fork the fee is the floor, after it the fee
      falls by an eighth, to the floor at least. */
  lemma EmptyHeader(london: nat, hs: seq<Header>, i: nat)
    requires Built(london, hs) && i + 1 < |hs| && hs[i].gasUsed == 0
    requires hs[i].baseFee.Some? && hs[i].baseFee.value >= GWEI
    ensures hs[i + 1].baseFee.Some? && GWEI <= hs[i + 1].baseFee.value
    ensures hs[i].baseFee.value > GWEI ==> hs[i + 1].baseFee.value < hs[i].baseFee.value
    ensures hs[i].baseFee.value == GWEI ==> hs[i + 1].baseFee.value == GWEI
    ensures hs[i + 1].baseFee.value == GWEI || hs[i + 1].baseFee.value + GWEI / DENOMINATOR <= hs[i].baseFee.value
  {
    EmptyStep(hs[i].baseFee.value, Target(hs[i]));
    assert hs[i + 1].baseFee == Some(NextFee(london, hs[i]));
  }

  /** An empty block between two headers: above the floor the fee falls, at the floor it stays. */
  predicate Falls(h: Header, next: Header) {
    && h.baseFee.Some? && next.baseFee.Some?
    && (h.baseFee.value > GWEI ==> next.baseFee.value < h.baseFee.value)
    && (h.baseFee.value == GWEI ==> next.baseFee.value == GWEI)
  }

  /** Along every built chain, a long enough run of empty headers brings the fee down, strictly,
      to exactly 1 Gwei, and holds it there. */
  lemma {:induction false} EmptyHeadersReachFloor(london: nat, hs: seq<Header>, i: nat, n: nat)
    requires Built(london, hs) && EmptyRun(hs, i, n)
    requires hs[i].baseFee.Some? && hs[i].baseFee.value >= GWEI
    ensures hs[i + n].baseFee.Some?
    ensures forall j, k :: i <= j < i + n && k == j + 1 ==> Falls(hs[j], hs[k])
    ensures hs[i + n].baseFee.value == GWEI ||
      (hs[i + n].baseFee.value > GWEI && hs[i + n].baseFee.value + n * (GWEI / DENOMINATOR) <= hs[i].baseFee.value)
    ensures n * (GWEI / DENOMINATOR) > hs[i].baseFee.value - GWEI ==> hs[i + n].baseFee.value == GWEI
  {
    if n > 0 {
      EmptyHeadersReachFloor(london, hs, i, n - 1);
      EmptyHeader(london, hs, i + n - 1);
    }
  }
}
