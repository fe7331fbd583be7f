/** The Zelius engine: the validator set, the fault threshold, non-compliance counts and the
    cached leader schedule. Every operation keeps each cached leader equal to the one the
    current set elects. */
module Consensus {
  import opened Base
  import opened Election
  import opened Accounts
  import opened StateStore
  import opened SystemContracts

  datatype Validator = Validator(addr: Address, stake: int)

  function StakesOf(vs: seq<Validator>): (s: seq<int>)
    ensures |s| == |vs| && forall i :: 0 <= i < |vs| ==> s[i] == vs[i].stake
  {
    seq(|vs|, i requires 0 <= i < |vs| => vs[i].stake)
  }

  /** The leader of a view, computed afresh. `seed` is the Keccak hash of the view number;
      `big.Int.Mod` is the Euclidean remainder. */
  function Leader(seed: nat -> nat, vs: seq<Validator>, view: nat): (a: Address)
    requires vs != []
  {
    var total := Prefix(StakesOf(vs), |vs|);
    if total == 0 then vs[view % |vs|].addr else vs[Winner(StakesOf(vs), seed(view) % total)].addr
  }

  // ---------- Who leads ----------

  ghost predicate Staked(vs: seq<Validator>) {
    Nonnegative(StakesOf(vs)) && Prefix(StakesOf(vs), |vs|) > 0
  }

  /** The target lies above the stakes before position `i` and not above the stakes through it; the
      first position also has target zero. */
  ghost predicate FallsOn(vs: seq<Validator>, i: nat, target: nat)
    requires i < |vs|
  {
    target <= Prefix(StakesOf(vs), i + 1) && (i == 0 || Prefix(StakesOf(vs), i) < target)
  }

  /** The answer for a view, in terms of the hash of the view and the stakes in order. */
  ghost predicate Elects(seed: nat -> nat, vs: seq<Validator>, view: nat, a: Address) {
    && (Staked(vs) ==> forall i :: 0 <= i < |vs| ==>
          (a == vs[i].addr <==> FallsOn(vs, i, seed(view) % Prefix(StakesOf(vs), |vs|))))
    && (Prefix(StakesOf(vs), |vs|) == 0 && vs != [] ==> a == vs[view % |vs|].addr)
  }

  lemma LeaderIsWinner(seed: nat -> nat, vs: seq<Validator>, view: nat, i: nat)
    requires Unique(vs) && Staked(vs) && i < |vs|
    ensures Leader(seed, vs, view) == vs[i].addr <==> FallsOn(vs, i, seed(view) % Prefix(StakesOf(vs), |vs|))
  {
    var stakes := StakesOf(vs);
    var w := Winner(stakes, seed(view) % Prefix(stakes, |vs|));
    WinnerInterval(stakes, seed(view) % Prefix(stakes, |vs|), i);
    if w < i { assert vs[w].addr != vs[i].addr; } else if i < w { assert vs[i].addr != vs[w].addr; }
  }

  /** In a duplicate-free set with stake a position leads a view exactly when the hash of the view,
      modulo the total, lies above the stakes before it and not above the stakes through it, or
      is zero and the position is the first; without stake the views rotate. */
  lemma LeaderElects(seed: nat -> nat, vs: seq<Validator>, view: nat)
    requires Unique(vs) && vs != []
    ensures Elects(seed, vs, view, Leader(seed, vs, view))
  {
    hide FallsOn;
    if Staked(vs) {
      forall i | 0 <= i < |vs|
        ensures Leader(seed, vs, view) == vs[i].addr <==> FallsOn(vs, i, seed(view) % Prefix(StakesOf(vs), |vs|))
      {
        LeaderIsWinner(seed, vs, view, i);
      }
    }
  }

  function Hashing(h: nat): (seed: nat -> nat) { (view: nat) => h }

  /** How many hash values below `n` make an address the leader of a view. */
  function Leads(vs: seq<Validator>, view: nat, a: Address, n: nat): (c: nat)
    requires vs != []
  {
    if n == 0 then 0 else Leads(vs, view, a, n - 1) + if Leader(Hashing(n - 1), vs, view) == a then 1 else 0
  }

  lemma {:induction false} LeadsAreWins(vs: seq<Validator>, view: nat, i: nat, n: nat)
    requires Unique(vs) && Staked(vs) && i < |vs| && n <= Prefix(StakesOf(vs), |vs|)
    ensures Leads(vs, view, vs[i].addr, n) == Wins(StakesOf(vs), i, n)
  {
    hide Leader;
    if n > 0 {
      LeadsAreWins(vs, view, i, n - 1);
      LeaderIsWinner(Hashing(n - 1), vs, view, i);
      SmallMod(n - 1, Prefix(StakesOf(vs), |vs|));
      WinnerInterval(StakesOf(vs), n - 1, i);
    }
  }

  /** Over all hash values below the total, every validator leads as often as it has stake, except
      that one unit moves from the last validator with stake to the first one listed. */
  lemma LeadsItsStake(vs: seq<Validator>, view: nat) returns (l: nat)
    requires Unique(vs) && Staked(vs)
    ensures l < |vs| && vs[l].stake > 0 && forall j :: l < j < |vs| ==> vs[j].stake == 0
    ensures forall i :: 0 <= i < |vs| ==>
      Leads(vs, view, vs[i].addr, Prefix(StakesOf(vs), |vs|)) ==
      vs[i].stake + (if i == 0 then 1 else 0) - (if i == l then 1 else 0)
  {
    var total: nat := Prefix(StakesOf(vs), |vs|);
    l := ExactWins(StakesOf(vs), total);
    forall i | 0 <= i < |vs|
      ensures Leads(vs, view, vs[i].addr, total) ==
        vs[i].stake + (if i == 0 then 1 else 0) - (if i == l then 1 else 0)
    {
      LeadsAreWins(vs, view, i, total);
    }
  }

  // ---------- The engine as a state machine ----------

  datatype Engine = Engine(validators: seq<Validator>, f: int, schedule: map<nat, Address>, strikes: map<Address, nat>)

  /** f = (n - 1) / 3, with Go's division. */
  function Threshold(n: nat): (f: int) { if n == 0 then 0 else (n - 1) / 3 }

  /** `NewZelius`. */
  function NewEngine(vs: seq<Validator>): (e: Engine) { Engine(vs, Threshold(|vs|), map[], map[]) }

  function IndexOf(vs: seq<Validator>, a: Address): (r: Option<nat>)
    ensures r.Some? ==> r.value < |vs| && vs[r.value].addr == a
    ensures r.None? ==> forall i :: 0 <= i < |vs| ==> vs[i].addr != a
  {
    if vs == [] then None else if vs[0].addr == a then Some(0) else
      match IndexOf(vs[1..], a)
      case Some(i) => Some(i + 1)
      case None => None
  }

  /** A changed set clears the schedule. */
  function WithSet(e: Engine, vs: seq<Validator>): (r: Engine) {
    e.(validators := vs, f := Threshold(|vs|), schedule := map[])
  }

  /** `AddValidator`: a known validator's stake grows, a new one is appended. */
  function Added(e: Engine, a: Address, stake: int): (r: Engine) {
    match IndexOf(e.validators, a)
    case Some(i) =>
      e.(validators := e.validators[i := Validator(a, e.validators[i].stake + stake)], schedule := map[])
    case None => WithSet(e, e.validators + [Validator(a, stake)])
  }

  /** `RemoveValidator` and `Slash`: the last validator is never removed. */
  function Removed(e: Engine, a: Address): (r: Engine) {
    if |e.validators| <= 1 then e else
      match IndexOf(e.validators, a)
      case Some(i) => WithSet(e, e.validators[..i] + e.validators[i + 1..])
      case None => e
  }

  /** `RecordNonCompliance`: a thousand strikes and the validator is slashed. */
  function Struck(e: Engine, a: Address): (r: Engine) {
    var n := (if a in e.strikes then e.strikes[a] else 0) + 1;
    var e1 := e.(strikes := e.strikes[a := n]);
    if n >= 1000 then Removed(e1, a) else e1
  }

  /** `GetLeader`: the schedule is filled on demand, except by the zero-stake rotation. */
  function Queried(seed: nat -> nat, e: Engine, view: nat): (r: Engine)
    requires e.validators != []
  {
    if view in e.schedule || Prefix(StakesOf(e.validators), |e.validators|) == 0 then e
    else e.(schedule := e.schedule[view := Leader(seed, e.validators, view)])
  }

  ghost predicate Unique(vs: seq<Validator>) {
    forall i, j :: 0 <= i < j < |vs| ==> vs[i].addr != vs[j].addr
  }

  /** The engine's invariant. */
  ghost predicate Coherent(seed: nat -> nat, e: Engine) {
    && e.validators != [] && Unique(e.validators)
    && e.f == (|e.validators| - 1) / 3
    && (forall view :: view in e.schedule ==> e.schedule[view] == Leader(seed, e.validators, view))
  }

  datatype Op =
    | Add(a: Address, stake: int)
    | Remove(a: Address)
    | Strike(a: Address)
    | Sync(vs: seq<Validator>)
    | Query(view: nat)

  function Step(seed: nat -> nat, e: Engine, op: Op): (r: Engine)
    requires e.validators != []
  {
    match op
    case Add(a, stake) => Added(e, a, stake)
    case Remove(a) => Removed(e, a)
    case Strike(a) => Struck(e, a)
    case Sync(vs) => WithSet(e, vs)
    case Query(view) => Queried(seed, e, view)
  }

  /** A sync with a nonzero count must bring a nonempty duplicate-free set. */
  ghost predicate GoodOp(op: Op) {
    op.Sync? ==> op.vs != [] && Unique(op.vs)
  }

  lemma AddedCoherent(seed: nat -> nat, e: Engine, a: Address, stake: int)
    requires Coherent(seed, e)
    ensures Coherent(seed, Added(e, a, stake))
  {
    hide Leader;
  }

  lemma RemovedCoherent(seed: nat -> nat, e: Engine, a: Address)
    requires Coherent(seed, e)
    ensures Coherent(seed, Removed(e, a))
  {
    hide Leader;
  }

  lemma StruckCoherent(seed: nat -> nat, e: Engine, a: Address)
    requires Coherent(seed, e)
    ensures Coherent(seed, Struck(e, a))
  {
    hide Leader, Removed;
    var n := (if a in e.strikes then e.strikes[a] else 0) + 1;
    RemovedCoherent(seed, e.(strikes := e.strikes[a := n]), a);
  }

  /** Each operation keeps the invariant. */
  lemma StepCoherent(seed: nat -> nat, e: Engine, op: Op)
    requires Coherent(seed, e) && GoodOp(op)
    ensures Coherent(seed, Step(seed, e, op))
  {
    hide Leader, Added, Removed, Struck;
    match op
    case Add(a, stake) => AddedCoherent(seed, e, a, stake);
    case Remove(a) => RemovedCoherent(seed, e, a);
    case Strike(a) => StruckCoherent(seed, e, a);
    case Sync(vs) =>
    case Query(view) =>
  }

  ghost predicate Reach(seed: nat -> nat, e: Engine, ops: seq<Op>, r: Engine)
    decreases |ops|
  {
    if ops == [] then r == e
    else e.validators != [] && Reach(seed, Step(seed, e, ops[0]), ops[1..], r)
  }

  /** Over every sequence of operations from a nonempty duplicate-free set, every cached leader
      is the one the current set elects, the set stays nonempty and duplicate-free, and the
      threshold is (n - 1) / 3. */
  lemma {:induction false} EveryRunCoherent(seed: nat -> nat, e: Engine, ops: seq<Op>, r: Engine)
    requires Coherent(seed, e) && Reach(seed, e, ops, r)
    requires forall i :: 0 <= i < |ops| ==> GoodOp(ops[i])
    ensures Coherent(seed, r)
    decreases |ops|
  {
    if ops != [] {
      StepCoherent(seed, e, ops[0]);
      EveryRunCoherent(seed, Step(seed, e, ops[0]), ops[1..], r);
    }
  }

  /** So after every such run every cached leader is the one the stakes and the hash of its view
      elect from the current set. */
  lemma EveryCachedLeaderElected(seed: nat -> nat, e: Engine, ops: seq<Op>, r: Engine, view: nat)
    requires Coherent(seed, e) && Reach(seed, e, ops, r) && forall i :: 0 <= i < |ops| ==> GoodOp(ops[i])
    requires view in r.schedule
    ensures Elects(seed, r.validators, view, r.schedule[view])
  {
    hide Elects, Leader, Reach;
    EveryRunCoherent(seed, e, ops, r);
    LeaderElects(seed, r.validators, view);
  }

  // ---------- The engine as an object ----------

  class ZeliusEngine {
    const seed: nat -> nat
    var validators: seq<Validator>
    var f: int
    var leaderSchedule: map<nat, Address>
    var nonCompliant: map<Address, nat>

    ghost function State(): (e: Engine)
      reads this
    {
      Engine(validators, f, leaderSchedule, nonCompliant)
    }

    constructor (vs: seq<Validator>, seed: nat -> nat)
      ensures State() == NewEngine(vs) && this.seed == seed
      ensures vs != [] && Unique(vs) ==> Coherent(seed, State())
    {
      this.seed := seed;
      validators := vs;
      f := Threshold(|vs|);
      leaderSchedule := map[];
      nonCompliant := map[];
    }

    /** The scan for an address that `AddValidator` and `RemoveValidator` start with. */
    method Locate(a: Address) returns (r: Option<nat>)
      ensures r == IndexOf(validators, a)
    {
      for i := 0 to |validators|
        invariant forall j :: 0 <= j < i ==> validators[j].addr != a
      {
        if validators[i].addr == a {
          IndexFirst(validators, a, i);
          return Some(i);
        }
      }
      return None;
    }

    method AddValidator(a: Address, stake: int)
      modifies this
      ensures State() == Added(old(State()), a, stake)
    {
      var at := Locate(a);
      if at.Some? {
        validators := validators[at.value := Validator(a, validators[at.value].stake + stake)];
        RecalculateSchedule();
        return;
      }
      validators := validators + [Validator(a, stake)];
      f := Threshold(|validators|);
      RecalculateSchedule();
    }

    method RemoveValidator(a: Address)
      modifies this
      ensures State() == Removed(old(State()), a)
    {
      if |validators| <= 1 {
        return;
      }
      var at := Locate(a);
      if at.Some? {
        validators := validators[..at.value] + validators[at.value + 1..];
        f := Threshold(|validators|);
        RecalculateSchedule();
      }
    }

    method RecordNonCompliance(a: Address)
      modifies this
      ensures State() == Struck(old(State()), a)
    {
      var n := if a in nonCompliant then nonCompliant[a] else 0;
      nonCompliant := nonCompliant[a := n + 1];
      if nonCompliant[a] >= 1000 {
        RemoveValidator(a);
      }
    }

    method RecalculateSchedule()
      modifies this`leaderSchedule
      ensures leaderSchedule == map[]
    {
      leaderSchedule := map[];
    }

    /** `GetLeader`: whatever the schedule holds, the answer is the leader the current set
        elects. */
    method GetLeader(view: nat) returns (leader: Address)
      requires Coherent(seed, State())
      modifies this
      ensures Elects(seed, old(validators), view, leader) && leader == Leader(seed, old(validators), view)
      ensures State() == Queried(seed, old(State()), view) && Coherent(seed, State())
      ensures Staked(validators) ==> view in leaderSchedule && leaderSchedule[view] == leader
    {
      hide Elects;
      LeaderElects(seed, validators, view);
      if view in leaderSchedule {
        return leaderSchedule[view];
      }
      var totalStake := TotalStake(validators);
      if totalStake == 0 {
        return validators[view % |validators|].addr;
      }
      var winner := FirstReaching(validators, seed(view) % totalStake);
      leader := validators[match winner case Some(i) => i case None => 0].addr;
      leaderSchedule := leaderSchedule[view := leader];
    }

    /** `SyncValidators`: replaces the set by what the registry of a state lists, read with the
        reader's own contract addresses. A zero count changes nothing. */
    method SyncValidators(s: StateDb, validatorAddr: Address, stakingAddr: Address, ghost w: World)
      requires s.Valid() && Reads(s.View(), w) && validatorAddr < TWO_160 && stakingAddr < TWO_160
      modifies this
      ensures var count := At(w, validatorAddr, 0);
        State() == if count == 0 then old(State())
                   else WithSet(old(State()), ReadSet(w, validatorAddr, stakingAddr, count % TWO_64))
    {
      var count := ReadWord(s, validatorAddr, 0, w);
      if count == 0 {
        return;
      }
      var newValidators := ReadValidators(s, validatorAddr, stakingAddr, count % TWO_64, w);
      validators := newValidators;
      f := Threshold(|validators|);
      RecalculateSchedule();
    }
  }

  /** The first loop of `GetLeader`. */
  method TotalStake(vs: seq<Validator>) returns (total: int)
    ensures total == Prefix(StakesOf(vs), |vs|)
  {
    total := 0;
    for i := 0 to |vs|
      invariant total == Prefix(StakesOf(vs), i)
    {
      total := total + vs[i].stake;
    }
  }

  /** The second loop of `GetLeader`: the first validator whose cumulative stake reaches the
      target; none sends the caller to the fallback. */
  method FirstReaching(vs: seq<Validator>, target: int) returns (r: Option<nat>)
    ensures r == Search(StakesOf(vs), 0, target)
  {
    ghost var stakes := StakesOf(vs);
    var current := 0;
    for i := 0 to |vs|
      invariant current == Prefix(stakes, i)
      invariant Search(stakes, 0, target) == Search(stakes, i, target)
    {
      current := current + vs[i].stake;
      if current >= target {
        return Some(i);
      }
    }
    return None;
  }

  /** The loop of `SyncValidators` over the registry slots. */
  method ReadValidators(s: StateDb, validatorAddr: Address, stakingAddr: Address, n: nat, ghost w: World)
    returns (vs: seq<Validator>)
    requires s.Valid() && Reads(s.View(), w) && validatorAddr < TWO_160 && stakingAddr < TWO_160 && n < TWO_64
    ensures vs == ReadSet(w, validatorAddr, stakingAddr, n)
  {
    hide Reads;
    vs := [];
    for i := 0 to n
      invariant vs == ReadSet(w, validatorAddr, stakingAddr, i)
    {
      var addrWord := ReadWord(s, validatorAddr, i + 1, w);
      var addr := addrWord % TWO_160;
      var stake := ReadWord(s, stakingAddr, addr, w);
      vs := vs + [Validator(addr, stake)];
    }
  }

  lemma {:induction false} IndexFirst(vs: seq<Validator>, a: Address, i: nat)
    requires i < |vs| && vs[i].addr == a && forall j :: 0 <= j < i ==> vs[j].addr != a
    ensures IndexOf(vs, a) == Some(i)
  {
    if i > 0 { IndexFirst(vs[1..], a, i - 1); }
  }

  /** The first `n` registry slots, each with the stake the reader finds. */
  function ReadSet(w: World, validatorAddr: Address, stakingAddr: Address, n: nat): (vs: seq<Validator>)
    ensures |vs| == n
  {
    if n == 0 then [] else
      var addr := At(w, validatorAddr, n) % TWO_160;
      ReadSet(w, validatorAddr, stakingAddr, n - 1) + [Validator(addr, At(w, stakingAddr, addr))]
  }

  // ---------- What the operations do to the set ----------

  /** The stake the set records for an address. */
  function StakeIn(vs: seq<Validator>, a: Address): (s: Option<int>) {
    match IndexOf(vs, a) case Some(i) => Some(vs[i].stake) case None => None
  }

  lemma StakeAt(vs: seq<Validator>, i: nat)
    requires Unique(vs) && i < |vs|
    ensures StakeIn(vs, vs[i].addr) == Some(vs[i].stake)
  {
    IndexFirst(vs, vs[i].addr, i);
  }

  lemma StakeAbsent(vs: seq<Validator>, a: Address)
    requires forall i :: 0 <= i < |vs| ==> vs[i].addr != a
    ensures StakeIn(vs, a).None?
  {
  }

  /** Adding grows the stake of one address, from nothing if it is new, and no other. */
  lemma AddedStakes(e: Engine, a: Address, stake: int, x: Address)
    requires Unique(e.validators)
    ensures StakeIn(Added(e, a, stake).validators, x) ==
      if x != a then StakeIn(e.validators, x)
      else Some(stake + match StakeIn(e.validators, a) case Some(s) => s case None => 0)
  {
    var vs, vs' := e.validators, Added(e, a, stake).validators;
    assert Unique(vs') && forall j :: 0 <= j < |vs| ==> vs'[j].addr == vs[j].addr;
    var k := match IndexOf(vs, a) case Some(i) => i case None => |vs|;
    assert vs'[k].addr == a;
    match IndexOf(vs', x)
    case Some(j) =>
      StakeAt(vs', j);
      if j < |vs| { StakeAt(vs, j); }
    case None =>
      StakeAbsent(vs, x);
  }

  /** The order, which decides the leaders: a known validator keeps its place, a new one goes to the
      end, and everybody else is as before. */
  lemma AddedOrder(e: Engine, a: Address, stake: int)
    requires Unique(e.validators)
    ensures var vs, vs' := e.validators, Added(e, a, stake).validators;
      && |vs| <= |vs'| && (forall i :: 0 <= i < |vs| && vs[i].addr != a ==> vs'[i] == vs[i])
      && (forall i :: 0 <= i < |vs| && vs[i].addr == a ==> |vs'| == |vs| && vs'[i] == Validator(a, vs[i].stake + stake))
      && ((forall i :: 0 <= i < |vs| ==> vs[i].addr != a) ==> vs' == vs + [Validator(a, stake)])
  {
    var vs := e.validators;
    match IndexOf(vs, a)
    case Some(k) => forall i | 0 <= i < |vs| && vs[i].addr == a ensures i == k {
      if i != k { AddressesDiffer(vs, i, k); }
    }
    case None =>
  }

  /** Removing closes the gap and keeps everybody else in order. */
  lemma RemovedOrder(e: Engine, a: Address, i: nat)
    requires Unique(e.validators) && |e.validators| > 1 && i < |e.validators| && e.validators[i].addr == a
    ensures var vs, vs' := e.validators, Removed(e, a).validators;
      |vs'| == |vs| - 1 && forall j :: 0 <= j < |vs| && j != i ==> vs'[if j < i then j else j - 1] == vs[j]
  {
    IndexFirst(e.validators, a, i);
  }

  lemma DropIsUnique(vs: seq<Validator>, i: nat)
    requires Unique(vs) && i < |vs|
    ensures Unique(vs[..i] + vs[i + 1..])
    ensures forall j :: 0 <= j < |vs| && j != i ==> (vs[..i] + vs[i + 1..])[if j < i then j else j - 1] == vs[j]
  {
  }

  lemma DropStakes(vs: seq<Validator>, i: nat, x: Address)
    requires Unique(vs) && i < |vs|
    ensures StakeIn(vs[..i] + vs[i + 1..], x) == if x == vs[i].addr then None else StakeIn(vs, x)
  {
    hide IndexOf, Unique;
    var vs' := vs[..i] + vs[i + 1..];
    DropIsUnique(vs, i);
    StakeAt(vs, i);
    match IndexOf(vs', x)
    case Some(j) =>
      StakeAt(vs', j);
      StakeAt(vs, if j < i then j else j + 1);
      AddressesDiffer(vs, i, if j < i then j else j + 1);
    case None =>
      assert forall j :: 0 <= j < |vs| && j != i ==> vs[j].addr != x by {
        forall j | 0 <= j < |vs| && j != i ensures vs[j].addr != x {
          assert vs'[if j < i then j else j - 1] == vs[j];
        }
      }
  }

  lemma AddressesDiffer(vs: seq<Validator>, i: nat, j: nat)
    requires Unique(vs) && i < |vs| && j < |vs| && i != j
    ensures vs[i].addr != vs[j].addr
  {
  }

  /** Removing takes one address out of a set of several, and no other. */
  lemma RemovedStakes(e: Engine, a: Address, x: Address)
    requires Unique(e.validators) && |e.validators| > 1
    ensures StakeIn(Removed(e, a).validators, x) == if x == a then None else StakeIn(e.validators, x)
  {
    hide IndexOf, Unique;
    match IndexOf(e.validators, a)
    case None => StakeAbsent(e.validators, a);
    case Some(i) => DropStakes(e.validators, i, x);
  }

  /** The engine after `n` strikes in a row against one address. */
  function Strikes(e: Engine, a: Address, n: nat): (r: Engine) {
    if n == 0 then e else Struck(Strikes(e, a, n - 1), a)
  }

  /** A validator with a clean record is slashed by the thousandth strike and not before. */
  lemma {:induction false} ThousandStrikes(e: Engine, a: Address, n: nat)
    requires Unique(e.validators) && |e.validators| > 1 && a !in e.strikes && n <= 1000
    ensures n > 0 ==> a in Strikes(e, a, n).strikes && Strikes(e, a, n).strikes[a] == n
    ensures n < 1000 ==> Strikes(e, a, n).validators == e.validators && Strikes(e, a, n).schedule == e.schedule
    ensures n == 1000 ==> forall x: Address ::
      StakeIn(Strikes(e, a, n).validators, x) == if x == a then None else StakeIn(e.validators, x)
  {
    if n > 0 {
      ThousandStrikes(e, a, n - 1);
      var before := Strikes(e, a, n - 1);
      if n == 1000 {
        var e1 := before.(strikes := before.strikes[a := n]);
        forall x: Address { RemovedStakes(e1, a, x); }
      }
    }
  }
}
