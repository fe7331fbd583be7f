/** Executed messages: the execution proper, then the fee credited to the coinbase, then the
    processing of system contracts. Programs are composed in sequence; a composition of programs
    that meet the frame hypothesis meets it, and has the effects of its parts in turn. */
module Messages {
  import opened Base
  import opened Accounts
  import opened Wave

  // ---------- Sequential composition ----------

  /** The first point at which a program has halted. */
  function HaltPoint(p: Program, obs: seq<Value>): (n: Option<nat>)
    ensures n.Some? ==> n.value <= |obs| && p(obs[..n.value]).Halt?
    ensures forall m: nat :: m <= |obs| && (n.None? || m < n.value) ==> !p(obs[..m]).Halt?
  {
    if obs == [] then (if p([]).Halt? then assert obs[..0] == []; Some(0) else assert obs[..0] == []; None) else
      var init := obs[..|obs| - 1];
      assert forall m: nat :: m <= |init| ==> init[..m] == obs[..m];
      assert obs[..|obs|] == obs;
      match HaltPoint(p, init)
      case Some(n) => Some(n)
      case None => if p(obs).Halt? then Some(|obs|) else None
  }

  /** Runs `p`, and then what its outcome calls for. */
  function Then(p: Program, q: Outcome -> Program): (r: Program) {
    obs =>
      match HaltPoint(p, obs)
      case None => p(obs)
      case Some(n) => q(p(obs[..n]).out)(obs[n..])
  }

  function Stop(out: Outcome): (p: Program) { obs => Halt(out) }

  lemma HaltPointInit(p: Program, o: seq<Value>)
    requires o != []
    ensures var h := HaltPoint(p, o[..|o| - 1]);
      HaltPoint(p, o) == if h.Some? then h else if p(o).Halt? then Some(|o|) else None
  {
  }

  /** Still running: the composition does what the first part does. */
  lemma ThenRuns(p: Program, q: Outcome -> Program, obs: seq<Value>)
    requires HaltPoint(p, obs).None?
    ensures Then(p, q)(obs) == p(obs) && !p(obs).Halt?
  {
    assert obs[..|obs|] == obs;
  }

  lemma ThenGoesOn(p: Program, q: Outcome -> Program, obs: seq<Value>, n: nat)
    requires HaltPoint(p, obs) == Some(n)
    ensures Then(p, q)(obs) == q(p(obs[..n]).out)(obs[n..])
  {
  }

  lemma ThenFramed(p: Program, q: Outcome -> Program, own: iset<Key>, shared: set<Key>)
    requires Framed(p, own, shared) && forall out: Outcome :: Framed(q(out), own, shared)
    ensures Framed(Then(p, q), own, shared)
  {
    hide Framed, HaltPoint;
    var r := Then(p, q);
    forall obs ensures Within(r(obs), own, shared) {
      match HaltPoint(p, obs)
      case None => KeepsTo(p, own, shared, obs);
      case Some(n) => KeepsTo(q(p(obs[..n]).out), own, shared, obs[n..]);
    }
    FramedBy(r, own, shared);
  }

  lemma FramedBy(p: Program, own: iset<Key>, shared: set<Key>)
    requires forall obs :: Within(p(obs), own, shared)
    ensures Framed(p, own, shared)
  {
  }

  lemma TwinParts(q: Program, shared: set<Key>, o: seq<Value>, o': seq<Value>)
    requires Twin(q, shared, o, o') && (o != [] || o' != [])
    ensures o != [] && o' != [] && Twin(q, shared, o[..|o| - 1], o'[..|o'| - 1])
    ensures o[|o| - 1] == o'[|o'| - 1] || Sharing(q(o[..|o| - 1]), shared)
  {
  }

  lemma NoTwin(q: Program, shared: set<Key>)
    ensures Twin(q, shared, [], [])
  {
  }

  lemma BlindAt(p: Program, shared: set<Key>, o: seq<Value>, o': seq<Value>)
    requires Blind(p, shared) && Twin(p, shared, o, o')
    ensures Alike(p(o), p(o'), shared) && (p(o).Halt? <==> p(o').Halt?) && (p(o).Halt? ==> p(o) == p(o'))
  {
  }

  /** Twin observations of a composition are twins of its parts, split at the same point. */
  ghost predicate Split(p: Program, q: Outcome -> Program, shared: set<Key>, o: seq<Value>, o': seq<Value>) {
    && HaltPoint(p, o) == HaltPoint(p, o')
    && (match HaltPoint(p, o)
        case None => Twin(p, shared, o, o')
        case Some(n) =>
          && n <= |o'| && Twin(p, shared, o[..n], o'[..n]) && p(o[..n]) == p(o'[..n])
          && Twin(q(p(o[..n]).out), shared, o[n..], o'[n..]))
  }

  lemma SplitStart(p: Program, q: Outcome -> Program, shared: set<Key>)
    ensures Split(p, q, shared, [], [])
  {
    var e: seq<Value> := [];
    assert e[..0] == e && e[0..] == e;
  }

  lemma SplitRunning(p: Program, q: Outcome -> Program, shared: set<Key>, i: seq<Value>, i': seq<Value>, x: Value,
                     y: Value)
    requires Blind(p, shared) && Split(p, q, shared, i, i') && HaltPoint(p, i).None?
    requires x == y || Sharing(p(i), shared)
    ensures Split(p, q, shared, i + [x], i' + [y])
  {
    hide HaltPoint, Twin, Blind;
    var o, o' := i + [x], i' + [y];
    assert o[..|o| - 1] == i && o'[..|o'| - 1] == i';
    TwinSnoc(p, shared, i, i', x, y);
    BlindAt(p, shared, o, o');
    HaltPointInit(p, o);
    HaltPointInit(p, o');
    TwinLengths(p, shared, o, o');
    assert o[..|o|] == o && o'[..|o'|] == o' && o[|o|..] == [] && o'[|o'|..] == [];
    if p(o).Halt? { NoTwin(q(p(o).out), shared); }
  }

  lemma {:induction false} TwinLengths(p: Program, shared: set<Key>, o: seq<Value>, o': seq<Value>)
    requires Twin(p, shared, o, o')
    ensures |o| == |o'|
  {
    if o != [] && o' != [] { TwinLengths(p, shared, o[..|o| - 1], o'[..|o'| - 1]); }
  }

  lemma SplitOver(p: Program, q: Outcome -> Program, shared: set<Key>, i: seq<Value>, i': seq<Value>, x: Value,
                  y: Value, n: nat)
    requires Split(p, q, shared, i, i') && HaltPoint(p, i) == Some(n)
    requires x == y || Sharing(q(p(i[..n]).out)(i[n..]), shared)
    ensures Split(p, q, shared, i + [x], i' + [y])
  {
    hide HaltPoint, Twin;
    var o, o' := i + [x], i' + [y];
    assert o[..|o| - 1] == i && o'[..|o'| - 1] == i';
    HaltPointInit(p, o);
    HaltPointInit(p, o');
    assert o[..n] == i[..n] && o'[..n] == i'[..n];
    assert o[n..] == i[n..] + [x] && o'[n..] == i'[n..] + [y];
    TwinSnoc(q(p(i[..n]).out), shared, i[n..], i'[n..], x, y);
  }

  lemma {:induction false} TwinsSplit(p: Program, q: Outcome -> Program, shared: set<Key>, o: seq<Value>,
                                      o': seq<Value>)
    requires Blind(p, shared) && Twin(Then(p, q), shared, o, o')
    ensures Split(p, q, shared, o, o')
  {
    hide HaltPoint, Twin, Blind, Then, Split;
    if o == [] && o' == [] {
      SplitStart(p, q, shared);
    } else {
      TwinParts(Then(p, q), shared, o, o');
      var i, i' := o[..|o| - 1], o'[..|o'| - 1];
      var x, y := o[|o| - 1], o'[|o'| - 1];
      TwinsSplit(p, q, shared, i, i');
      assert o == i + [x] && o' == i' + [y];
      match HaltPoint(p, i)
      case None =>
        ThenRuns(p, q, i);
        SplitRunning(p, q, shared, i, i', x, y);
      case Some(n) =>
        ThenGoesOn(p, q, i, n);
        SplitOver(p, q, shared, i, i', x, y, n);
    }
  }

  lemma SplitAlike(p: Program, q: Outcome -> Program, shared: set<Key>, o: seq<Value>, o': seq<Value>)
    requires Blind(p, shared) && Split(p, q, shared, o, o') && forall out: Outcome :: Blind(q(out), shared)
    ensures Alike(Then(p, q)(o), Then(p, q)(o'), shared)
  {
    hide HaltPoint, Twin, Blind;
    match HaltPoint(p, o)
    case None =>
      BlindAt(p, shared, o, o');
    case Some(n) =>
      BlindAt(q(p(o[..n]).out), shared, o[n..], o'[n..]);
  }

  /** Programs that meet the frame hypothesis compose to one that does. */
  lemma ThenFits(p: Program, q: Outcome -> Program, own: iset<Key>, shared: set<Key>)
    requires Fits(p, own, shared) && forall out: Outcome :: Fits(q(out), own, shared)
    ensures Fits(Then(p, q), own, shared)
  {
    hide Framed, Blind, Then, Alike, Split;
    assert forall out: Outcome :: Framed(q(out), own, shared) && Blind(q(out), shared) by {
      forall out: Outcome ensures Framed(q(out), own, shared) && Blind(q(out), shared) {
        assert Fits(q(out), own, shared);
      }
    }
    ThenFramed(p, q, own, shared);
    var r := Then(p, q);
    forall o, o' | Twin(r, shared, o, o') ensures Alike(r(o), r(o'), shared) {
      TwinsSplit(p, q, shared, o, o');
      SplitAlike(p, q, shared, o, o');
    }
    BlindBy(r, shared);
  }

  lemma BlindBy(p: Program, shared: set<Key>)
    requires forall o, o' :: Twin(p, shared, o, o') ==> Alike(p(o), p(o'), shared)
    ensures Blind(p, shared)
  {
  }

  // ---------- The effect of a composition ----------

  /** The program has halted on the given state after exactly `n` instructions. */
  ghost predicate HaltsFirst(p: Program, s: Store, n: nat) {
    && p(DirectAt(p, s, n).0).Halt?
    && forall m: nat :: m < n ==> !p(DirectAt(p, s, m).0).Halt?
  }

  lemma {:induction false} DirectObs(p: Program, s: Store, n: nat, m: nat)
    requires m <= n && forall x: nat :: x < n ==> !p(DirectAt(p, s, x).0).Halt?
    ensures |DirectAt(p, s, n).0| == n && DirectAt(p, s, n).0[..m] == DirectAt(p, s, m).0
  {
    if n > 0 {
      var o := DirectAt(p, s, n - 1).0;
      if m < n {
        DirectObs(p, s, n - 1, m);
        assert DirectAt(p, s, n).0[..m] == o[..m];
      } else {
        DirectObs(p, s, n - 1, n - 1);
        assert DirectAt(p, s, n).0[..n] == DirectAt(p, s, n).0;
      }
    }
  }

  lemma DirectHaltPoint(p: Program, s: Store, n: nat)
    requires forall x: nat :: x < n ==> !p(DirectAt(p, s, x).0).Halt?
    ensures HaltPoint(p, DirectAt(p, s, n).0) == if p(DirectAt(p, s, n).0).Halt? then Some(n) else None
  {
    hide HaltPoint, DirectAt;
    var obs := DirectAt(p, s, n).0;
    DirectObs(p, s, n, n);
    assert obs[..n] == obs;
    forall m: nat | m < n ensures !p(obs[..m]).Halt? { DirectObs(p, s, n, m); }
    HaltPointIs(p, obs, n);
  }

  lemma HaltPointIs(p: Program, obs: seq<Value>, n: nat)
    requires n == |obs| && forall m: nat :: m < n ==> !p(obs[..m]).Halt?
    ensures HaltPoint(p, obs) == if p(obs).Halt? then Some(n) else None
  {
    assert obs[..n] == obs;
  }

  lemma {:induction false} ThenFirst(p: Program, q: Outcome -> Program, s: Store, n: nat)
    requires forall x: nat :: x < n ==> !p(DirectAt(p, s, x).0).Halt?
    ensures DirectAt(Then(p, q), s, n) == DirectAt(p, s, n)
  {
    hide HaltPoint, Then;
    if n > 0 {
      ThenFirst(p, q, s, n - 1);
      DirectHaltPoint(p, s, n - 1);
      ThenRuns(p, q, DirectAt(p, s, n - 1).0);
    }
  }

  lemma {:induction false} HaltPointStays(p: Program, o: seq<Value>, rest: seq<Value>, n: nat)
    requires HaltPoint(p, o) == Some(n)
    ensures HaltPoint(p, o + rest) == Some(n)
    decreases |rest|
  {
    if rest == [] {
      assert o + rest == o;
    } else {
      var r := rest[..|rest| - 1];
      HaltPointStays(p, o, r, n);
      assert (o + rest)[..|o + rest| - 1] == o + r;
      HaltPointInit(p, o + rest);
    }
  }

  lemma NoInstruction(p: Program, s: Store)
    ensures DirectAt(p, s, 0) == ([], s)
  {
  }

  /** After the first part, the composition runs the second on the state it finds. */
  lemma {:induction false} ThenSecond(p: Program, q: Outcome -> Program, s: Store, n: nat, m: nat)
    requires HaltsFirst(p, s, n)
    ensures var (o, t) := DirectAt(p, s, n); var (o', t') := DirectAt(q(p(o).out), t, m);
      DirectAt(Then(p, q), s, n + m) == (o + o', t')
  {
    hide HaltPoint, Then, DirectAt;
    var o, t := DirectAt(p, s, n).0, DirectAt(p, s, n).1;
    var q0 := q(p(o).out);
    if m == 0 {
      ThenFirst(p, q, s, n);
      NoInstruction(q0, t);
      assert o + [] == o;
    } else {
      ThenSecond(p, q, s, n, m - 1);
      var o1, t1 := DirectAt(q0, t, m - 1).0, DirectAt(q0, t, m - 1).1;
      DirectHaltPoint(p, s, n);
      DirectObs(p, s, n, n);
      HaltPointStays(p, o, o1, n);
      ThenGoesOn(p, q, o + o1, n);
      assert (o + o1)[..n] == o && (o + o1)[n..] == o1;
      SameInstruction(Then(p, q), s, n + m - 1, q0, t, m - 1, o);
    }
  }

  /** Programs about to do the same instruction on the same state, one having observed more before. */
  lemma SameInstruction(r: Program, s: Store, a: nat, q: Program, t: Store, c: nat, o: seq<Value>)
    requires DirectAt(r, s, a) == (o + DirectAt(q, t, c).0, DirectAt(q, t, c).1)
    requires r(o + DirectAt(q, t, c).0) == q(DirectAt(q, t, c).0)
    ensures var (o2, t2) := DirectAt(q, t, c + 1); DirectAt(r, s, a + 1) == (o + o2, t2)
  {
    var (o1, t1) := DirectAt(q, t, c);
    match q(o1)
    case Read(k) => assert o + o1 + [Fetch(t1, k)] == o + (o1 + [Fetch(t1, k)]);
    case Write(k, v) => assert o + o1 + [v] == o + (o1 + [v]);
    case Halt(_) =>
  }

  /** How a program ends on a state, and the state it has then computed. */
  ghost predicate Ends(p: Program, s: Store, out: Outcome, t: Store) {
    exists n: nat :: HaltsFirst(p, s, n) && EndsAfter(p, s, n, out, t)
  }

  ghost predicate EndsAfter(p: Program, s: Store, n: nat, out: Outcome, t: Store) {
    p(DirectAt(p, s, n).0) == Halt(out) && DirectAt(p, s, n).1 == t
  }

  /** What a program that ends does as a transaction. */
  lemma EndsEffect(p: Program, s: Store, out: Outcome, t: Store)
    requires Ends(p, s, out, t)
    ensures SoloOut(p, s) == Some(out) && Effect(p, s) == if out.Applied? then t else s
  {
    hide SoloAt, DirectAt;
    var n: nat :| HaltsFirst(p, s, n) && EndsAfter(p, s, n, out, t);
    OverlayIsDirect(p, s, n);
    assert HaltsAt(p, s, n);
    SoloEndIs(p, s, n);
  }

  /** The parts of a composition end in turn. */
  lemma ThenEnds(p: Program, q: Outcome -> Program, s: Store, out: Outcome, t: Store, out': Outcome, t': Store)
    requires Ends(p, s, out, t) && Ends(q(out), t, out', t')
    ensures Ends(Then(p, q), s, out', t')
  {
    hide HaltPoint, Then, DirectAt;
    var n: nat :| HaltsFirst(p, s, n) && EndsAfter(p, s, n, out, t);
    var m: nat :| HaltsFirst(q(out), t, m) && EndsAfter(q(out), t, m, out', t');
    ThenHaltsFirst(p, q, s, n, m, out, t);
    ThenSecond(p, q, s, n, m);
    ThenAt(p, q, s, n, m);
    assert EndsAfter(Then(p, q), s, n + m, out', t');
  }

  lemma ThenAt(p: Program, q: Outcome -> Program, s: Store, n: nat, m: nat)
    requires HaltsFirst(p, s, n)
    ensures var (o, t) := DirectAt(p, s, n); var (o', t') := DirectAt(q(p(o).out), t, m);
      Then(p, q)(o + o') == q(p(o).out)(o')
  {
    hide HaltPoint, Then;
    var o, t := DirectAt(p, s, n).0, DirectAt(p, s, n).1;
    var o' := DirectAt(q(p(o).out), t, m).0;
    DirectHaltPoint(p, s, n);
    DirectObs(p, s, n, n);
    HaltPointStays(p, o, o', n);
    ThenGoesOn(p, q, o + o', n);
    assert (o + o')[..n] == o && (o + o')[n..] == o';
  }

  lemma ThenHaltsFirst(p: Program, q: Outcome -> Program, s: Store, n: nat, m: nat, out: Outcome, t: Store)
    requires HaltsFirst(p, s, n) && EndsAfter(p, s, n, out, t) && HaltsFirst(q(out), t, m)
    ensures HaltsFirst(Then(p, q), s, n + m)
  {
    hide HaltPoint, Then, DirectAt;
    var r := Then(p, q);
    forall x: nat | x <= n + m ensures r(DirectAt(r, s, x).0).Halt? <==> x == n + m {
      if x < n {
        ThenFirst(p, q, s, x);
        DirectHaltPoint(p, s, x);
        ThenRuns(p, q, DirectAt(p, s, x).0);
      } else {
        ThenSecond(p, q, s, n, x - n);
        ThenAt(p, q, s, n, x - n);
      }
    }
  }

  lemma StopEnds(out: Outcome, s: Store)
    ensures Ends(Stop(out), s, out, s)
  {
    assert DirectAt(Stop(out), s, 0) == ([], s);
    assert HaltsFirst(Stop(out), s, 0) && EndsAfter(Stop(out), s, 0, out, s);
  }

  lemma StopFits(out: Outcome, own: iset<Key>, shared: set<Key>)
    requires forall k :: k in shared ==> k !in own
    ensures Fits(Stop(out), own, shared)
  {
    forall obs ensures Within(Stop(out)(obs), own, shared) {}
    forall o, o' ensures Alike(Stop(out)(o), Stop(out)(o'), shared) {}
  }

  // ---------- Credits ----------

  /** A balance after `AddBalance`. */
  function Paid(v: Value, fee: nat): (r: Value) {
    MinBytes((FromBytes(v) % TWO_256 + fee) % TWO_256)
  }

  /** Credits the balance under a key: read, add in 256 bits, write. */
  function Credit(k: Key, fee: nat, gas: nat): (p: Program) {
    obs =>
      if |obs| == 0 then Read(k)
      else if |obs| == 1 then Write(k, Paid(obs[0], fee))
      else Halt(Applied(gas, false))
  }

  lemma CreditFits(k: Key, fee: nat, gas: nat, own: iset<Key>, shared: set<Key>)
    requires k in shared && forall x :: x in shared ==> x !in own
    ensures Fits(Credit(k, fee, gas), own, shared)
  {
    hide Paid;
    var p := Credit(k, fee, gas);
    forall obs ensures Within(p(obs), own, shared) {}
    forall o, o' | Twin(p, shared, o, o') ensures Alike(p(o), p(o'), shared) { TwinLengths(p, shared, o, o'); }
  }

  lemma CreditEnds(k: Key, fee: nat, gas: nat, s: Store)
    ensures Ends(Credit(k, fee, gas), s, Applied(gas, false), s[k := Paid(Fetch(s, k), fee)])
  {
    hide Paid;
    var p, v := Credit(k, fee, gas), Fetch(s, k);
    assert DirectAt(p, s, 0) == ([], s);
    assert DirectAt(p, s, 1) == ([v], s) by { assert [] + [v] == [v]; }
    assert DirectAt(p, s, 2) == ([v, Paid(v, fee)], s[k := Paid(v, fee)]) by {
      assert [v] + [Paid(v, fee)] == [v, Paid(v, fee)];
    }
    assert HaltsFirst(p, s, 2);
    assert EndsAfter(p, s, 2, Applied(gas, false), s[k := Paid(v, fee)]);
  }

  // ---------- Messages ----------

  function OnProcessed(out: Outcome): (q: Outcome -> Program) { (o: Outcome) => Stop(out) }

  function OnPaid(post: Program, out: Outcome): (q: Outcome -> Program) { (o: Outcome) => Then(post, OnProcessed(out)) }

  /** What follows the execution of a message: nothing if it was refused, else fee and processing. */
  function Settling(k: Key, fee: nat -> nat, post: Program, out: Outcome): (p: Program) {
    if out.Applied? then Then(Credit(k, fee(out.gas), out.gas), OnPaid(post, out)) else Stop(out)
  }

  function OnExecuted(k: Key, fee: nat -> nat, post: Program): (q: Outcome -> Program) {
    (out: Outcome) => Settling(k, fee, post, out)
  }

  /** A message: the execution `p`, then the fee for its gas credited under `k`, then the processing
      of system contracts. */
  function Message(p: Program, k: Key, fee: nat -> nat, post: Program): (q: Program) {
    Then(p, OnExecuted(k, fee, post))
  }

  /** A message whose execution and processing meet the frame hypothesis meets it with its fee: the
      credit is blind. */
  lemma MessageFits(p: Program, k: Key, fee: nat -> nat, post: Program, own: iset<Key>, shared: set<Key>)
    requires Fits(p, own, shared) && Fits(post, own, shared) && k in shared
    ensures Fits(Message(p, k, fee, post), own, shared)
  {
    hide Then, Stop, Credit;
    assert forall x :: x in shared ==> x !in own by { assert Fits(p, own, shared); }
    hide Fits;
    forall out: Outcome ensures Fits(OnExecuted(k, fee, post)(out), own, shared) {
      StopFits(out, own, shared);
      if out.Applied? {
        forall o: Outcome ensures Fits(OnProcessed(out)(o), own, shared) {}
        ThenFits(post, OnProcessed(out), own, shared);
        forall o: Outcome ensures Fits(OnPaid(post, out)(o), own, shared) {}
        CreditFits(k, fee(out.gas), out.gas, own, shared);
        ThenFits(Credit(k, fee(out.gas), out.gas), OnPaid(post, out), own, shared);
      }
    }
    ThenFits(p, OnExecuted(k, fee, post), own, shared);
  }

  /** A message ends as its execution does. If that is applied, its effect is the execution's, with
      the fee for its gas added to the balance under `k`, then processed. */
  lemma MessageEnds(p: Program, k: Key, fee: nat -> nat, post: Program, s: Store, out: Outcome, t: Store, o: Outcome,
                    u: Store)
    requires Ends(p, s, out, t)
    requires out.Applied? ==> Ends(post, t[k := Paid(Fetch(t, k), fee(out.gas))], o, u)
    ensures Ends(Message(p, k, fee, post), s, out, if out.Applied? then u else t)
  {
    hide Then, Stop, Credit, Ends, Paid;
    if out.Applied? {
      var paid := t[k := Paid(Fetch(t, k), fee(out.gas))];
      StopEnds(out, u);
      ThenEnds(post, OnProcessed(out), paid, o, u, out, u);
      CreditEnds(k, fee(out.gas), out.gas, t);
      ThenEnds(Credit(k, fee(out.gas), out.gas), OnPaid(post, out), t, Applied(out.gas, false), paid, out, u);
      ThenEnds(p, OnExecuted(k, fee, post), s, out, t, out, u);
    } else {
      StopEnds(out, t);
      ThenEnds(p, OnExecuted(k, fee, post), s, out, t, out, t);
    }
  }

  /** The same as a statement about transactions on overlays. */
  lemma MessageEffect(p: Program, k: Key, fee: nat -> nat, post: Program, s: Store, gas: nat, failed: bool, t: Store,
                      o: Outcome, u: Store)
    requires Ends(p, s, Applied(gas, failed), t) && Ends(post, t[k := Paid(Fetch(t, k), fee(gas))], o, u)
    ensures SoloOut(Message(p, k, fee, post), s) == Some(Applied(gas, failed))
    ensures Effect(Message(p, k, fee, post), s) == u
  {
    hide Ends, Message, Effect, SoloOut, Paid;
    MessageEnds(p, k, fee, post, s, Applied(gas, failed), t, o, u);
    EndsEffect(Message(p, k, fee, post), s, Applied(gas, failed), u);
  }
}
