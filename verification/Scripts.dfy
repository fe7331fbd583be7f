/** Transaction programs written as scripts: what to read or write next, given what was read. A
    script is a program; running it step by step gives the program's effect. */
module Scripts {
  import opened Base
  import opened Wave

  datatype Script = Done(out: Outcome) | Get(k: Key, f: Value -> Script) | Put(k: Key, v: Value, rest: Script)

  /** The action after the given observations. */
  function Next(sc: Script, obs: seq<Value>): (a: Action)
    decreases |obs|
  {
    match sc
    case Done(out) => Halt(out)
    case Get(k, f) => if obs == [] then Read(k) else Next(f(obs[0]), obs[1..])
    case Put(k, v, rest) => if obs == [] then Write(k, v) else Next(rest, obs[1..])
  }

  function ProgramOf(sc: Script): (p: Program) { obs => Next(sc, obs) }

  // ---------- Running a script ----------

  datatype Conf = Conf(sc: Script, s: Store)

  function StepOf(c: Conf): (r: Conf) {
    match c.sc
    case Done(_) => c
    case Get(k, f) => Conf(f(Fetch(c.s, k)), c.s)
    case Put(k, v, rest) => Conf(rest, c.s[k := v])
  }

  function Steps(c: Conf, n: nat): (r: Conf)
    decreases n
  {
    if n == 0 then c else Steps(StepOf(c), n - 1)
  }

  lemma {:induction false} StepsAdd(c: Conf, m: nat, n: nat)
    ensures Steps(c, m + n) == Steps(Steps(c, m), n)
    decreases m
  {
    if m > 0 { StepsAdd(StepOf(c), m - 1, n); }
  }

  /** What a script that has not ended observes first. */
  function Seen(c: Conf): (v: Value) {
    match c.sc
    case Done(_) => []
    case Get(k, _) => Fetch(c.s, k)
    case Put(_, v, _) => v
  }

  lemma NextAfter(c: Conf, obs: seq<Value>)
    requires !c.sc.Done?
    ensures Next(c.sc, [Seen(c)] + obs) == Next(StepOf(c).sc, obs)
  {
    assert ([Seen(c)] + obs)[1..] == obs;
  }

  /** The first instruction of a script comes first in its run. */
  lemma {:induction false} FirstInstruction(c: Conf, n: nat)
    requires !c.sc.Done?
    ensures var r := DirectAt(ProgramOf(StepOf(c).sc), StepOf(c).s, n);
      DirectAt(ProgramOf(c.sc), c.s, n + 1) == ([Seen(c)] + r.0, r.1)
  {
    if n == 0 {
      assert [] + [Seen(c)] == [Seen(c)] + [];
      assert DirectAt(ProgramOf(c.sc), c.s, 0) == ([], c.s);
    } else {
      FirstInstruction(c, n - 1);
      var r := DirectAt(ProgramOf(StepOf(c).sc), StepOf(c).s, n - 1);
      NextAfter(c, r.0);
      match Next(StepOf(c).sc, r.0)
      case Read(k) => assert [Seen(c)] + r.0 + [Fetch(r.1, k)] == [Seen(c)] + (r.0 + [Fetch(r.1, k)]);
      case Write(k, v) => assert [Seen(c)] + r.0 + [v] == [Seen(c)] + (r.0 + [v]);
      case Halt(_) =>
    }
  }

  lemma {:induction false} StepsAreDirect(c: Conf, n: nat, out: Outcome, t: Store)
    requires Steps(c, n) == Conf(Done(out), t)
    ensures var r := DirectAt(ProgramOf(c.sc), c.s, n);
      Next(c.sc, r.0) == Halt(out) && r.1 == t
    decreases n
  {
    if n > 0 {
      StepsAreDirect(StepOf(c), n - 1, out, t);
      if c.sc.Done? {
        DoneStays(c, n);
        DoneDirect(c, n);
      } else {
        FirstInstruction(c, n - 1);
        NextAfter(c, DirectAt(ProgramOf(StepOf(c).sc), StepOf(c).s, n - 1).0);
      }
    }
  }

  lemma {:induction false} DoneStays(c: Conf, n: nat)
    requires c.sc.Done?
    ensures Steps(c, n) == c
  {
    if n > 0 { DoneStays(c, n - 1); }
  }

  lemma {:induction false} DoneDirect(c: Conf, n: nat)
    requires c.sc.Done?
    ensures DirectAt(ProgramOf(c.sc), c.s, n) == ([], c.s)
  {
    if n > 0 { DoneDirect(c, n - 1); }
  }

  /** A script that ends leaves, as a transaction, the state it computes, if it is applied. */
  lemma ScriptEffect(sc: Script, s: Store, n: nat, out: Outcome, t: Store)
    requires Steps(Conf(sc, s), n) == Conf(Done(out), t)
    ensures HaltsAt(ProgramOf(sc), s, n) && SoloOut(ProgramOf(sc), s) == Some(out)
    ensures Effect(ProgramOf(sc), s) == if out.Applied? then t else s
  {
    hide Steps, Next, SoloAt, DirectAt;
    var p := ProgramOf(sc);
    StepsAreDirect(Conf(sc, s), n, out, t);
    OverlayIsDirect(p, s, n);
    assert HaltsAt(p, s, n);
    SoloEndIs(p, s, n);
  }

  // ---------- The keys of a script ----------

  /** Every key a script can name, whatever it reads, within `n` instructions. */
  ghost predicate Keeps(sc: Script, own: iset<Key>, n: nat)
    decreases n
  {
    match sc
    case Done(_) => true
    case Get(k, f) => n > 0 && k in own && forall v :: Keeps(f(v), own, n - 1)
    case Put(k, _, rest) => n > 0 && k in own && Keeps(rest, own, n - 1)
  }

  lemma {:induction false} KeepsMore(sc: Script, own: iset<Key>, m: nat, n: nat)
    requires Keeps(sc, own, m) && m <= n
    ensures Keeps(sc, own, n)
    decreases m
  {
    match sc
    case Done(_) =>
    case Get(k, f) => forall v ensures Keeps(f(v), own, n - 1) { KeepsMore(f(v), own, m - 1, n - 1); }
    case Put(_, _, rest) => KeepsMore(rest, own, m - 1, n - 1);
  }

  lemma {:induction false} NextWithin(sc: Script, own: iset<Key>, n: nat, obs: seq<Value>)
    requires Keeps(sc, own, n)
    ensures Within(Next(sc, obs), own, {})
    decreases |obs|
  {
    if obs != [] {
      match sc
      case Done(_) =>
      case Get(_, f) => NextWithin(f(obs[0]), own, n - 1, obs[1..]);
      case Put(_, _, rest) => NextWithin(rest, own, n - 1, obs[1..]);
    }
  }

  /** A script that names only the given keys is framed by them. */
  lemma ScriptFramed(sc: Script, own: iset<Key>, n: nat)
    requires Keeps(sc, own, n)
    ensures Framed(ProgramOf(sc), own, {})
  {
    forall obs ensures Within(ProgramOf(sc)(obs), own, {}) { NextWithin(sc, own, n, obs); }
  }
}
