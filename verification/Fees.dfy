/** What the coinbase receives from a wave of messages. Every executed message adds its fee to the
    coinbase balance it has read, without a lock: a complete interleaving credits some of the
    fees, at least one, and which ones depends on the interleaving. */
module Fees {
  import opened Base
  import opened Scheduler
  import opened Wave
  import opened Traces
  import opened Messages
  import opened Turns
  import opened Races

  // ---------- One message and the coinbase balance ----------

  /** A message without the key its fee goes to: execution, fee for gas used, processing. */
  datatype Part = Part(run: Program, fee: nat -> nat, post: Program)

  function MessageOf(m: Part, k: Key): (p: Program) { Message(m.run, k, m.fee, m.post) }

  /** Execution and processing keep to the message's own keys and always halt. */
  ghost predicate Proper(m: Part, own: iset<Key>) {
    Framed(m.run, own, {}) && Framed(m.post, own, {}) && AlwaysHalts(m.run) && AlwaysHalts(m.post)
  }

  /** How far a message has come with its fee. */
  datatype Stage = Before | Read1(v: Value) | Wrote(v: Value, gas: nat)

  function StageOf(run: Program, obs: seq<Value>): (s: Stage) {
    match HaltPoint(run, obs)
    case None => Before
    case Some(n) =>
      var out := run(obs[..n]).out;
      if !out.Applied? || |obs| == n then Before
      else if |obs| == n + 1 then Read1(obs[n])
      else Wrote(obs[n], out.gas)
  }

  lemma CreditPoint(k: Key, fee: nat, gas: nat, o: seq<Value>)
    ensures HaltPoint(Credit(k, fee, gas), o) == if |o| < 2 then None else Some(2)
  {
    hide Paid;
    var p := Credit(k, fee, gas);
    match HaltPoint(p, o)
    case None => assert o[..|o|] == o;
    case Some(n) => if |o| >= 2 { assert |o[..2]| == 2; }
  }

  /** What a message does next, while its execution runs. */
  lemma ActsRunning(m: Part, k: Key, obs: seq<Value>)
    requires HaltPoint(m.run, obs).None?
    ensures MessageOf(m, k)(obs) == m.run(obs) && !m.run(obs).Halt?
  {
    ThenRuns(m.run, OnExecuted(k, m.fee, m.post), obs);
  }

  lemma ActsRefused(m: Part, k: Key, obs: seq<Value>, n: nat)
    requires HaltPoint(m.run, obs) == Some(n) && !m.run(obs[..n]).out.Applied?
    ensures MessageOf(m, k)(obs) == m.run(obs[..n])
  {
    ThenGoesOn(m.run, OnExecuted(k, m.fee, m.post), obs, n);
  }

  lemma ActsPaying(m: Part, k: Key, obs: seq<Value>, n: nat)
    requires HaltPoint(m.run, obs) == Some(n) && m.run(obs[..n]).out.Applied? && |obs| < n + 2
    ensures MessageOf(m, k)(obs) ==
      if |obs| == n then Read(k) else Write(k, Paid(obs[n], m.fee(m.run(obs[..n]).out.gas)))
  {
    hide HaltPoint, Then, Paid;
    var out := m.run(obs[..n]).out;
    var c := Credit(k, m.fee(out.gas), out.gas);
    ThenGoesOn(m.run, OnExecuted(k, m.fee, m.post), obs, n);
    CreditPoint(k, m.fee(out.gas), out.gas, obs[n..]);
    ThenRuns(c, OnPaid(m.post, out), obs[n..]);
  }

  lemma ActsPaid(m: Part, k: Key, obs: seq<Value>, n: nat)
    requires HaltPoint(m.run, obs) == Some(n) && m.run(obs[..n]).out.Applied? && |obs| >= n + 2
    ensures MessageOf(m, k)(obs) == Then(m.post, OnProcessed(m.run(obs[..n]).out))(obs[n + 2..])
  {
    hide HaltPoint, Then, Paid;
    var out := m.run(obs[..n]).out;
    var c := Credit(k, m.fee(out.gas), out.gas);
    ThenGoesOn(m.run, OnExecuted(k, m.fee, m.post), obs, n);
    CreditPoint(k, m.fee(out.gas), out.gas, obs[n..]);
    ThenGoesOn(c, OnPaid(m.post, out), obs[n..], 2);
    assert obs[n..][2..] == obs[n + 2..];
  }

  /** While processing runs, the coinbase key is out of reach; it ends as the execution did. */
  lemma ProcessingActs(post: Program, own: iset<Key>, k: Key, out: Outcome, obs: seq<Value>)
    requires Framed(post, own, {}) && k !in own
    ensures var a := Then(post, OnProcessed(out))(obs); if a.Halt? then a.out == out else a.k != k
  {
    hide HaltPoint, Then;
    match HaltPoint(post, obs)
    case None =>
      ThenRuns(post, OnProcessed(out), obs);
      KeepsTo(post, own, {}, obs);
    case Some(n) =>
      ThenGoesOn(post, OnProcessed(out), obs, n);
  }

  /** A message's overlay: nothing under the coinbase key until it writes the balance it read with
      its fee added; that balance is one of `seen`. */
  ghost predicate CreditOk(m: Part, k: Key, l: Local, seen: iset<Value>) {
    match StageOf(m.run, l.obs)
    case Before => k !in l.dirty
    case Read1(v) => k !in l.dirty && v in seen
    case Wrote(v, gas) => k in l.dirty && l.dirty[k] == Paid(v, m.fee(gas)) && v in seen
  }

  lemma CreditOkStart(m: Part, k: Key, seen: iset<Value>)
    ensures CreditOk(m, k, Local([], map[]), seen)
  {
  }

  lemma CreditOkMore(m: Part, k: Key, l: Local, seen: iset<Value>, more: iset<Value>)
    requires CreditOk(m, k, l, seen) && seen <= more
    ensures CreditOk(m, k, l, more)
  {
  }

  /** How the stage moves on with one more observation. */
  lemma StageNext(m: Part, o: seq<Value>, x: Value)
    ensures StageOf(m.run, o + [x]) ==
      match HaltPoint(m.run, o)
      case None => Before
      case Some(n) =>
        var out := m.run(o[..n]).out;
        if !out.Applied? then Before else if |o| == n then Read1(x) else Wrote(o[n], out.gas)
  {
    hide HaltPoint;
    var o' := o + [x];
    assert o'[..|o'| - 1] == o;
    HaltPointInit(m.run, o');
    match HaltPoint(m.run, o)
    case None => assert o'[..|o'|] == o';
    case Some(n) => assert o'[..n] == o[..n];
  }

  lemma AdvanceOther(p: Program, parent: Store, l: Local, k: Key)
    requires !p(l.obs).Halt? && p(l.obs).k != k
    ensures var r := Advance(p, parent, l);
      && |r.obs| == |l.obs| + 1 && r.obs == l.obs + [r.obs[|l.obs|]]
      && (k in r.dirty <==> k in l.dirty) && (k in l.dirty ==> r.dirty[k] == l.dirty[k])
  {
  }

  lemma AdvanceRead(p: Program, parent: Store, l: Local, k: Key)
    requires p(l.obs) == Read(k) && k !in l.dirty
    ensures Advance(p, parent, l) == Local(l.obs + [Fetch(parent, k)], l.dirty)
  {
  }

  lemma AdvanceWrite(p: Program, parent: Store, l: Local, k: Key, v: Value)
    requires p(l.obs) == Write(k, v)
    ensures Advance(p, parent, l) == Local(l.obs + [v], l.dirty[k := v])
  {
  }

  /** One instruction keeps this up, whatever the parent holds, as long as it holds a balance that
      is one of `seen`. */
  lemma CreditAdvance(m: Part, own: iset<Key>, k: Key, parent: Store, l: Local, seen: iset<Value>)
    requires Framed(m.run, own, {}) && Framed(m.post, own, {}) && k !in own
    requires CreditOk(m, k, l, seen) && Fetch(parent, k) in seen
    ensures CreditOk(m, k, Advance(MessageOf(m, k), parent, l), seen)
  {
    hide HaltPoint, Then, Paid, Advance, Framed, MessageOf;
    var q, o := MessageOf(m, k), l.obs;
    var r := Advance(q, parent, l);
    match HaltPoint(m.run, o)
    case None =>
      ActsRunning(m, k, o);
      KeepsTo(m.run, own, {}, o);
      AdvanceOther(q, parent, l, k);
      StageNext(m, o, r.obs[|o|]);
    case Some(n) =>
      var out := m.run(o[..n]).out;
      if !out.Applied? {
        ActsRefused(m, k, o, n);
        Halted(q, parent, l);
      } else if |o| == n {
        ActsPaying(m, k, o, n);
        AdvanceRead(q, parent, l, k);
        StageNext(m, o, Fetch(parent, k));
      } else if |o| == n + 1 {
        ActsPaying(m, k, o, n);
        AdvanceWrite(q, parent, l, k, Paid(o[n], m.fee(out.gas)));
        StageNext(m, o, Paid(o[n], m.fee(out.gas)));
      } else {
        ActsPaid(m, k, o, n);
        ProcessingActs(m.post, own, k, out, o[n + 2..]);
        if q(o).Halt? {
          Halted(q, parent, l);
        } else {
          AdvanceOther(q, parent, l, k);
          StageNext(m, o, r.obs[|o|]);
        }
      }
  }

  lemma Halted(p: Program, parent: Store, l: Local)
    requires p(l.obs).Halt?
    ensures Advance(p, parent, l) == l
  {
  }

  /** A message that has halted has paid exactly if it was executed, and paid for its gas. */
  lemma HaltedStage(m: Part, own: iset<Key>, k: Key, obs: seq<Value>)
    requires Framed(m.run, own, {}) && Framed(m.post, own, {}) && k !in own && MessageOf(m, k)(obs).Halt?
    ensures var out := MessageOf(m, k)(obs).out;
      if out.Applied? then StageOf(m.run, obs).Wrote? && StageOf(m.run, obs).gas == out.gas
      else StageOf(m.run, obs).Before?
  {
    hide HaltPoint, Then, Paid, Framed, MessageOf;
    match HaltPoint(m.run, obs)
    case None => ActsRunning(m, k, obs);
    case Some(n) =>
      var out := m.run(obs[..n]).out;
      if !out.Applied? {
        ActsRefused(m, k, obs, n);
      } else if |obs| < n + 2 {
        ActsPaying(m, k, obs, n);
      } else {
        ActsPaid(m, k, obs, n);
        ProcessingActs(m.post, own, k, out, obs[n + 2..]);
      }
  }

  /** Alone, a message credits the balance it starts from. */
  lemma {:induction false} SoloCredit(m: Part, own: iset<Key>, k: Key, base: Store, n: nat)
    requires Framed(m.run, own, {}) && Framed(m.post, own, {}) && k !in own
    ensures CreditOk(m, k, SoloAt(MessageOf(m, k), base, n), iset{Fetch(base, k)})
  {
    hide CreditOk, Framed, MessageOf;
    if n == 0 {
      CreditOkStart(m, k, iset{Fetch(base, k)});
    } else {
      SoloCredit(m, own, k, base, n - 1);
      CreditAdvance(m, own, k, base, SoloAt(MessageOf(m, k), base, n - 1), iset{Fetch(base, k)});
    }
  }

  // ---------- A message alone ----------

  lemma HaltingEnds(p: Program, s: Store) returns (out: Outcome, t: Store)
    requires AlwaysHalts(p)
    ensures Ends(p, s, out, t)
  {
    hide SoloAt, DirectAt, AlwaysHalts;
    var n := HaltOf(p, s);
    forall m: nat | m <= n ensures p(DirectAt(p, s, m).0).Halt? <==> HaltsAt(p, s, m) { OverlayIsDirect(p, s, m); }
    out, t := p(DirectAt(p, s, n).0).out, DirectAt(p, s, n).1;
    assert HaltsFirst(p, s, n);
    assert EndsAfter(p, s, n, out, t);
  }

  lemma EndsHalts(p: Program, s: Store, out: Outcome, t: Store)
    requires Ends(p, s, out, t)
    ensures Halts(p, s)
  {
    var n: nat :| HaltsFirst(p, s, n) && EndsAfter(p, s, n, out, t);
    OverlayIsDirect(p, s, n);
    assert HaltsAt(p, s, n);
  }

  /** A message halts on every state, ending as its execution does. */
  lemma MessageHalts(m: Part, own: iset<Key>, k: Key, s: Store)
    requires Proper(m, own)
    ensures Halts(MessageOf(m, k), s) && SoloOut(MessageOf(m, k), s) == SoloOut(m.run, s) && SoloOut(m.run, s).Some?
  {
    hide Halts, AlwaysHalts, Ends, SoloOut, Paid, Framed, Message;
    var out, t := HaltingEnds(m.run, s);
    var o, u := HaltingEnds(m.post, if out.Applied? then t[k := Paid(Fetch(t, k), m.fee(out.gas))] else t);
    MessageEnds(m.run, k, m.fee, m.post, s, out, t, o, u);
    EndsEffect(m.run, s, out, t);
    EndsHalts(MessageOf(m, k), s, out, if out.Applied? then u else t);
    EndsEffect(MessageOf(m, k), s, out, if out.Applied? then u else t);
  }

  lemma MessageAlwaysHalts(m: Part, own: iset<Key>, k: Key)
    requires Proper(m, own)
    ensures AlwaysHalts(MessageOf(m, k))
  {
    hide Halts, SoloOut, MessageOf, Proper;
    forall s: Store ensures Halts(MessageOf(m, k), s) { MessageHalts(m, own, k, s); }
  }

  /** What it pays from the given state: the fee for its gas if it is executed, else nothing. */
  ghost function FeeFrom(m: Part, s: Store): (f: nat) {
    match SoloOut(m.run, s)
    case Some(Applied(gas, _)) => m.fee(gas)
    case _ => 0
  }

  ghost predicate Executed(m: Part, s: Store) {
    SoloOut(m.run, s).Some? && SoloOut(m.run, s).value.Applied?
  }

  /** An executed message leaves the balance it found plus its fee in its overlay. */
  lemma AloneDirty(m: Part, own: iset<Key>, k: Key, s: Store)
    requires Proper(m, own) && k !in own && Executed(m, s)
    ensures k in EndDirty(MessageOf(m, k), s)
    ensures EndDirty(MessageOf(m, k), s)[k] == Paid(Fetch(s, k), FeeFrom(m, s))
    ensures Effect(MessageOf(m, k), s) == s + EndDirty(MessageOf(m, k), s)
  {
    hide SoloAt, AlwaysHalts, Paid, MessageOf, Framed, StageOf;
    var q := MessageOf(m, k);
    MessageHalts(m, own, k, s);
    MessageAlwaysHalts(m, own, k);
    var n := HaltOf(q, s);
    var l := SoloAt(q, s, n);
    HaltedStage(m, own, k, l.obs);
    SoloCredit(m, own, k, s, n);
  }

  /** A message that is not executed changes nothing. */
  lemma AloneRefused(m: Part, own: iset<Key>, k: Key, s: Store)
    requires Proper(m, own) && !Executed(m, s)
    ensures Effect(MessageOf(m, k), s) == s && FeeFrom(m, s) == 0
  {
    hide SoloAt, AlwaysHalts, MessageOf, Framed;
    MessageHalts(m, own, k, s);
    assert s + map[] == s;
  }

  // ---------- Waves of messages ----------

  /** A wave of messages that pay under `k`, which is nobody's own key. */
  ghost predicate Paying(jobs: seq<Job>, ms: seq<Part>, own: seq<iset<Key>>, k: Key) {
    && |jobs| == |ms| == |own|
    && (forall x :: 0 <= x < |jobs| ==> jobs[x].prog == MessageOf(ms[x], k) && Proper(ms[x], own[x]) && k !in own[x])
    && (forall x, y :: 0 <= x < y < |jobs| ==> own[x] !! own[y])
  }

  lemma {:induction false} TwinOfOthers(p: Program, own: iset<Key>, k: Key, o: seq<Value>, o': seq<Value>)
    requires Framed(p, own, {}) && k !in own && Twin(p, {k}, o, o')
    ensures o == o'
  {
    if o != [] && o' != [] {
      var i, i' := o[..|o| - 1], o'[..|o'| - 1];
      TwinOfOthers(p, own, k, i, i');
      KeepsTo(p, own, {}, i);
      assert o == i + [o[|o| - 1]] && o' == i' + [o'[|o'| - 1]];
    }
  }

  lemma FitsApart(p: Program, own: iset<Key>, k: Key)
    requires Framed(p, own, {}) && k !in own
    ensures Fits(p, own, {k})
  {
    hide Twin;
    forall obs ensures Within(p(obs), own, {k}) { KeepsTo(p, own, {}, obs); }
    forall o, o' | Twin(p, {k}, o, o') ensures Alike(p(o), p(o'), {k}) { TwinOfOthers(p, own, k, o, o'); }
  }

  lemma PartFits(m: Part, own: iset<Key>, k: Key)
    requires Framed(m.run, own, {}) && Framed(m.post, own, {}) && k !in own
    ensures Fits(MessageOf(m, k), own, {k})
  {
    hide Fits, Framed, Message;
    FitsApart(m.run, own, k);
    FitsApart(m.post, own, k);
    MessageFits(m.run, k, m.fee, m.post, own, {k});
  }

  lemma PayingIndependent(jobs: seq<Job>, ms: seq<Part>, own: seq<iset<Key>>, k: Key)
    requires Paying(jobs, ms, own, k)
    ensures Independent(jobs, own, {k})
  {
    hide Fits, MessageOf, Framed, AlwaysHalts;
    forall x | 0 <= x < |jobs| ensures Fits(jobs[x].prog, own[x], {k}) { PartFits(ms[x], own[x], k); }
  }

  // ---------- Which fees have arrived ----------

  function Amount(v: Value): (n: nat) { FromBytes(v) % TWO_256 }

  ghost function FeesFrom(ms: seq<Part>, s: Store): (fs: seq<nat>)
    ensures |fs| == |ms| && forall x :: 0 <= x < |ms| ==> fs[x] == FeeFrom(ms[x], s)
  {
    seq(|ms|, x requires 0 <= x < |ms| => FeeFrom(ms[x], s))
  }

  /** The fees of the chosen messages. */
  function Chosen(fs: seq<nat>, mask: seq<bool>): (r: seq<nat>)
    requires |mask| == |fs|
    ensures |r| == |fs| && forall x :: 0 <= x < |fs| ==> r[x] == if mask[x] then fs[x] else 0
  {
    seq(|fs|, x requires 0 <= x < |fs| => if mask[x] then fs[x] else 0)
  }

  /** The balance `v` is the first one plus the fees of the messages in `mask`, all of them done. */
  ghost predicate Sums(fs: seq<nat>, done: seq<bool>, mask: seq<bool>, first: nat, v: Value) {
    && |mask| == |fs| == |done| && (forall x :: 0 <= x < |mask| && mask[x] ==> done[x])
    && Amount(v) == (first + Total(Chosen(fs, mask))) % TWO_256
  }

  predicate Any(mask: seq<bool>) { exists x :: 0 <= x < |mask| && mask[x] }

  ghost predicate Possible(fs: seq<nat>, done: seq<bool>, first: nat, v: Value) {
    exists mask :: Sums(fs, done, mask, first, v)
  }

  ghost function Seen(fs: seq<nat>, done: seq<bool>, first: nat): (vs: iset<Value>) {
    iset v: Value | Possible(fs, done, first, v)
  }

  ghost predicate Arrived(fs: seq<nat>, done: seq<bool>, first: nat, v: Value) {
    exists mask :: Sums(fs, done, mask, first, v) && (Any(done) ==> Any(mask))
  }

  lemma NoneArrived(fs: seq<nat>, done: seq<bool>, v: Value)
    requires |done| == |fs| && !Any(done)
    ensures Arrived(fs, done, Amount(v), v)
  {
    TotalZero(Chosen(fs, done));
    SmallMod(Amount(v), TWO_256);
    assert Sums(fs, done, done, Amount(v), v);
  }

  lemma SeenMore(fs: seq<nat>, done: seq<bool>, i: nat, first: nat)
    requires i < |done| == |fs|
    ensures Seen(fs, done, first) <= Seen(fs, done[i := true], first)
  {
    forall v: Value | v in Seen(fs, done, first) ensures v in Seen(fs, done[i := true], first) {
      var mask :| Sums(fs, done, mask, first, v);
      assert Sums(fs, done[i := true], mask, first, v);
    }
  }

  lemma ArrivedSeen(fs: seq<nat>, done: seq<bool>, first: nat, v: Value)
    requires Arrived(fs, done, first, v)
    ensures v in Seen(fs, done, first)
  {
  }

  lemma AmountPaid(v: Value, fee: nat)
    ensures Amount(Paid(v, fee)) == (Amount(v) + fee) % TWO_256
  {
    PaidOnce(v, fee);
    SmallMod((Amount(v) + fee) % TWO_256, TWO_256);
  }

  /** A message that has read one of the possible balances writes one of the possible balances. */
  lemma OneArrives(fs: seq<nat>, done: seq<bool>, i: nat, first: nat, v: Value)
    requires i < |done| == |fs| && !done[i] && v in Seen(fs, done, first)
    ensures Arrived(fs, done[i := true], first, Paid(v, fs[i]))
  {
    hide Paid, Amount;
    var mask :| Sums(fs, done, mask, first, v);
    var mask' := mask[i := true];
    assert !mask[i];
    var c := Chosen(fs, mask);
    assert Chosen(fs, mask') == c[i := fs[i]];
    TotalUpdate(c, i, fs[i]);
    AmountPaid(v, fs[i]);
    ModAdd(first + Total(c), fs[i], TWO_256);
    assert first + Total(c) + fs[i] == first + Total(Chosen(fs, mask'));
    assert Sums(fs, done[i := true], mask', first, Paid(v, fs[i]));
    assert mask'[i];
  }

  // ---------- Every interleaving ----------

  /** Whether a thread has merged the coinbase balance. */
  predicate Credited(job: Job, k: Key, t: Thread) {
    match t.phase
    case Running => false
    case Merging(left) => k in t.local.dirty && k !in left
    case Finished => Applies(job, t.local) && k in t.local.dirty
  }

  function DoneBy(jobs: seq<Job>, k: Key, s: State): (d: seq<bool>)
    requires |jobs| == |s.threads|
    ensures |d| == |jobs| && forall x :: 0 <= x < |jobs| ==> d[x] == Credited(jobs[x], k, s.threads[x])
  {
    seq(|jobs|, x requires 0 <= x < |jobs| => Credited(jobs[x], k, s.threads[x]))
  }

  ghost predicate Tracked(jobs: seq<Job>, ms: seq<Part>, k: Key, fs: seq<nat>, first: nat, s: State) {
    && |s.threads| == |jobs| == |ms| == |fs|
    && Arrived(fs, DoneBy(jobs, k, s), first, Fetch(s.parent, k))
    && (forall x :: 0 <= x < |jobs| ==> CreditOk(ms[x], k, s.threads[x].local, Seen(fs, DoneBy(jobs, k, s), first)))
  }

  /** A step by `i` that merges no coinbase balance. */
  lemma QuietTracked(jobs: seq<Job>, ms: seq<Part>, k: Key, fs: seq<nat>, first: nat, s: State, s': State, i: nat)
    requires Tracked(jobs, ms, k, fs, first, s) && i < |jobs| == |s'.threads|
    requires s'.threads == s.threads[i := s'.threads[i]]
    requires Fetch(s'.parent, k) == Fetch(s.parent, k)
    requires Credited(jobs[i], k, s'.threads[i]) == Credited(jobs[i], k, s.threads[i])
    requires CreditOk(ms[i], k, s'.threads[i].local, Seen(fs, DoneBy(jobs, k, s), first))
    ensures Tracked(jobs, ms, k, fs, first, s')
  {
    hide CreditOk, Credited, Arrived;
    assert DoneBy(jobs, k, s') == DoneBy(jobs, k, s);
  }

  lemma MergeTracked(jobs: seq<Job>, ms: seq<Part>, k: Key, fs: seq<nat>, first: nat, s: State, s': State, i: nat,
                     v: Value)
    requires Tracked(jobs, ms, k, fs, first, s) && i < |jobs| == |s'.threads|
    requires s'.threads == s.threads[i := s'.threads[i]]
    requires !Credited(jobs[i], k, s.threads[i]) && Credited(jobs[i], k, s'.threads[i])
    requires v in Seen(fs, DoneBy(jobs, k, s), first) && Fetch(s'.parent, k) == Paid(v, fs[i])
    requires s'.threads[i].local == s.threads[i].local
    ensures Tracked(jobs, ms, k, fs, first, s')
  {
    hide CreditOk, Credited, Arrived, Seen, Paid;
    var d := DoneBy(jobs, k, s);
    assert DoneBy(jobs, k, s') == d[i := true];
    OneArrives(fs, d, i, first, v);
    SeenMore(fs, d, i, first);
    forall x | 0 <= x < |jobs| ensures CreditOk(ms[x], k, s'.threads[x].local, Seen(fs, d[i := true], first)) {
      CreditOkMore(ms[x], k, s'.threads[x].local, Seen(fs, d, first), Seen(fs, d[i := true], first));
    }
  }

  /** A halted thread ends as it would alone. */
  lemma EndIsSolo(job: Job, own: iset<Key>, shared: set<Key>, base: Store, t: Thread)
    requires Fits(job.prog, own, shared) && ThreadOk(job, shared, base, t) && job.prog(t.local.obs).Halt?
    ensures SoloOut(job.prog, base) == Some(job.prog(t.local.obs).out)
  {
    hide Fits, Twin, SoloAt;
    SameEnd(job.prog, own, shared, t.local, SoloAt(job.prog, base, t.steps));
    SoloEndIs(job.prog, base, t.steps);
  }

  /** What an executed thread has under the coinbase key. */
  lemma OverlayPays(jobs: seq<Job>, ms: seq<Part>, own: seq<iset<Key>>, k: Key, base: Store, s: State, i: nat,
                    seen: iset<Value>)
    returns (v: Value)
    requires Paying(jobs, ms, own, k) && Inv(jobs, {k}, base, s) && i < |jobs| && Applies(jobs[i], s.threads[i].local)
    requires CreditOk(ms[i], k, s.threads[i].local, seen)
    ensures Executed(ms[i], base) && k in s.threads[i].local.dirty && v in seen
    ensures s.threads[i].local.dirty[k] == Paid(v, FeeFrom(ms[i], base))
  {
    hide Framed, AlwaysHalts, MessageOf, Fits, Paid, StageOf, SoloOut, Independent, LockOk, MergedAll, PhaseOk,
      ThreadOk;
    var m, t := ms[i], s.threads[i];
    PayingIndependent(jobs, ms, own, k);
    FitsAt(jobs, own, {k}, i);
    EndIsSolo(jobs[i], own[i], {k}, base, t);
    MessageHalts(m, own[i], k, base);
    HaltedStage(m, own[i], k, t.local.obs);
    v := StageOf(m.run, t.local.obs).v;
  }

  lemma HalfTracked(baseFee: Option<nat>, jobs: seq<Job>, ms: seq<Part>, own: seq<iset<Key>>, k: Key, base: Store,
                    s: State, i: nat)
    requires Paying(jobs, ms, own, k) && Inv(jobs, {k}, base, s) && i < |jobs| && s.threads[i].phase.Running?
    requires Tracked(jobs, ms, k, FeesFrom(ms, base), Amount(Fetch(base, k)), s)
    ensures Tracked(jobs, ms, k, FeesFrom(ms, base), Amount(Fetch(base, k)), TickRunning(baseFee, jobs[i], s, i))
  {
    hide CreditOk, Arrived, Seen, Amount, Framed, AlwaysHalts, MessageOf, Inv, Advance;
    var fs, first := FeesFrom(ms, base), Amount(Fetch(base, k));
    var s', t := TickRunning(baseFee, jobs[i], s, i), s.threads[i];
    var d := DoneBy(jobs, k, s);
    ArrivedSeen(fs, d, first, Fetch(s.parent, k));
    if s' != s {
      if !jobs[i].prog(t.local.obs).Halt? {
        CreditAdvance(ms[i], own[i], k, s.parent, t.local, Seen(fs, d, first));
      }
      QuietTracked(jobs, ms, k, fs, first, s, s', i);
    }
  }

  lemma ReleaseTracked(baseFee: Option<nat>, jobs: seq<Job>, ms: seq<Part>, k: Key, fs: seq<nat>, first: nat, s: State,
                       i: nat)
    requires Sound(jobs, s) && i < |jobs| && s.threads[i].phase == Merging({}) && Tracked(jobs, ms, k, fs, first, s)
    ensures Tracked(jobs, ms, k, fs, first, TickMerged(baseFee, jobs[i], s, i))
  {
    hide CreditOk, Arrived, Seen, Account, LockOk;
    assert PhaseOk(jobs[i], s.threads[i]);
    QuietTracked(jobs, ms, k, fs, first, s, TickMerged(baseFee, jobs[i], s, i), i);
  }

  lemma MergingTracked(jobs: seq<Job>, ms: seq<Part>, own: seq<iset<Key>>, k: Key, base: Store, s: State, i: nat,
                       key: Key)
    requires Paying(jobs, ms, own, k) && Inv(jobs, {k}, base, s) && i < |jobs|
    requires Tracked(jobs, ms, k, FeesFrom(ms, base), Amount(Fetch(base, k)), s)
    ensures Tracked(jobs, ms, k, FeesFrom(ms, base), Amount(Fetch(base, k)), MergeStep(s, i, key))
  {
    hide CreditOk, Arrived, Seen, Amount, Framed, AlwaysHalts, MessageOf, LockOk, ThreadOk, Paid, MergedAll, Proper;
    var fs, first := FeesFrom(ms, base), Amount(Fetch(base, k));
    var s', t := MergeStep(s, i, key), s.threads[i];
    if s' != s {
      assert PhaseOk(jobs[i], t);
      if key == k {
        var v := OverlayPays(jobs, ms, own, k, base, s, i, Seen(fs, DoneBy(jobs, k, s), first));
        MergeTracked(jobs, ms, k, fs, first, s, s', i, v);
      } else {
        QuietTracked(jobs, ms, k, fs, first, s, s', i);
      }
    }
  }

  lemma StepTracked(baseFee: Option<nat>, jobs: seq<Job>, ms: seq<Part>, own: seq<iset<Key>>, k: Key, base: Store,
                    s: State, c: Choice)
    requires Paying(jobs, ms, own, k) && Inv(jobs, {k}, base, s)
    requires Tracked(jobs, ms, k, FeesFrom(ms, base), Amount(Fetch(base, k)), s)
    ensures Tracked(jobs, ms, k, FeesFrom(ms, base), Amount(Fetch(base, k)), Step(baseFee, jobs, s, c))
  {
    hide Tracked, TickRunning, TickMerged, MergeStep, Amount, Paying, PhaseOk, LockOk, ThreadOk, MergedAll;
    if c.i < |jobs| {
      match c
      case Tick(i) =>
        if s.threads[i].phase.Running? {
          HalfTracked(baseFee, jobs, ms, own, k, base, s, i);
        } else if s.threads[i].phase == Merging({}) {
          ReleaseTracked(baseFee, jobs, ms, k, FeesFrom(ms, base), Amount(Fetch(base, k)), s, i);
        }
      case MergeKey(i, key) => MergingTracked(jobs, ms, own, k, base, s, i, key);
    }
  }

  lemma StartTracked(jobs: seq<Job>, ms: seq<Part>, own: seq<iset<Key>>, k: Key, base: Store, l: Ledger)
    requires Paying(jobs, ms, own, k)
    ensures Tracked(jobs, ms, k, FeesFrom(ms, base), Amount(Fetch(base, k)), Start(jobs, base, l))
  {
    hide CreditOk, Arrived, Seen, Amount, Proper;
    var s, fs, first := Start(jobs, base, l), FeesFrom(ms, base), Amount(Fetch(base, k));
    NoneArrived(fs, DoneBy(jobs, k, s), Fetch(base, k));
    forall x | 0 <= x < |jobs|
      ensures CreditOk(ms[x], k, s.threads[x].local, Seen(fs, DoneBy(jobs, k, s), first))
    {
      CreditOkStart(ms[x], k, Seen(fs, DoneBy(jobs, k, s), first));
    }
  }

  lemma {:induction false} RunTracked(baseFee: Option<nat>, jobs: seq<Job>, ms: seq<Part>, own: seq<iset<Key>>, k: Key,
                                      base: Store, l: Ledger, cs: seq<Choice>)
    requires Paying(jobs, ms, own, k)
    ensures Tracked(jobs, ms, k, FeesFrom(ms, base), Amount(Fetch(base, k)),
                    Run(baseFee, jobs, Start(jobs, base, l), cs))
  {
    hide Tracked, Paying, Amount, Start, Inv, Independent, Step;
    var s := Start(jobs, base, l);
    PayingIndependent(jobs, ms, own, k);
    if cs == [] {
      StartTracked(jobs, ms, own, k, base, l);
      NoSteps(baseFee, jobs, base, l);
    } else {
      RunTracked(baseFee, jobs, ms, own, k, base, l, cs[..|cs| - 1]);
      RunKeepsInv(baseFee, jobs, own, {k}, base, l, cs[..|cs| - 1]);
      StepTracked(baseFee, jobs, ms, own, k, base, Run(baseFee, jobs, s, cs[..|cs| - 1]), cs[|cs| - 1]);
    }
  }

  lemma NoSteps(baseFee: Option<nat>, jobs: seq<Job>, base: Store, l: Ledger)
    ensures Run(baseFee, jobs, Start(jobs, base, l), []) == Start(jobs, base, l)
  {
  }

  // ---------- What the coinbase receives ----------

  /** Messages that are all executed from `base`, at least one if any is. */
  ghost predicate SomeExecuted(ms: seq<Part>, base: Store, mask: seq<bool>) {
    && |mask| == |ms| && (forall x :: 0 <= x < |ms| && mask[x] ==> Executed(ms[x], base))
    && ((exists x :: 0 <= x < |ms| && Executed(ms[x], base)) ==> Any(mask))
  }

  lemma DoneIsExecuted(baseFee: Option<nat>, jobs: seq<Job>, ms: seq<Part>, own: seq<iset<Key>>, k: Key, base: Store,
                       l: Ledger, cs: seq<Choice>, x: nat)
    requires Paying(jobs, ms, own, k) && AllFinished(Run(baseFee, jobs, Start(jobs, base, l), cs)) && x < |jobs|
    ensures DoneBy(jobs, k, Run(baseFee, jobs, Start(jobs, base, l), cs))[x] <==> Executed(ms[x], base)
  {
    hide CreditOk, Arrived, Amount, MessageOf, Proper, Run, Start, Independent, SoloOut, Paid, Inv, SeqRun;
    var s := Run(baseFee, jobs, Start(jobs, base, l), cs);
    PayingIndependent(jobs, ms, own, k);
    RunKeepsInv(baseFee, jobs, own, {k}, base, l, cs);
    WaveIsSequential(baseFee, jobs, own, {k}, base, l, cs);
    assert EndsAs(jobs[x], s.threads[x], SoloOut(jobs[x].prog, base));
    MessageHalts(ms[x], own[x], k, base);
    if Executed(ms[x], base) {
      RunTracked(baseFee, jobs, ms, own, k, base, l, cs);
      var seen := Seen(FeesFrom(ms, base), DoneBy(jobs, k, s), Amount(Fetch(base, k)));
      var v := OverlayPays(jobs, ms, own, k, base, s, x, seen);
    }
  }

  lemma TrackedArrived(jobs: seq<Job>, ms: seq<Part>, k: Key, fs: seq<nat>, first: nat, s: State)
    requires Tracked(jobs, ms, k, fs, first, s)
    ensures |jobs| == |s.threads| == |ms| == |fs| && Arrived(fs, DoneBy(jobs, k, s), first, Fetch(s.parent, k))
  {
  }

  lemma MaskOf(fs: seq<nat>, done: seq<bool>, first: nat, v: Value) returns (mask: seq<bool>)
    requires Arrived(fs, done, first, v)
    ensures |mask| == |fs| == |done| && (forall x :: 0 <= x < |mask| && mask[x] ==> done[x])
    ensures Any(done) ==> Any(mask)
    ensures Amount(v) == (first + Total(Chosen(fs, mask))) % TWO_256
  {
    mask :| Sums(fs, done, mask, first, v) && (Any(done) ==> Any(mask));
  }

  lemma MaskExecuted(ms: seq<Part>, base: Store, done: seq<bool>, mask: seq<bool>)
    requires |mask| == |done| == |ms| && (forall x :: 0 <= x < |mask| && mask[x] ==> done[x])
    requires (Any(done) ==> Any(mask)) && forall x :: 0 <= x < |ms| ==> (done[x] <==> Executed(ms[x], base))
    ensures SomeExecuted(ms, base, mask)
  {
    hide Executed;
    if x :| 0 <= x < |ms| && Executed(ms[x], base) { assert done[x]; }
  }

  /** Every complete interleaving of a wave of messages leaves the coinbase with its balance plus
      the fees of some of the executed messages, of at least one if any was executed. */
  lemma CoinbaseReceives(baseFee: Option<nat>, jobs: seq<Job>, ms: seq<Part>, own: seq<iset<Key>>, k: Key, base: Store,
                         l: Ledger, cs: seq<Choice>)
    returns (mask: seq<bool>)
    requires Paying(jobs, ms, own, k) && AllFinished(Run(baseFee, jobs, Start(jobs, base, l), cs))
    ensures SomeExecuted(ms, base, mask)
    ensures Amount(Fetch(Run(baseFee, jobs, Start(jobs, base, l), cs).parent, k)) ==
      (Amount(Fetch(base, k)) + Total(Chosen(FeesFrom(ms, base), mask))) % TWO_256
  {
    hide *;
    var s := Run(baseFee, jobs, Start(jobs, base, l), cs);
    var fs, first, d := FeesFrom(ms, base), Amount(Fetch(base, k)), DoneBy(jobs, k, s);
    RunTracked(baseFee, jobs, ms, own, k, base, l, cs);
    TrackedArrived(jobs, ms, k, fs, first, s);
    mask := MaskOf(fs, d, first, Fetch(s.parent, k));
    forall x | 0 <= x < |jobs| ensures d[x] <==> Executed(ms[x], base) {
      DoneIsExecuted(baseFee, jobs, ms, own, k, base, l, cs, x);
    }
    MaskExecuted(ms, base, d, mask);
  }

  // ---------- Messages in turn ----------

  /** The fees of the listed messages. */
  function Picked(fs: seq<nat>, order: seq<nat>): (r: seq<nat>)
    requires forall x :: 0 <= x < |order| ==> order[x] < |fs|
    ensures |r| == |order| && forall x :: 0 <= x < |order| ==> r[x] == fs[order[x]]
  {
    seq(|order|, x requires 0 <= x < |order| => fs[order[x]])
  }

  /** Executions depend only on the message's own keys. */
  lemma SameFee(m: Part, own: iset<Key>, a: Store, b: Store)
    requires Framed(m.run, own, {}) && Agree(a, b, own)
    ensures FeeFrom(m, a) == FeeFrom(m, b) && (Executed(m, a) <==> Executed(m, b))
  {
    hide SoloOut, Framed, Fits, Agree, Delta;
    FitsAlone(m.run, own);
    DeltaTwins(m.run, own, {}, a, b);
  }

  /** One message run by itself pays its fee. */
  lemma OneTurn(m: Part, own: iset<Key>, k: Key, base: Store, s: Store)
    requires Proper(m, own) && k !in own && Agree(base, s, own)
    ensures Amount(Fetch(Effect(MessageOf(m, k), s), k)) == (Amount(Fetch(s, k)) + FeeFrom(m, base)) % TWO_256
  {
    hide Framed, AlwaysHalts, MessageOf, Effect, SoloOut, Paid, Amount, EndDirty;
    SameFee(m, own, base, s);
    if Executed(m, s) {
      AloneDirty(m, own, k, s);
      AmountPaid(Fetch(s, k), FeeFrom(m, s));
    } else {
      AloneRefused(m, own, k, s);
      SmallAmount(Fetch(s, k));
    }
  }

  lemma SmallAmount(v: Value)
    ensures Amount(v) % TWO_256 == Amount(v)
  {
    SmallMod(Amount(v), TWO_256);
  }

  lemma AgreeTrans(a: Store, b: Store, c: Store, own: iset<Key>)
    requires Agree(a, b, own) && Agree(b, c, own)
    ensures Agree(a, c, own)
  {
  }

  /** One message run by itself does not show on another's keys. */
  lemma TurnUnseen(jobs: seq<Job>, ms: seq<Part>, own: seq<iset<Key>>, k: Key, base: Store, s: Store, x: nat, y: nat)
    requires Paying(jobs, ms, own, k) && x < |jobs| && y < |jobs| && x != y && Agree(base, s, own[y])
    ensures Agree(base, Effect(jobs[x].prog, s), own[y])
  {
    hide Framed, AlwaysHalts, MessageOf, Effect, Agree, Fits;
    PartFits(ms[x], own[x], k);
    assert own[x] !! own[y] by {
      var a, b := if x < y then x else y, if x < y then y else x;
      assert own[a] !! own[b];
    }
    EffectUnseen(MessageOf(ms[x], k), own[x], own[y], {k}, s);
    AgreeTrans(base, s, Effect(jobs[x].prog, s), own[y]);
  }

  ghost predicate AgreeAt(base: Store, s: Store, own: seq<iset<Key>>, x: nat) {
    x < |own| && Agree(base, s, own[x])
  }

  lemma {:induction false} TurnsUnseen(jobs: seq<Job>, ms: seq<Part>, own: seq<iset<Key>>, k: Key, base: Store,
                                       s: Store, order: seq<nat>, y: nat)
    requires Paying(jobs, ms, own, k) && InRange(order, |jobs|) && y !in order && AgreeAt(base, s, own, y)
    ensures AgreeAt(base, SeqAt(Progs(jobs), order, s), own, y)
  {
    hide Paying, Effect, Agree;
    if order != [] {
      var o, x := order[..|order| - 1], order[|order| - 1];
      TurnsUnseen(jobs, ms, own, k, base, s, o, y);
      PayingSizes(jobs, ms, own, k);
      TurnUnseen(jobs, ms, own, k, base, SeqAt(Progs(jobs), o, s), x, y);
    }
  }

  lemma PayingSizes(jobs: seq<Job>, ms: seq<Part>, own: seq<iset<Key>>, k: Key)
    requires Paying(jobs, ms, own, k)
    ensures |jobs| == |ms| == |own|
  {
  }

  lemma PayingAt(jobs: seq<Job>, ms: seq<Part>, own: seq<iset<Key>>, k: Key, x: nat)
    requires Paying(jobs, ms, own, k) && x < |jobs|
    ensures |jobs| == |ms| == |own| && jobs[x].prog == MessageOf(ms[x], k) && Proper(ms[x], own[x]) && k !in own[x]
  {
  }

  /** Messages in turn pay all their fees. */
  lemma {:induction false} TurnsPay(jobs: seq<Job>, ms: seq<Part>, own: seq<iset<Key>>, k: Key, base: Store, s: Store,
                                    order: seq<nat>)
    requires Paying(jobs, ms, own, k) && |ms| == |jobs| && InRange(order, |jobs|) && Distinct(order)
    requires forall x :: 0 <= x < |order| ==> AgreeAt(base, s, own, order[x])
    ensures Amount(Fetch(SeqAt(Progs(jobs), order, s), k)) ==
      (Amount(Fetch(s, k)) + Total(Picked(FeesFrom(ms, base), order))) % TWO_256
  {
    hide Paying, Effect, Amount, FeeFrom, SeqAt, Total, AgreeAt;
    if order == [] {
      NoTurns(Progs(jobs), FeesFrom(ms, base), s, k);
    } else {
      var o, x := order[..|order| - 1], order[|order| - 1];
      TurnsPay(jobs, ms, own, k, base, s, o);
      TurnsUnseen(jobs, ms, own, k, base, s, o, x);
      LastTurnPays(jobs, ms, own, k, base, SeqAt(Progs(jobs), o, s), x);
      assert order == o + [x];
      SeqAtSnoc(Progs(jobs), o, x, s);
      PickedSnoc(FeesFrom(ms, base), o, x);
      AddTwice(Amount(Fetch(s, k)), Total(Picked(FeesFrom(ms, base), o)), FeeFrom(ms[x], base));
    }
  }

  lemma NoTurns(ps: seq<Program>, fs: seq<nat>, s: Store, k: Key)
    ensures Amount(Fetch(SeqAt(ps, [], s), k)) == (Amount(Fetch(s, k)) + Total(Picked(fs, []))) % TWO_256
  {
    SmallAmount(Fetch(s, k));
  }

  lemma PickedSnoc(fs: seq<nat>, o: seq<nat>, x: nat)
    requires x < |fs| && forall i :: 0 <= i < |o| ==> o[i] < |fs|
    ensures Total(Picked(fs, o + [x])) == Total(Picked(fs, o)) + fs[x]
  {
    assert Picked(fs, o + [x])[..|o|] == Picked(fs, o);
  }

  lemma LastTurnPays(jobs: seq<Job>, ms: seq<Part>, own: seq<iset<Key>>, k: Key, base: Store, t: Store, x: nat)
    requires Paying(jobs, ms, own, k) && |ms| == |jobs| && x < |jobs| && AgreeAt(base, t, own, x)
    ensures Amount(Fetch(Effect(Progs(jobs)[x], t), k)) == (Amount(Fetch(t, k)) + FeeFrom(ms[x], base)) % TWO_256
  {
    hide Paying, Effect, Amount, FeeFrom, Agree, Proper;
    PayingAt(jobs, ms, own, k, x);
    OneTurn(ms[x], own[x], k, base, t);
  }

  // ---------- A fee is lost ----------

  lemma DirtyWithin(m: Part, own: iset<Key>, k: Key, s: Store)
    requires Proper(m, own) && k !in own
    ensures Owned(EndDirty(MessageOf(m, k), s), own, {k})
  {
    hide Framed, AlwaysHalts, MessageOf, Fits, SoloAt;
    PartFits(m, own, k);
    MessageAlwaysHalts(m, own, k);
    var n := HaltOf(MessageOf(m, k), s);
    assert Framed(MessageOf(m, k), own, {k}) by { FitsFramed(MessageOf(m, k), own, {k}); }
    SoloOwned(MessageOf(m, k), own, {k}, s, n);
  }

  lemma FitsFramed(p: Program, own: iset<Key>, shared: set<Key>)
    requires Fits(p, own, shared)
    ensures Framed(p, own, shared)
  {
  }

  /** The state two overlapping messages leave: the second one's balance, and nothing of anyone
      else's changed. */
  lemma OverlapLeaves(jobs: seq<Job>, ms: seq<Part>, own: seq<iset<Key>>, k: Key, base: Store, i: nat, j: nat, z: nat)
    requires Paying(jobs, ms, own, k) && i < |jobs| && j < |jobs| && z < |jobs| && z != i && z != j
    ensures |own| == |jobs|
    ensures Agree(base, base + EndDirty(jobs[i].prog, base) + EndDirty(jobs[j].prog, base), own[z])
  {
    hide Proper, MessageOf, EndDirty;
    DirtyWithin(ms[i], own[i], k, base);
    DirtyWithin(ms[j], own[j], k, base);
    assert own[i] !! own[z] by { Apart(own, i, z); }
    assert own[j] !! own[z] by { Apart(own, j, z); }
  }

  lemma Apart(own: seq<iset<Key>>, x: nat, y: nat)
    requires x < |own| && y < |own| && x != y && forall a, b :: 0 <= a < b < |own| ==> own[a] !! own[b]
    ensures own[x] !! own[y]
  {
    var a, b := if x < y then x else y, if x < y then y else x;
    assert own[a] !! own[b];
  }

  /** The fees of everyone but two. */
  ghost function RestFees(ms: seq<Part>, base: Store, i: nat, j: nat): (n: nat) {
    OthersAre(|ms|, i, j);
    Total(Picked(FeesFrom(ms, base), Others(|ms|, i, j)))
  }

  /** All messages one after the other: all fees arrive. */
  lemma AllInTurn(baseFee: Option<nat>, jobs: seq<Job>, ms: seq<Part>, own: seq<iset<Key>>, k: Key, base: Store,
                  l: Ledger, i: nat, j: nat)
    returns (cs: seq<Choice>)
    requires Paying(jobs, ms, own, k) && |ms| == |jobs| && i < |jobs| && j < |jobs| && i != j
    ensures AllFinished(Run(baseFee, jobs, Start(jobs, base, l), cs))
    ensures Amount(Fetch(Run(baseFee, jobs, Start(jobs, base, l), cs).parent, k)) ==
      (Amount(Fetch(base, k)) + (FeeFrom(ms[i], base) + FeeFrom(ms[j], base) + RestFees(ms, base, i, j))) % TWO_256
  {
    hide *;
    var all := [i, j] + Others(|jobs|, i, j);
    TwoFirst(|jobs|, i, j);
    forall x | 0 <= x < |jobs| ensures AlwaysHalts(jobs[x].prog) {
      PayingAt(jobs, ms, own, k, x);
      MessageAlwaysHalts(ms[x], own[x], k);
    }
    cs := WholeWaveInTurn(baseFee, jobs, base, l, all);
    AllAgree(jobs, ms, own, k, base, all);
    TurnsPay(jobs, ms, own, k, base, base, all);
    PickedTwo(ms, base, i, j);
  }

  lemma AllAgree(jobs: seq<Job>, ms: seq<Part>, own: seq<iset<Key>>, k: Key, base: Store, order: seq<nat>)
    requires Paying(jobs, ms, own, k) && InRange(order, |jobs|)
    ensures forall x :: 0 <= x < |order| ==> AgreeAt(base, base, own, order[x])
  {
    hide Proper;
  }

  lemma PickedTwo(ms: seq<Part>, base: Store, i: nat, j: nat)
    requires i < |ms| && j < |ms| && i != j && InRange([i, j] + Others(|ms|, i, j), |ms|)
    ensures Total(Picked(FeesFrom(ms, base), [i, j] + Others(|ms|, i, j))) ==
      FeeFrom(ms[i], base) + FeeFrom(ms[j], base) + RestFees(ms, base, i, j)
  {
    hide FeeFrom, Others, Total;
    var fs, rest := FeesFrom(ms, base), Others(|ms|, i, j);
    OthersAre(|ms|, i, j);
    assert Picked(fs, [i, j] + rest) == [fs[i], fs[j]] + Picked(fs, rest);
    TotalConcat([fs[i], fs[j]], Picked(fs, rest));
    TotalTwo(fs[i], fs[j]);
  }

  lemma {:induction false} TotalConcat(a: seq<nat>, b: seq<nat>)
    ensures Total(a + b) == Total(a) + Total(b)
    decreases |b|
  {
    if b == [] {
      assert a + b == a;
    } else {
      assert (a + b)[..|a + b| - 1] == a + b[..|b| - 1];
      TotalConcat(a, b[..|b| - 1]);
    }
  }

  lemma TotalTwo(x: nat, y: nat)
    ensures Total([x, y]) == x + y
  {
    assert [x, y][..1] == [x] && [x][..0] == [];
    assert Total([x]) == x;
  }

  lemma AddTwice(a: nat, f: nat, r: nat)
    ensures ((a + f) % TWO_256 + r) % TWO_256 == (a + (f + r)) % TWO_256
  {
    ModAdd(a + f, r, TWO_256);
    assert a + f + r == a + (f + r);
  }

  /** Two messages overlap, the others run in turn: the first one's fee is lost. */
  lemma FirstFeeLost(baseFee: Option<nat>, jobs: seq<Job>, ms: seq<Part>, own: seq<iset<Key>>, k: Key, base: Store,
                     l: Ledger, i: nat, j: nat)
    returns (cs: seq<Choice>)
    requires Paying(jobs, ms, own, k) && |ms| == |jobs| && i < |jobs| && j < |jobs| && i != j
    requires Executed(ms[i], base) && Executed(ms[j], base)
    ensures AllFinished(Run(baseFee, jobs, Start(jobs, base, l), cs))
    ensures Amount(Fetch(Run(baseFee, jobs, Start(jobs, base, l), cs).parent, k)) ==
      (Amount(Fetch(base, k)) + (FeeFrom(ms[j], base) + RestFees(ms, base, i, j))) % TWO_256
  {
    hide *;
    var rest := Others(|jobs|, i, j);
    TwoFirst(|jobs|, i, j);
    OthersAre(|jobs|, i, j);
    forall x | 0 <= x < |jobs| ensures AlwaysHalts(jobs[x].prog) {
      PayingAt(jobs, ms, own, k, x);
      MessageAlwaysHalts(ms[x], own[x], k);
    }
    ExecutedMessage(jobs, ms, own, k, base, i);
    ExecutedMessage(jobs, ms, own, k, base, j);
    cs := OverlapThenTurns(baseFee, jobs, base, l, i, j, rest);
    var s := base + EndDirty(jobs[i].prog, base) + EndDirty(jobs[j].prog, base);
    forall x | 0 <= x < |rest| ensures AgreeAt(base, s, own, rest[x]) {
      assert rest[x] in rest;
      OverlapAgrees(jobs, ms, own, k, base, i, j, rest[x]);
    }
    DistinctOthers(|jobs|, i, j);
    TurnsPay(jobs, ms, own, k, base, s, rest);
    OverlapBalance(jobs, ms, own, k, base, i, j);
    RestFeesAre(ms, base, i, j);
    AddTwice(Amount(Fetch(base, k)), FeeFrom(ms[j], base), RestFees(ms, base, i, j));
  }

  lemma DistinctOthers(n: nat, i: nat, j: nat)
    ensures InRange(Others(n, i, j), n) && Distinct(Others(n, i, j))
  {
    OthersAre(n, i, j);
  }

  lemma RestFeesAre(ms: seq<Part>, base: Store, i: nat, j: nat)
    requires InRange(Others(|ms|, i, j), |ms|)
    ensures RestFees(ms, base, i, j) == Total(Picked(FeesFrom(ms, base), Others(|ms|, i, j)))
  {
  }

  lemma ExecutedMessage(jobs: seq<Job>, ms: seq<Part>, own: seq<iset<Key>>, k: Key, base: Store, i: nat)
    requires Paying(jobs, ms, own, k) && i < |jobs| && |ms| == |jobs| && Executed(ms[i], base)
    ensures SoloOut(jobs[i].prog, base).Some? && SoloOut(jobs[i].prog, base).value.Applied?
  {
    hide Proper, MessageOf, SoloOut;
    MessageHalts(ms[i], own[i], k, base);
  }

  lemma OverlapAgrees(jobs: seq<Job>, ms: seq<Part>, own: seq<iset<Key>>, k: Key, base: Store, i: nat, j: nat, z: nat)
    requires Paying(jobs, ms, own, k) && i < |jobs| && j < |jobs| && z < |jobs| && z != i && z != j
    ensures AgreeAt(base, base + EndDirty(jobs[i].prog, base) + EndDirty(jobs[j].prog, base), own, z)
  {
    hide EndDirty, Agree, Paying;
    OverlapLeaves(jobs, ms, own, k, base, i, j, z);
  }

  lemma OverlapBalance(jobs: seq<Job>, ms: seq<Part>, own: seq<iset<Key>>, k: Key, base: Store, i: nat, j: nat)
    requires Paying(jobs, ms, own, k) && i < |jobs| && j < |jobs| == |ms| && Executed(ms[j], base)
    ensures Amount(Fetch(base + EndDirty(jobs[i].prog, base) + EndDirty(jobs[j].prog, base), k)) ==
      (Amount(Fetch(base, k)) + FeeFrom(ms[j], base)) % TWO_256
  {
    hide EndDirty, Proper, MessageOf, Executed, FeeFrom, Effect, Paid, Amount;
    AloneDirty(ms[j], own[j], k, base);
    AmountPaid(Fetch(base, k), FeeFrom(ms[j], base));
  }

  // ---------- The exact condition ----------

  /** All complete interleavings leave the coinbase the same balance. */
  ghost predicate OneBalance(baseFee: Option<nat>, jobs: seq<Job>, k: Key, base: Store, l: Ledger) {
    forall cs, cs' ::
      AllFinished(Run(baseFee, jobs, Start(jobs, base, l), cs)) &&
      AllFinished(Run(baseFee, jobs, Start(jobs, base, l), cs')) ==>
      Amount(Fetch(Run(baseFee, jobs, Start(jobs, base, l), cs).parent, k)) ==
      Amount(Fetch(Run(baseFee, jobs, Start(jobs, base, l), cs').parent, k))
  }

  /** Of any two executed messages neither pays anything. */
  ghost predicate NoRace(ms: seq<Part>, base: Store) {
    forall x, y :: 0 <= x < |ms| && 0 <= y < |ms| && x != y && Executed(ms[x], base) && Executed(ms[y], base) ==>
      FeeFrom(ms[x], base) % TWO_256 == 0
  }

  lemma ShiftedMod(x: nat, y: nat)
    requires y % TWO_256 != 0
    ensures (x + y) % TWO_256 != x % TWO_256
  {
    ModAdd(y, x, TWO_256);
    assert y % TWO_256 + x == x + y % TWO_256 && y + x == x + y;
    Shifted(x, y % TWO_256);
  }

  /** In a wave with two executed messages one of which pays, a fee is lost in some complete
      interleavings and arrives in others. */
  lemma FeeLost(baseFee: Option<nat>, jobs: seq<Job>, ms: seq<Part>, own: seq<iset<Key>>, k: Key, base: Store,
                l: Ledger, i: nat, j: nat)
    requires Paying(jobs, ms, own, k) && |ms| == |jobs| && i < |jobs| && j < |jobs| && i != j
    requires Executed(ms[i], base) && Executed(ms[j], base) && FeeFrom(ms[i], base) % TWO_256 != 0
    ensures !OneBalance(baseFee, jobs, k, base, l)
  {
    hide Paying, Run, Start, Amount, Executed, FeeFrom, RestFees, AllFinished;
    var a := AllInTurn(baseFee, jobs, ms, own, k, base, l, i, j);
    var b := FirstFeeLost(baseFee, jobs, ms, own, k, base, l, i, j);
    var x := Amount(Fetch(base, k)) + (FeeFrom(ms[j], base) + RestFees(ms, base, i, j));
    ShiftedMod(x, FeeFrom(ms[i], base));
    assert x + FeeFrom(ms[i], base) ==
      Amount(Fetch(base, k)) + (FeeFrom(ms[i], base) + FeeFrom(ms[j], base) + RestFees(ms, base, i, j));
  }

  lemma {:induction false} TotalModZero(xs: seq<nat>)
    requires forall x :: 0 <= x < |xs| ==> xs[x] % TWO_256 == 0
    ensures Total(xs) % TWO_256 == 0
  {
    if xs != [] {
      TotalModZero(xs[..|xs| - 1]);
      ModAdd(Total(xs[..|xs| - 1]), xs[|xs| - 1], TWO_256);
    }
  }

  /** With nothing to race for, whichever fees arrive the balance is the same. */
  lemma SameSum(ms: seq<Part>, base: Store, first: nat, mask: seq<bool>, mask': seq<bool>)
    requires NoRace(ms, base) && SomeExecuted(ms, base, mask) && SomeExecuted(ms, base, mask')
    ensures (first + Total(Chosen(FeesFrom(ms, base), mask))) % TWO_256 ==
      (first + Total(Chosen(FeesFrom(ms, base), mask'))) % TWO_256
  {
    hide Total, Executed, FeeFrom;
    var fs := FeesFrom(ms, base);
    if x, y :| 0 <= x < |ms| && 0 <= y < |ms| && x != y && Executed(ms[x], base) && Executed(ms[y], base) {
      forall z | 0 <= z < |ms| && Executed(ms[z], base) ensures fs[z] % TWO_256 == 0 {
        var other := if z == x then y else x;
        assert z != other && Executed(ms[other], base);
      }
      TotalModZero(Chosen(fs, mask));
      TotalModZero(Chosen(fs, mask'));
      ModAdd(Total(Chosen(fs, mask)), first, TWO_256);
      ModAdd(Total(Chosen(fs, mask')), first, TWO_256);
    } else {
      forall x | 0 <= x < |ms| ensures mask[x] == mask'[x] {
        if mask[x] {
          var y :| 0 <= y < |mask'| && mask'[y];
          assert Executed(ms[x], base) && Executed(ms[y], base);
        }
        if mask'[x] {
          var y :| 0 <= y < |mask| && mask[y];
          assert Executed(ms[x], base) && Executed(ms[y], base);
        }
      }
      assert mask == mask';
    }
  }

  /** All complete interleavings of a wave of messages pay the coinbase the same exactly when no two
      messages are executed, or none of those executed pays a fee. */
  lemma OneBalanceExactly(baseFee: Option<nat>, jobs: seq<Job>, ms: seq<Part>, own: seq<iset<Key>>, k: Key, base: Store,
                          l: Ledger)
    requires Paying(jobs, ms, own, k)
    ensures OneBalance(baseFee, jobs, k, base, l) <==> NoRace(ms, base)
  {
    hide Paying, Run, Start, Amount, Executed, FeeFrom, AllFinished, SomeExecuted, Total;
    PayingSizes(jobs, ms, own, k);
    if NoRace(ms, base) {
      forall cs, cs' | AllFinished(Run(baseFee, jobs, Start(jobs, base, l), cs)) &&
                       AllFinished(Run(baseFee, jobs, Start(jobs, base, l), cs'))
        ensures Amount(Fetch(Run(baseFee, jobs, Start(jobs, base, l), cs).parent, k)) ==
          Amount(Fetch(Run(baseFee, jobs, Start(jobs, base, l), cs').parent, k))
      {
        var a := CoinbaseReceives(baseFee, jobs, ms, own, k, base, l, cs);
        var b := CoinbaseReceives(baseFee, jobs, ms, own, k, base, l, cs');
        SameSum(ms, base, Amount(Fetch(base, k)), a, b);
      }
    } else {
      var x, y :| 0 <= x < |ms| && 0 <= y < |ms| && x != y && Executed(ms[x], base) && Executed(ms[y], base) &&
                  FeeFrom(ms[x], base) % TWO_256 != 0;
      FeeLost(baseFee, jobs, ms, own, k, base, l, x, y);
    }
  }
}
