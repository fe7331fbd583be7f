/** One wave as a concurrent machine. Every transaction runs in its own goroutine on a private
    overlay: it reads through to the parent state without a lock, writes to its overlay, and
    merges its overlay into the parent one key at a time while holding the merge lock. An
    interleaving is a list of choices saying who moves next; a choice that is not enabled
    leaves the state alone. */
module Wave {
  import opened Base

  // ---------- Transaction programs ----------

  /** How the goroutine ends before the merge lock: oversized or unconvertible, refused by
      `ApplyMessage`, or executed. */
  datatype Outcome = Skipped | Rejected | Applied(gas: nat, failed: bool)

  datatype Action = Read(k: Key) | Write(k: Key, v: Value) | Halt(out: Outcome)

  /** A deterministic program: the next action as a function of the values observed so far. */
  type Program = seq<Value> -> Action

  /** An overlay and what its program has observed. */
  datatype Local = Local(obs: seq<Value>, dirty: Store)

  /** One instruction on an overlay over `parent`; a halted program stays put. */
  function Advance(p: Program, parent: Store, l: Local): (r: Local) {
    match p(l.obs)
    case Read(k) => Local(l.obs + [if k in l.dirty then l.dirty[k] else Fetch(parent, k)], l.dirty)
    case Write(k, v) => Local(l.obs + [v], l.dirty[k := v])
    case Halt(_) => l
  }

  /** The overlay after `n` instructions with nobody else moving. */
  function SoloAt(p: Program, parent: Store, n: nat): (l: Local) {
    if n == 0 then Local([], map[]) else Advance(p, parent, SoloAt(p, parent, n - 1))
  }

  /** The same program writing straight into a state, without an overlay. */
  function DirectAt(p: Program, s: Store, n: nat): (r: (seq<Value>, Store)) {
    if n == 0 then ([], s) else
      var (obs, t) := DirectAt(p, s, n - 1);
      match p(obs)
      case Read(k) => (obs + [Fetch(t, k)], t)
      case Write(k, v) => (obs + [v], t[k := v])
      case Halt(_) => (obs, t)
  }

  /** Running on an overlay is running on the state: the program observes the same values, and
      the parent with the overlay put over it is the state it would have produced. */
  lemma {:induction false} OverlayIsDirect(p: Program, parent: Store, n: nat)
    ensures DirectAt(p, parent, n) == (SoloAt(p, parent, n).obs, parent + SoloAt(p, parent, n).dirty)
  {
    if n > 0 {
      OverlayIsDirect(p, parent, n - 1);
      var l := SoloAt(p, parent, n - 1);
      match p(l.obs)
      case Read(k) => assert Fetch(parent + l.dirty, k) == if k in l.dirty then l.dirty[k] else Fetch(parent, k);
      case Write(k, v) => assert (parent + l.dirty)[k := v] == parent + l.dirty[k := v];
      case Halt(_) =>
    } else {
      assert parent + map[] == parent;
    }
  }

  /** The overlay of a complete run alone, if the program halts. */
  ghost predicate HaltsAt(p: Program, parent: Store, n: nat) {
    p(SoloAt(p, parent, n).obs).Halt?
  }

  ghost predicate Halts(p: Program, parent: Store) {
    exists n: nat :: HaltsAt(p, parent, n)
  }

  ghost predicate AlwaysHalts(p: Program) {
    forall parent: Store :: Halts(p, parent)
  }

  ghost function SoloEnd(p: Program, parent: Store): (l: Option<Local>) {
    if n: nat :| HaltsAt(p, parent, n) then Some(SoloAt(p, parent, n)) else None
  }

  lemma {:induction false} HaltStays(p: Program, parent: Store, n: nat, m: nat)
    requires n <= m && HaltsAt(p, parent, n)
    ensures SoloAt(p, parent, m) == SoloAt(p, parent, n)
  {
    if n < m { HaltStays(p, parent, n, m - 1); }
  }

  lemma SoloEndIs(p: Program, parent: Store, n: nat)
    requires HaltsAt(p, parent, n)
    ensures SoloEnd(p, parent) == Some(SoloAt(p, parent, n))
  {
    var m: nat :| HaltsAt(p, parent, m) && SoloEnd(p, parent) == Some(SoloAt(p, parent, m));
    if n <= m { HaltStays(p, parent, n, m); } else { HaltStays(p, parent, m, n); }
  }

  // ---------- Frames ----------

  /** A program keeps to its own keys and the shared ones. */
  ghost predicate Framed(p: Program, own: iset<Key>, shared: set<Key>) {
    forall obs :: Within(p(obs), own, shared)
  }

  ghost predicate Within(a: Action, own: iset<Key>, shared: set<Key>) {
    match a
    case Read(k) => k in own || k in shared
    case Write(k, _) => k in own || k in shared
    case Halt(_) => true
  }

  /** The same action, up to the values written under shared keys. */
  predicate Alike(a: Action, b: Action, shared: set<Key>) {
    a == b || (a.Write? && b.Write? && a.k == b.k && a.k in shared)
  }

  predicate Sharing(a: Action, shared: set<Key>) {
    !a.Halt? && a.k in shared
  }

  /** Observations that differ only where a shared key was read or written. */
  predicate Twin(p: Program, shared: set<Key>, o: seq<Value>, o': seq<Value>) {
    if o == [] || o' == [] then o == o' else
      var i, i' := o[..|o| - 1], o'[..|o'| - 1];
      Twin(p, shared, i, i') && (o[|o| - 1] == o'[|o'| - 1] || Sharing(p(i), shared))
  }

  /** Blind credit: what is observed under a shared key influences nothing but what is written
      back under shared keys. With no shared keys every program is blind. */
  ghost predicate Blind(p: Program, shared: set<Key>) {
    forall o, o' :: Twin(p, shared, o, o') ==> Alike(p(o), p(o'), shared)
  }

  /** The hypothesis on a transaction program: own keys freely, shared keys blindly. */
  ghost predicate Fits(p: Program, own: iset<Key>, shared: set<Key>) {
    Framed(p, own, shared) && Blind(p, shared) && forall k :: k in shared ==> k !in own
  }

  lemma {:induction false} TwinOfNone(p: Program, o: seq<Value>, o': seq<Value>)
    requires Twin(p, {}, o, o')
    ensures o == o'
  {
    if o != [] && o' != [] {
      TwinOfNone(p, o[..|o| - 1], o'[..|o'| - 1]);
      assert o == o[..|o| - 1] + [o[|o| - 1]] && o' == o'[..|o'| - 1] + [o'[|o'| - 1]];
    }
  }

  /** Without shared keys the hypothesis is that the program keeps to its own keys. */
  lemma FitsAlone(p: Program, own: iset<Key>)
    requires Framed(p, own, {})
    ensures Fits(p, own, {})
  {
    forall o, o' | Twin(p, {}, o, o') ensures Alike(p(o), p(o'), {}) { TwinOfNone(p, o, o'); }
  }

  ghost predicate Agree(a: Store, b: Store, own: iset<Key>) {
    forall k :: k in own ==> Fetch(a, k) == Fetch(b, k)
  }

  ghost predicate Owned(d: Store, own: iset<Key>, shared: set<Key>) {
    forall k :: k in d ==> k in own || k in shared
  }

  /** Overlays of one program that differ only under shared keys. */
  ghost predicate Twins(p: Program, shared: set<Key>, l: Local, m: Local) {
    && Twin(p, shared, l.obs, m.obs)
    && l.dirty.Keys == m.dirty.Keys && l.dirty - shared == m.dirty - shared
  }

  lemma TwinSnoc(p: Program, shared: set<Key>, o: seq<Value>, o': seq<Value>, x: Value, y: Value)
    requires Twin(p, shared, o, o') && (x == y || Sharing(p(o), shared))
    ensures Twin(p, shared, o + [x], o' + [y])
  {
    assert (o + [x])[..|o|] == o && (o' + [y])[..|o'|] == o';
  }

  lemma TwinsRead(shared: set<Key>, l: Store, m: Store, k: Key)
    requires l.Keys == m.Keys && l - shared == m - shared && k !in shared && k in l
    ensures l[k] == m[k]
  {
    assert (l - shared)[k] == (m - shared)[k];
  }

  lemma TwinsWrite(shared: set<Key>, l: Store, m: Store, k: Key, v: Value, v': Value)
    requires l.Keys == m.Keys && l - shared == m - shared && (v == v' || k in shared)
    ensures l[k := v].Keys == m[k := v'].Keys && l[k := v] - shared == m[k := v'] - shared
  {
    MinusPut(l, k, v, shared);
    MinusPut(m, k, v', shared);
  }

  lemma MinusPut(s: Store, k: Key, v: Value, shared: set<Key>)
    ensures s[k := v] - shared == if k in shared then s - shared else (s - shared)[k := v]
  {
  }

  /** With no shared keys, equality outside them is equality. */
  lemma NothingShared(s: Store)
    ensures s - {} == s
  {
  }

  lemma MinusUnion(a: Store, b: Store, shared: set<Key>)
    ensures (a + b) - shared == (a - shared) + (b - shared)
  {
  }

  lemma AdvanceTwins(p: Program, own: iset<Key>, shared: set<Key>, a: Store, b: Store, l: Local, m: Local)
    requires Fits(p, own, shared) && Agree(a, b, own) && Twins(p, shared, l, m)
    ensures Twins(p, shared, Advance(p, a, l), Advance(p, b, m))
  {
    hide Twin, Framed;
    assert Alike(p(l.obs), p(m.obs), shared);
    assert Within(p(l.obs), own, shared) by { KeepsTo(p, own, shared, l.obs); }
    match p(l.obs)
    case Read(k) =>
      var x := if k in l.dirty then l.dirty[k] else Fetch(a, k);
      var y := if k in m.dirty then m.dirty[k] else Fetch(b, k);
      if k !in shared && k in l.dirty { TwinsRead(shared, l.dirty, m.dirty, k); }
      TwinSnoc(p, shared, l.obs, m.obs, x, y);
    case Write(k, v) =>
      TwinSnoc(p, shared, l.obs, m.obs, v, p(m.obs).v);
      TwinsWrite(shared, l.dirty, m.dirty, k, v, p(m.obs).v);
    case Halt(_) =>
  }

  lemma KeepsTo(p: Program, own: iset<Key>, shared: set<Key>, obs: seq<Value>)
    requires Framed(p, own, shared)
    ensures Within(p(obs), own, shared)
  {
  }

  lemma SameEnd(p: Program, own: iset<Key>, shared: set<Key>, l: Local, m: Local)
    requires Fits(p, own, shared) && Twins(p, shared, l, m)
    ensures p(l.obs).Halt? <==> p(m.obs).Halt?
    ensures p(l.obs).Halt? ==> p(l.obs) == p(m.obs)
  {
    assert Alike(p(l.obs), p(m.obs), shared);
  }

  /** A run alone depends only on its own keys, up to shared ones. */
  lemma {:induction false} SoloTwins(p: Program, own: iset<Key>, shared: set<Key>, a: Store, b: Store, n: nat)
    requires Fits(p, own, shared) && Agree(a, b, own)
    ensures Twins(p, shared, SoloAt(p, a, n), SoloAt(p, b, n))
  {
    if n > 0 {
      SoloTwins(p, own, shared, a, b, n - 1);
      AdvanceTwins(p, own, shared, a, b, SoloAt(p, a, n - 1), SoloAt(p, b, n - 1));
    }
  }

  /** A run alone writes only its own keys and shared ones. */
  lemma {:induction false} SoloOwned(p: Program, own: iset<Key>, shared: set<Key>, a: Store, n: nat)
    requires Framed(p, own, shared)
    ensures Owned(SoloAt(p, a, n).dirty, own, shared)
  {
    if n > 0 {
      SoloOwned(p, own, shared, a, n - 1);
      KeepsTo(p, own, shared, SoloAt(p, a, n - 1).obs);
    }
  }

  // ---------- Running transactions one at a time ----------

  /** What a finished overlay hands to the parent. */
  function Handover(p: Program, l: Local): (d: Store) {
    match p(l.obs)
    case Halt(Applied(_, _)) => l.dirty
    case _ => map[]
  }

  /** The parent after running one transaction alone. */
  ghost function Effect(p: Program, parent: Store): (s: Store) {
    match SoloEnd(p, parent)
    case Some(l) => parent + Handover(p, l)
    case None => parent
  }

  ghost function SeqRun(ps: seq<Program>, parent: Store): (s: Store) {
    if ps == [] then parent else Effect(ps[|ps| - 1], SeqRun(ps[..|ps| - 1], parent))
  }

  /** How a run alone ends. */
  ghost function SoloOut(p: Program, parent: Store): (o: Option<Outcome>) {
    match SoloEnd(p, parent)
    case Some(l) => if p(l.obs).Halt? then Some(p(l.obs).out) else None
    case None => None
  }

  /** What one transaction changes outside the shared keys. */
  ghost function Delta(p: Program, shared: set<Key>, parent: Store): (d: Store) {
    match SoloEnd(p, parent)
    case Some(l) => Handover(p, l) - shared
    case None => map[]
  }

  lemma EffectIsDelta(p: Program, shared: set<Key>, parent: Store)
    ensures Effect(p, parent) - shared == (parent - shared) + Delta(p, shared, parent)
  {
    match SoloEnd(p, parent)
    case Some(l) => MinusUnion(parent, Handover(p, l), shared);
    case None =>
  }

  lemma SoloEndTwins(p: Program, own: iset<Key>, shared: set<Key>, a: Store, b: Store)
    requires Fits(p, own, shared) && Agree(a, b, own)
    ensures SoloEnd(p, a).Some? <==> SoloEnd(p, b).Some?
    ensures SoloEnd(p, a).Some? ==> Twins(p, shared, SoloEnd(p, a).value, SoloEnd(p, b).value)
    ensures SoloEnd(p, a).Some? ==> p(SoloEnd(p, a).value.obs) == p(SoloEnd(p, b).value.obs)
  {
    hide Fits, Twins, Agree;
    if n: nat :| HaltsAt(p, a, n) || HaltsAt(p, b, n) {
      SoloTwins(p, own, shared, a, b, n);
      SameEnd(p, own, shared, SoloAt(p, a, n), SoloAt(p, b, n));
      SoloEndIs(p, a, n);
      SoloEndIs(p, b, n);
    }
  }

  /** How a transaction ends and what it changes depend only on its own keys. */
  lemma DeltaTwins(p: Program, own: iset<Key>, shared: set<Key>, a: Store, b: Store)
    requires Fits(p, own, shared) && Agree(a, b, own)
    ensures Delta(p, shared, a) == Delta(p, shared, b) && SoloOut(p, a) == SoloOut(p, b)
  {
    hide Fits, SoloEnd, Twin;
    SoloEndTwins(p, own, shared, a, b);
  }

  lemma DeltaOwned(p: Program, own: iset<Key>, shared: set<Key>, a: Store)
    requires Framed(p, own, shared)
    ensures forall k :: k in Delta(p, shared, a) ==> k in own
  {
    if n: nat :| HaltsAt(p, a, n) {
      SoloEndIs(p, a, n);
      SoloOwned(p, own, shared, a, n);
    }
  }

  // ---------- The machine ----------

  /** A transaction, the receipt slot `txIndex` gives it, its program, and whether it goes to a
      system contract. */
  datatype Job = Job(tx: Tx, slot: nat, prog: Program, system: bool)

  datatype Phase = Running | Merging(left: set<Key>) | Finished

  datatype Thread = Thread(steps: nat, local: Local, phase: Phase)

  datatype Receipt = Receipt(txHash: nat, status: nat, gasUsed: nat, cumulative: nat)

  /** Block-level accounting: the uint64 gas counter, the fees, and the receipt slots. */
  datatype Ledger = Ledger(gas: nat, fees: nat, receipts: seq<Option<Receipt>>)

  datatype State = State(parent: Store, lock: Option<nat>, threads: seq<Thread>, ledger: Ledger)

  datatype Choice = Tick(i: nat) | MergeKey(i: nat, k: Key)

  /** System transactions are not charged. */
  function Charged(job: Job, gas: nat): (g: nat) {
    if job.system then 0 else gas
  }

  /** The effective gas price: min(gas price, base fee + tip) when there is a base fee. */
  function Price(baseFee: Option<nat>, tx: Tx): (p: nat) {
    match baseFee
    case Some(b) => if b + tx.tipCap < tx.gasPrice then b + tx.tipCap else tx.gasPrice
    case None => tx.gasPrice
  }

  /** With a base fee the price is the lesser of gas price and base fee plus tip; without one it is
      the gas price. */
  lemma PriceIs(baseFee: Option<nat>, tx: Tx)
    ensures Price(baseFee, tx) <= tx.gasPrice
    ensures baseFee.Some? ==> Price(baseFee, tx) <= baseFee.value + tx.tipCap
    ensures Price(baseFee, tx) == tx.gasPrice || (baseFee.Some? && Price(baseFee, tx) == baseFee.value + tx.tipCap)
  {
  }

  /** Receipt status: 0 for failure, 1 for success. */
  function Status(failed: bool): (s: nat) { if failed then 0 else 1 }

  function Put(rs: seq<Option<Receipt>>, i: nat, r: Receipt): (s: seq<Option<Receipt>>)
    ensures |s| == |rs|
  {
    if i < |rs| then rs[i := Some(r)] else rs
  }

  /** The accounting done under the merge lock. */
  function Account(baseFee: Option<nat>, job: Job, gas: nat, failed: bool, l: Ledger): (r: Ledger) {
    var g := Charged(job, gas);
    var total := (l.gas + g) % TWO_64;
    Ledger(total, l.fees + g * Price(baseFee, job.tx),
           Put(l.receipts, job.slot, Receipt(job.tx.hash, Status(failed), g, total)))
  }

  /** The failed receipt of a transaction `ApplyMessage` refuses, written without the lock. */
  function Refuse(job: Job, l: Ledger): (r: Ledger) {
    l.(receipts := Put(l.receipts, job.slot, Receipt(job.tx.hash, 0, 0, 0)))
  }

  function TickRunning(baseFee: Option<nat>, job: Job, s: State, i: nat): (r: State)
    requires i < |s.threads|
  {
    var t := s.threads[i];
    match job.prog(t.local.obs)
    case Halt(Skipped) => s.(threads := s.threads[i := t.(phase := Finished)])
    case Halt(Rejected) =>
      s.(threads := s.threads[i := t.(phase := Finished)], ledger := Refuse(job, s.ledger))
    case Halt(Applied(_, _)) =>
      if s.lock.Some? then s
      else s.(lock := Some(i), threads := s.threads[i := t.(phase := Merging(t.local.dirty.Keys))])
    case _ =>
      s.(threads := s.threads[i := Thread(t.steps + 1, Advance(job.prog, s.parent, t.local), Running)])
  }

  /** With every key merged: account, place the receipt, release the lock. */
  function TickMerged(baseFee: Option<nat>, job: Job, s: State, i: nat): (r: State)
    requires i < |s.threads|
  {
    var t := s.threads[i];
    var s' := s.(lock := None, threads := s.threads[i := t.(phase := Finished)]);
    match job.prog(t.local.obs)
    case Halt(Applied(gas, failed)) => s'.(ledger := Account(baseFee, job, gas, failed, s.ledger))
    case _ => s'
  }

  function MergeStep(s: State, i: nat, k: Key): (r: State)
    requires i < |s.threads|
  {
    var t := s.threads[i];
    if t.phase.Merging? && k in t.phase.left && k in t.local.dirty then
      s.(parent := s.parent[k := t.local.dirty[k]],
         threads := s.threads[i := t.(phase := Merging(t.phase.left - {k}))])
    else s
  }

  function Step(baseFee: Option<nat>, jobs: seq<Job>, s: State, c: Choice): (r: State)
    requires |jobs| == |s.threads|
    ensures |r.threads| == |jobs| && |r.ledger.receipts| == |s.ledger.receipts|
  {
    if c.i >= |jobs| then s else
      match c
      case Tick(i) =>
        (match s.threads[i].phase
         case Running => TickRunning(baseFee, jobs[i], s, i)
         case Merging(left) => if left == {} then TickMerged(baseFee, jobs[i], s, i) else s
         case Finished => s)
      case MergeKey(i, k) => MergeStep(s, i, k)
  }

  function Start(jobs: seq<Job>, base: Store, l: Ledger): (s: State)
    ensures |s.threads| == |jobs|
  {
    State(base, None, seq(|jobs|, _ => Thread(0, Local([], map[]), Running)), l)
  }

  function Run(baseFee: Option<nat>, jobs: seq<Job>, s: State, cs: seq<Choice>): (r: State)
    requires |jobs| == |s.threads|
    ensures |r.threads| == |jobs| && |r.ledger.receipts| == |s.ledger.receipts|
  {
    if cs == [] then s else Step(baseFee, jobs, Run(baseFee, jobs, s, cs[..|cs| - 1]), cs[|cs| - 1])
  }

  lemma {:induction false} RunConcat(baseFee: Option<nat>, jobs: seq<Job>, s: State, a: seq<Choice>, b: seq<Choice>)
    requires |jobs| == |s.threads|
    ensures Run(baseFee, jobs, s, a + b) == Run(baseFee, jobs, Run(baseFee, jobs, s, a), b)
    decreases |b|
  {
    if b == [] {
      assert a + b == a;
    } else {
      assert (a + b)[..|a + b| - 1] == a + b[..|b| - 1];
      RunConcat(baseFee, jobs, s, a, b[..|b| - 1]);
    }
  }

  lemma RunOne(baseFee: Option<nat>, jobs: seq<Job>, s: State, c: Choice)
    requires |jobs| == |s.threads|
    ensures Run(baseFee, jobs, s, [c]) == Step(baseFee, jobs, s, c)
  {
    assert [c][..0] == [];
    assert Run(baseFee, jobs, s, []) == s;
  }

  predicate AllFinished(s: State) {
    forall i :: 0 <= i < |s.threads| ==> s.threads[i].phase.Finished?
  }

  // ---------- What holds of any programs ----------

  predicate Applies(job: Job, l: Local) {
    job.prog(l.obs).Halt? && job.prog(l.obs).out.Applied?
  }

  ghost predicate PhaseOk(job: Job, t: Thread) {
    && (t.phase.Merging? ==> t.phase.left <= t.local.dirty.Keys && Applies(job, t.local))
    && (t.phase.Finished? ==> job.prog(t.local.obs).Halt?)
  }

  ghost predicate LockOk(s: State) {
    && (s.lock.Some? ==> s.lock.value < |s.threads|)
    && (forall i: nat :: i < |s.threads| ==> (s.threads[i].phase.Merging? <==> s.lock == Some(i)))
  }

  /** Only the lock's holder merges, and only an executed transaction does. */
  ghost predicate Sound(jobs: seq<Job>, s: State) {
    && |s.threads| == |jobs|
    && (forall i :: 0 <= i < |jobs| ==> PhaseOk(jobs[i], s.threads[i]))
    && LockOk(s)
  }

  lemma SoundStep(baseFee: Option<nat>, jobs: seq<Job>, s: State, c: Choice)
    requires Sound(jobs, s)
    ensures Sound(jobs, Step(baseFee, jobs, s, c))
  {
    if c.i < |jobs| {
      var s' := Step(baseFee, jobs, s, c);
      assert PhaseOk(jobs[c.i], s.threads[c.i]);
      assert s' != s ==> s'.threads == s.threads[c.i := s'.threads[c.i]];
    }
  }

  /** Whatever the programs, every interleaving keeps locks and phases in step. */
  lemma {:induction false} SoundRun(baseFee: Option<nat>, jobs: seq<Job>, base: Store, l: Ledger, cs: seq<Choice>)
    ensures Sound(jobs, Run(baseFee, jobs, Start(jobs, base, l), cs))
  {
    if cs != [] {
      SoundRun(baseFee, jobs, base, l, cs[..|cs| - 1]);
      SoundStep(baseFee, jobs, Run(baseFee, jobs, Start(jobs, base, l), cs[..|cs| - 1]), cs[|cs| - 1]);
    }
  }

  // ---------- The invariant ----------

  /** The hypotheses on a wave: every program keeps to its own keys, which no other program has,
      and uses the shared keys blindly. */
  ghost predicate Independent(jobs: seq<Job>, own: seq<iset<Key>>, shared: set<Key>) {
    && |own| == |jobs|
    && (forall i :: 0 <= i < |jobs| ==> Fits(jobs[i].prog, own[i], shared))
    && (forall i, j :: 0 <= i < j < |jobs| ==> own[i] !! own[j])
  }

  /** The part of an overlay already merged, outside the shared keys. */
  function Merged(job: Job, shared: set<Key>, t: Thread): (d: Store) {
    match t.phase
    case Running => map[]
    case Merging(left) => t.local.dirty - left - shared
    case Finished => Handover(job.prog, t.local) - shared
  }

  function MergedAll(jobs: seq<Job>, shared: set<Key>, ts: seq<Thread>, n: nat): (d: Store)
    requires n <= |jobs| && n <= |ts|
  {
    if n == 0 then map[] else MergedAll(jobs, shared, ts, n - 1) + Merged(jobs[n - 1], shared, ts[n - 1])
  }

  /** A thread's overlay is, up to shared keys, what a run alone over the wave's starting state
      would have built. */
  ghost predicate ThreadOk(job: Job, shared: set<Key>, base: Store, t: Thread) {
    Twins(job.prog, shared, t.local, SoloAt(job.prog, base, t.steps))
  }

  ghost predicate Inv(jobs: seq<Job>, shared: set<Key>, base: Store, s: State) {
    && Sound(jobs, s)
    && (forall i :: 0 <= i < |jobs| ==> ThreadOk(jobs[i], shared, base, s.threads[i]))
    && s.parent - shared == (base - shared) + MergedAll(jobs, shared, s.threads, |jobs|)
  }

  lemma {:induction false} MergedSame(jobs: seq<Job>, shared: set<Key>, a: seq<Thread>, b: seq<Thread>, n: nat)
    requires n <= |jobs| && n <= |a| && n <= |b|
    requires forall j :: 0 <= j < n ==> Merged(jobs[j], shared, a[j]) == Merged(jobs[j], shared, b[j])
    ensures MergedAll(jobs, shared, a, n) == MergedAll(jobs, shared, b, n)
  {
    if n > 0 { MergedSame(jobs, shared, a, b, n - 1); }
  }

  lemma PutThrough(base: Store, m: Store, k: Key, v: Value)
    ensures base + m[k := v] == (base + m)[k := v]
  {
  }

  lemma PutUnder(base: Store, m: Store, k: Key, v: Value)
    requires k !in m
    ensures base[k := v] + m == (base + m)[k := v]
  {
  }

  /** Merging one more key of one overlay adds that key, provided no later overlay has it. */
  lemma {:induction false} MergedAdds(jobs: seq<Job>, shared: set<Key>, a: seq<Thread>, b: seq<Thread>, n: nat, i: nat,
                                      k: Key, v: Value)
    requires i < n <= |jobs| && n <= |a| == |b|
    requires b == a[i := b[i]] && Merged(jobs[i], shared, b[i]) == Merged(jobs[i], shared, a[i])[k := v]
    requires forall j :: i < j < n ==> k !in Merged(jobs[j], shared, a[j])
    ensures MergedAll(jobs, shared, b, n) == MergedAll(jobs, shared, a, n)[k := v]
  {
    hide Merged;
    assert forall j :: 0 <= j < n && j != i ==> b[j] == a[j];
    if i == n - 1 {
      MergedSame(jobs, shared, a, b, n - 1);
      PutThrough(MergedAll(jobs, shared, a, n - 1), Merged(jobs[i], shared, a[i]), k, v);
    } else {
      MergedAdds(jobs, shared, a, b, n - 1, i, k, v);
      PutUnder(MergedAll(jobs, shared, a, n - 1), Merged(jobs[n - 1], shared, a[n - 1]), k, v);
    }
  }

  lemma {:induction false} MergedAbsent(jobs: seq<Job>, shared: set<Key>, ts: seq<Thread>, n: nat, k: Key)
    requires n <= |jobs| && n <= |ts|
    requires forall j :: 0 <= j < n ==> k !in Merged(jobs[j], shared, ts[j])
    ensures k !in MergedAll(jobs, shared, ts, n)
  {
    if n > 0 { MergedAbsent(jobs, shared, ts, n - 1, k); }
  }

  lemma DirtyOwned(jobs: seq<Job>, own: seq<iset<Key>>, shared: set<Key>, base: Store, s: State, j: nat)
    requires Independent(jobs, own, shared) && Inv(jobs, shared, base, s) && j < |jobs|
    ensures Owned(s.threads[j].local.dirty, own[j], shared)
    ensures forall k :: k in Merged(jobs[j], shared, s.threads[j]) ==> k in own[j]
  {
    var t := s.threads[j];
    assert ThreadOk(jobs[j], shared, base, t);
    SoloOwned(jobs[j].prog, own[j], shared, base, t.steps);
    forall k | k in t.local.dirty ensures k in own[j] || k in shared {
      assert k in SoloAt(jobs[j].prog, base, t.steps).dirty;
    }
  }

  /** A key of one transaction is merged by no other. */
  lemma OthersKeepOff(jobs: seq<Job>, own: seq<iset<Key>>, shared: set<Key>, base: Store, s: State, i: nat, k: Key)
    requires Independent(jobs, own, shared) && Inv(jobs, shared, base, s) && i < |jobs| && k in own[i]
    ensures forall j :: 0 <= j < |jobs| && j != i ==> k !in Merged(jobs[j], shared, s.threads[j])
  {
    forall j | 0 <= j < |jobs| && j != i ensures k !in Merged(jobs[j], shared, s.threads[j]) {
      DirtyOwned(jobs, own, shared, base, s, j);
      var a, b := if i < j then i else j, if i < j then j else i;
      assert own[a] !! own[b];
    }
  }

  lemma FetchOutside(a: Store, shared: set<Key>, k: Key)
    requires k !in shared
    ensures Fetch(a, k) == Fetch(a - shared, k)
  {
  }

  /** Until it starts to merge, a thread sees its own keys as they were when the wave began. */
  lemma ParentUnseen(jobs: seq<Job>, own: seq<iset<Key>>, shared: set<Key>, base: Store, s: State, i: nat)
    requires Independent(jobs, own, shared) && Inv(jobs, shared, base, s) && i < |jobs| && s.threads[i].phase.Running?
    ensures Agree(s.parent, base, own[i])
  {
    forall k | k in own[i] ensures Fetch(s.parent, k) == Fetch(base, k) {
      OthersKeepOff(jobs, own, shared, base, s, i, k);
      MergedAbsent(jobs, shared, s.threads, |jobs|, k);
      FetchOutside(s.parent, shared, k);
      FetchOutside(base, shared, k);
    }
  }

  lemma KeepsMerged(jobs: seq<Job>, shared: set<Key>, base: Store, s: State, s': State, i: nat)
    requires Inv(jobs, shared, base, s) && i < |jobs| && Sound(jobs, s')
    requires s'.parent == s.parent && s'.threads == s.threads[i := s'.threads[i]]
    requires Merged(jobs[i], shared, s'.threads[i]) == Merged(jobs[i], shared, s.threads[i])
    requires ThreadOk(jobs[i], shared, base, s'.threads[i])
    ensures Inv(jobs, shared, base, s')
  {
    hide PhaseOk, LockOk, ThreadOk, Merged;
    MergedSame(jobs, shared, s.threads, s'.threads, |jobs|);
  }

  lemma AdvanceKeepsInv(baseFee: Option<nat>, jobs: seq<Job>, own: seq<iset<Key>>, shared: set<Key>, base: Store,
                        s: State, i: nat)
    requires Independent(jobs, own, shared) && Inv(jobs, shared, base, s) && i < |jobs| && s.threads[i].phase.Running?
    requires !jobs[i].prog(s.threads[i].local.obs).Halt?
    ensures Inv(jobs, shared, base, TickRunning(baseFee, jobs[i], s, i))
  {
    hide Twins, Fits, Agree;
    var t, p := s.threads[i], jobs[i].prog;
    var s' := TickRunning(baseFee, jobs[i], s, i);
    assert s' == Step(baseFee, jobs, s, Tick(i));
    SoundStep(baseFee, jobs, s, Tick(i));
    assert ThreadOk(jobs[i], shared, base, t);
    ParentUnseen(jobs, own, shared, base, s, i);
    AdvanceTwins(p, own[i], shared, s.parent, base, t.local, SoloAt(p, base, t.steps));
    KeepsMerged(jobs, shared, base, s, s', i);
  }

  lemma HaltKeepsInv(baseFee: Option<nat>, jobs: seq<Job>, shared: set<Key>, base: Store, s: State, i: nat)
    requires Inv(jobs, shared, base, s) && i < |jobs| && s.threads[i].phase.Running?
    requires jobs[i].prog(s.threads[i].local.obs).Halt?
    ensures Inv(jobs, shared, base, TickRunning(baseFee, jobs[i], s, i))
  {
    hide Twins;
    var t, s' := s.threads[i], TickRunning(baseFee, jobs[i], s, i);
    assert s' == Step(baseFee, jobs, s, Tick(i));
    SoundStep(baseFee, jobs, s, Tick(i));
    assert ThreadOk(jobs[i], shared, base, t);
    if s' != s {
      assert s'.threads == s.threads[i := s'.threads[i]];
      assert t.local.dirty - t.local.dirty.Keys == map[];
      KeepsMerged(jobs, shared, base, s, s', i);
    }
  }

  lemma MergedKeepsInv(baseFee: Option<nat>, jobs: seq<Job>, shared: set<Key>, base: Store, s: State, i: nat)
    requires Inv(jobs, shared, base, s) && i < |jobs| && s.threads[i].phase == Merging({})
    ensures Inv(jobs, shared, base, TickMerged(baseFee, jobs[i], s, i))
  {
    hide Twins;
    var t, s' := s.threads[i], TickMerged(baseFee, jobs[i], s, i);
    assert s' == Step(baseFee, jobs, s, Tick(i));
    SoundStep(baseFee, jobs, s, Tick(i));
    assert ThreadOk(jobs[i], shared, base, t) && PhaseOk(jobs[i], t);
    assert t.local.dirty - {} == t.local.dirty;
    KeepsMerged(jobs, shared, base, s, s', i);
  }

  lemma DropOne(d: Store, left: set<Key>, shared: set<Key>, k: Key)
    requires k in d && k in left
    ensures d - (left - {k}) - shared == if k in shared then d - left - shared else (d - left - shared)[k := d[k]]
  {
    assert d - (left - {k}) == (d - left)[k := d[k]];
  }

  lemma MergeStepKeepsInv(baseFee: Option<nat>, jobs: seq<Job>, own: seq<iset<Key>>, shared: set<Key>, base: Store,
                          s: State, i: nat, k: Key)
    requires Independent(jobs, own, shared) && Inv(jobs, shared, base, s) && i < |jobs|
    requires s.threads[i].phase.Merging? && k in s.threads[i].phase.left
    ensures Inv(jobs, shared, base, MergeStep(s, i, k))
  {
    hide Twins, Fits;
    var s', t := MergeStep(s, i, k), s.threads[i];
    assert PhaseOk(jobs[i], t) && ThreadOk(jobs[i], shared, base, t);
    var v := t.local.dirty[k];
    assert s' == Step(baseFee, jobs, s, MergeKey(i, k));
    SoundStep(baseFee, jobs, s, MergeKey(i, k));
    DropOne(t.local.dirty, t.phase.left, shared, k);
    MinusPut(s.parent, k, v, shared);
    if k in shared {
      MergedSame(jobs, shared, s.threads, s'.threads, |jobs|);
    } else {
      DirtyOwned(jobs, own, shared, base, s, i);
      OthersKeepOff(jobs, own, shared, base, s, i, k);
      MergedAdds(jobs, shared, s.threads, s'.threads, |jobs|, i, k, v);
      PutThrough(base - shared, MergedAll(jobs, shared, s.threads, |jobs|), k, v);
    }
  }

  lemma StepKeepsInv(baseFee: Option<nat>, jobs: seq<Job>, own: seq<iset<Key>>, shared: set<Key>, base: Store,
                     s: State, c: Choice)
    requires Independent(jobs, own, shared) && Inv(jobs, shared, base, s)
    ensures Inv(jobs, shared, base, Step(baseFee, jobs, s, c))
  {
    if c.i < |jobs| {
      match c
      case Tick(i) =>
        if s.threads[i].phase.Running? {
          if jobs[i].prog(s.threads[i].local.obs).Halt? {
            HaltKeepsInv(baseFee, jobs, shared, base, s, i);
          } else {
            AdvanceKeepsInv(baseFee, jobs, own, shared, base, s, i);
          }
        } else if s.threads[i].phase == Merging({}) {
          MergedKeepsInv(baseFee, jobs, shared, base, s, i);
        }
      case MergeKey(i, k) =>
        if s.threads[i].phase.Merging? && k in s.threads[i].phase.left {
          MergeStepKeepsInv(baseFee, jobs, own, shared, base, s, i, k);
        }
    }
  }

  lemma {:induction false} MergedNone(jobs: seq<Job>, shared: set<Key>, ts: seq<Thread>, n: nat)
    requires n <= |jobs| && n <= |ts| && forall j :: 0 <= j < n ==> ts[j].phase.Running?
    ensures MergedAll(jobs, shared, ts, n) == map[]
  {
    if n > 0 { MergedNone(jobs, shared, ts, n - 1); }
  }

  lemma {:induction false} RunKeepsInv(baseFee: Option<nat>, jobs: seq<Job>, own: seq<iset<Key>>, shared: set<Key>,
                                       base: Store, l: Ledger, cs: seq<Choice>)
    requires Independent(jobs, own, shared)
    ensures Inv(jobs, shared, base, Run(baseFee, jobs, Start(jobs, base, l), cs))
  {
    var s := Start(jobs, base, l);
    if cs == [] {
      MergedNone(jobs, shared, s.threads, |jobs|);
    } else {
      RunKeepsInv(baseFee, jobs, own, shared, base, l, cs[..|cs| - 1]);
      StepKeepsInv(baseFee, jobs, own, shared, base, Run(baseFee, jobs, s, cs[..|cs| - 1]), cs[|cs| - 1]);
    }
  }

  // ---------- What every interleaving computes ----------

  function Progs(jobs: seq<Job>): (ps: seq<Program>)
    ensures |ps| == |jobs| && forall i :: 0 <= i < |jobs| ==> ps[i] == jobs[i].prog
  {
    seq(|jobs|, i requires 0 <= i < |jobs| => jobs[i].prog)
  }

  /** A finished overlay changes and reports what a run alone over the starting state does. */
  lemma FinishedIsSolo(job: Job, own: iset<Key>, shared: set<Key>, base: Store, t: Thread)
    requires Fits(job.prog, own, shared) && ThreadOk(job, shared, base, t) && PhaseOk(job, t) && t.phase.Finished?
    ensures Delta(job.prog, shared, base) == Merged(job, shared, t)
    ensures SoloOut(job.prog, base) == Some(job.prog(t.local.obs).out)
  {
    hide Fits, Twin, SoloAt;
    SameEnd(job.prog, own, shared, t.local, SoloAt(job.prog, base, t.steps));
    SoloEndIs(job.prog, base, t.steps);
  }

  lemma EarlierOnesAgree(jobs: seq<Job>, own: seq<iset<Key>>, shared: set<Key>, base: Store, s: State, i: nat, b: Store)
    requires Independent(jobs, own, shared) && Inv(jobs, shared, base, s) && i < |jobs|
    requires b - shared == (base - shared) + MergedAll(jobs, shared, s.threads, i)
    ensures Agree(base, b, own[i])
  {
    forall k | k in own[i] ensures Fetch(base, k) == Fetch(b, k) {
      OthersKeepOff(jobs, own, shared, base, s, i, k);
      MergedAbsent(jobs, shared, s.threads, i, k);
      FetchOutside(base, shared, k);
      FetchOutside(b, shared, k);
    }
  }

  lemma Regroup(a: Store, b: Store, c: Store)
    ensures a + b + c == a + (b + c)
  {
  }

  lemma FinishedStep(jobs: seq<Job>, own: seq<iset<Key>>, shared: set<Key>, base: Store, s: State, n: nat, b: Store)
    requires Independent(jobs, own, shared) && Inv(jobs, shared, base, s) && AllFinished(s) && n < |jobs|
    requires b - shared == (base - shared) + MergedAll(jobs, shared, s.threads, n)
    ensures Effect(Progs(jobs)[n], b) - shared == (base - shared) + MergedAll(jobs, shared, s.threads, n + 1)
  {
    hide SoloAt, Effect, Delta, Merged, Fits, LockOk, ThreadOk, PhaseOk;
    EarlierOnesAgree(jobs, own, shared, base, s, n, b);
    FinishedIsSolo(jobs[n], own[n], shared, base, s.threads[n]);
    DeltaTwins(jobs[n].prog, own[n], shared, base, b);
    EffectIsDelta(jobs[n].prog, shared, b);
    Regroup(base - shared, MergedAll(jobs, shared, s.threads, n), Merged(jobs[n], shared, s.threads[n]));
  }

  lemma SeqRunStep(ps: seq<Program>, n: nat, base: Store)
    requires n < |ps|
    ensures SeqRun(ps[..n + 1], base) == Effect(ps[n], SeqRun(ps[..n], base))
  {
    assert ps[..n + 1][..n] == ps[..n];
  }

  lemma NothingMerged(jobs: seq<Job>, shared: set<Key>, base: Store, s: State)
    ensures SeqRun(Progs(jobs)[..0], base) - shared == (base - shared) + MergedAll(jobs, shared, s.threads, 0)
  {
  }

  lemma {:induction false} FinishedIsSequential(jobs: seq<Job>, own: seq<iset<Key>>, shared: set<Key>, base: Store,
                                                s: State, n: nat)
    requires Independent(jobs, own, shared) && Inv(jobs, shared, base, s) && AllFinished(s)
    requires n <= |jobs| == |s.threads|
    ensures SeqRun(Progs(jobs)[..n], base) - shared == (base - shared) + MergedAll(jobs, shared, s.threads, n)
  {
    hide *;
    if n == 0 {
      NothingMerged(jobs, shared, base, s);
    } else {
      FinishedIsSequential(jobs, own, shared, base, s, n - 1);
      FinishedStep(jobs, own, shared, base, s, n - 1, SeqRun(Progs(jobs)[..n - 1], base));
      SeqRunStep(Progs(jobs), n - 1, base);
    }
  }

  /** Every complete interleaving of a wave ends, outside the shared keys, in the state that
      running its transactions one at a time produces; each transaction ends as it would alone. */
  lemma WaveIsSequential(baseFee: Option<nat>, jobs: seq<Job>, own: seq<iset<Key>>, shared: set<Key>, base: Store,
                         l: Ledger, cs: seq<Choice>)
    requires Independent(jobs, own, shared)
    requires AllFinished(Run(baseFee, jobs, Start(jobs, base, l), cs))
    ensures Run(baseFee, jobs, Start(jobs, base, l), cs).parent - shared == SeqRun(Progs(jobs), base) - shared
    ensures forall i :: 0 <= i < |jobs| ==>
      EndsAs(jobs[i], Run(baseFee, jobs, Start(jobs, base, l), cs).threads[i], SoloOut(jobs[i].prog, base))
  {
    hide SoloOut, Independent, Run, SeqRun, MergedAll;
    var s := Run(baseFee, jobs, Start(jobs, base, l), cs);
    RunKeepsInv(baseFee, jobs, own, shared, base, l, cs);
    FinishedIsSequential(jobs, own, shared, base, s, |jobs|);
    assert Progs(jobs)[..|jobs|] == Progs(jobs);
    forall i | 0 <= i < |jobs| ensures EndsAs(jobs[i], s.threads[i], SoloOut(jobs[i].prog, base)) {
      FitsAt(jobs, own, shared, i);
      FinishedIsSolo(jobs[i], own[i], shared, base, s.threads[i]);
    }
  }

  lemma FitsAt(jobs: seq<Job>, own: seq<iset<Key>>, shared: set<Key>, i: nat)
    requires Independent(jobs, own, shared) && i < |jobs|
    ensures |own| == |jobs| && Fits(jobs[i].prog, own[i], shared)
  {
  }

  /** A thread's program has halted with the given outcome. */
  ghost predicate EndsAs(job: Job, t: Thread, out: Option<Outcome>) {
    out.Some? && job.prog(t.local.obs) == Halt(out.value)
  }

  /** The machine never gets stuck, whatever the programs: while some transaction is unfinished,
      some choice moves. */
  lemma NoDeadlock(baseFee: Option<nat>, jobs: seq<Job>, s: State) returns (c: Choice)
    requires Sound(jobs, s) && !AllFinished(s)
    ensures Step(baseFee, jobs, s, c) != s
  {
    match s.lock
    case Some(i) =>
      var t := s.threads[i];
      assert PhaseOk(jobs[i], t) && t.phase.Merging?;
      if t.phase.left == {} {
        c := Tick(i);
        assert Step(baseFee, jobs, s, c).lock.None?;
      } else {
        var k :| k in t.phase.left;
        c := MergeKey(i, k);
        assert k !in Step(baseFee, jobs, s, c).threads[i].phase.left;
      }
    case None =>
      var i: nat :| i < |jobs| && !s.threads[i].phase.Finished?;
      assert s.threads[i].phase.Running?;
      c := Tick(i);
      var t := s.threads[i];
      match jobs[i].prog(t.local.obs)
      case Halt(Applied(_, _)) => assert Step(baseFee, jobs, s, c).lock.Some?;
      case Halt(_) => assert Step(baseFee, jobs, s, c).threads[i].phase.Finished?;
      case _ => assert Step(baseFee, jobs, s, c).threads[i].steps == t.steps + 1;
  }

  // ---------- The three kinds of move ----------

  ghost predicate Moves(jobs: seq<Job>, s: State, s': State, i: nat) {
    && i < |jobs| == |s.threads| == |s'.threads|
    && s'.threads == s.threads[i := s'.threads[i]]
    && !s.threads[i].phase.Finished?
  }

  /** A move that touches no counter and no receipt. */
  ghost predicate QuietMove(jobs: seq<Job>, s: State, s': State, i: nat) {
    && Moves(jobs, s, s', i) && s'.ledger == s.ledger
    && (s'.threads[i].phase.Finished? ==> jobs[i].prog(s'.threads[i].local.obs) == Halt(Skipped))
  }

  ghost predicate RefusedMove(jobs: seq<Job>, s: State, s': State, i: nat) {
    && Moves(jobs, s, s', i) && s'.ledger == Refuse(jobs[i], s.ledger)
    && s'.threads[i].phase.Finished? && jobs[i].prog(s'.threads[i].local.obs) == Halt(Rejected)
  }

  ghost predicate AccountedMove(baseFee: Option<nat>, jobs: seq<Job>, s: State, s': State, i: nat, gas: nat,
                                failed: bool) {
    && Moves(jobs, s, s', i) && s'.ledger == Account(baseFee, jobs[i], gas, failed, s.ledger)
    && s'.threads[i].phase.Finished? && jobs[i].prog(s'.threads[i].local.obs) == Halt(Applied(gas, failed))
  }

  lemma TickShape(baseFee: Option<nat>, jobs: seq<Job>, s: State, i: nat)
    requires i < |jobs| == |s.threads| && s.threads[i].phase.Running?
    ensures var s' := TickRunning(baseFee, jobs[i], s, i);
      s' == s || QuietMove(jobs, s, s', i) || RefusedMove(jobs, s, s', i)
  {
    var s' := TickRunning(baseFee, jobs[i], s, i);
    if s' != s { assert s'.threads == s.threads[i := s'.threads[i]]; }
  }

  /** Every step is one of three kinds of move, whatever the programs. */
  lemma StepShape(baseFee: Option<nat>, jobs: seq<Job>, s: State, c: Choice)
    requires Sound(jobs, s)
    ensures var s' := Step(baseFee, jobs, s, c);
      || s' == s
      || QuietMove(jobs, s, s', c.i)
      || RefusedMove(jobs, s, s', c.i)
      || exists gas, failed :: AccountedMove(baseFee, jobs, s, s', c.i, gas, failed)
  {
    if c.i < |jobs| {
      var s', t := Step(baseFee, jobs, s, c), s.threads[c.i];
      assert PhaseOk(jobs[c.i], t);
      if t.phase.Running? && c.Tick? {
        TickShape(baseFee, jobs, s, c.i);
      } else if t.phase == Merging({}) && c.Tick? {
        var out := jobs[c.i].prog(t.local.obs).out;
        assert AccountedMove(baseFee, jobs, s, s', c.i, out.gas, out.failed);
      }
    }
  }
}
