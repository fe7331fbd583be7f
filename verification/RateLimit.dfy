/** The fixed-window message counter of a peer connection. */
module RateLimit {
  const SECOND: nat := 1_000_000_000 // nanoseconds
  const MAX_PAYLOAD: nat := 10 * 1024 * 1024

  datatype Message = Message(time: nat, size: nat)

  /** The counter: when the window began, how many messages it has seen, and whether the peer is
      still connected. */
  datatype Window = Window(start: nat, seen: nat, connected: bool)

  /** One turn of the loop; the flag says whether the message was handled. */
  function Receive(w: Window, m: Message, limit: nat): (r: (Window, bool)) {
    if !w.connected then (w, false) else
      var w1 := if m.time > w.start + SECOND then Window(m.time, 0, true) else w;
      var w2 := w1.(seen := w1.seen + 1);
      if w2.seen > limit || m.size > MAX_PAYLOAD then (w2.(connected := false), false) else (w2, true)
  }

  /** The counter after the first `n` messages. */
  function After(w: Window, ms: seq<Message>, limit: nat, n: nat): (r: Window)
    requires n <= |ms|
  {
    if n == 0 then w else Receive(After(w, ms, limit, n - 1), ms[n - 1], limit).0
  }

  /** Message `i` was handled. */
  predicate Handled(w: Window, ms: seq<Message>, limit: nat, i: nat)
    requires i < |ms|
  {
    Receive(After(w, ms, limit, i), ms[i], limit).1
  }

  /** The read loop over a connection's messages. */
  method ReadLoop(now: nat, ms: seq<Message>, limit: nat) returns (handled: seq<bool>)
    ensures |handled| == |ms|
    ensures forall i :: 0 <= i < |ms| ==> handled[i] == Handled(Window(now, 0, true), ms, limit, i)
  {
    handled := [];
    var lastMsgTime: nat, msgsThisSec: nat, connected := now, 0, true;
    ghost var w0 := Window(now, 0, true);
    for i := 0 to |ms|
      invariant |handled| == i
      invariant Window(lastMsgTime, msgsThisSec, connected) == After(w0, ms, limit, i)
      invariant forall j :: 0 <= j < i ==> handled[j] == Handled(w0, ms, limit, j)
    {
      if connected {
        if ms[i].time > lastMsgTime + SECOND {
          lastMsgTime := ms[i].time;
          msgsThisSec := 0;
        }
        msgsThisSec := msgsThisSec + 1;
        if msgsThisSec > limit || ms[i].size > MAX_PAYLOAD {
          connected := false;
        }
      }
      handled := handled + [connected];
    }
  }

  // ---------- Which messages are handled ----------

  /** When the window of the `n`-th message began: a window lasts one second, and the next one begins
      with the first message after it. */
  function Began(now: nat, ms: seq<Message>, n: nat): (t: nat)
    requires n <= |ms|
  {
    if n == 0 then now else
      var t := Began(now, ms, n - 1);
      if ms[n - 1].time > t + 1_000_000_000 then ms[n - 1].time else t
  }

  /** The place of the `n`-th message in its window. */
  function PlaceIn(now: nat, ms: seq<Message>, n: nat): (c: nat)
    requires n <= |ms|
  {
    if n == 0 then 0
    else if ms[n - 1].time > Began(now, ms, n - 1) + 1_000_000_000 then 1
    else PlaceIn(now, ms, n - 1) + 1
  }

  /** Message `j` does not come after the limit in its window and is no larger than ten mebibytes. */
  predicate Fine(now: nat, ms: seq<Message>, limit: nat, j: nat) {
    j < |ms| && PlaceIn(now, ms, j + 1) <= limit && ms[j].size <= 10 * 1024 * 1024
  }

  ghost predicate AllFine(now: nat, ms: seq<Message>, limit: nat, n: nat) {
    forall j: nat :: j < n ==> Fine(now, ms, limit, j)
  }

  lemma AllFineNext(now: nat, ms: seq<Message>, limit: nat, n: nat)
    ensures AllFine(now, ms, limit, n + 1) <==> AllFine(now, ms, limit, n) && Fine(now, ms, limit, n)
  {
    hide Fine;
  }

  lemma {:induction false} WindowIs(now: nat, ms: seq<Message>, limit: nat, n: nat)
    requires n <= |ms|
    ensures var w := After(Window(now, 0, true), ms, limit, n);
      && (w.connected <==> AllFine(now, ms, limit, n))
      && (w.connected ==> w.start == Began(now, ms, n) && w.seen == PlaceIn(now, ms, n))
  {
    if n > 0 {
      WindowIs(now, ms, limit, n - 1);
      AllFineNext(now, ms, limit, n - 1);
      hide AllFine;
    }
  }

  /** A message is handled exactly when it and all before it are within both limits. */
  lemma HandledExactly(now: nat, ms: seq<Message>, limit: nat, i: nat)
    requires i < |ms|
    ensures Handled(Window(now, 0, true), ms, limit, i) <==> AllFine(now, ms, limit, i + 1)
  {
    hide AllFine, Fine;
    WindowIs(now, ms, limit, i);
    WindowIs(now, ms, limit, i + 1);
    AllFineNext(now, ms, limit, i);
  }

  // ---------- The bound ----------

  ghost predicate Ordered(now: nat, ms: seq<Message>) {
    && (forall i :: 0 <= i < |ms| ==> now <= ms[i].time)
    && (forall i, j :: 0 <= i < j < |ms| ==> ms[i].time <= ms[j].time)
  }

  /** The handled messages among the first `n` whose time lies in [lo, hi]. */
  function Count(w: Window, ms: seq<Message>, limit: nat, lo: nat, hi: nat, n: nat): (c: nat)
    requires n <= |ms|
  {
    if n == 0 then 0 else
      Count(w, ms, limit, lo, hi, n - 1) +
      if Handled(w, ms, limit, n - 1) && lo <= ms[n - 1].time <= hi then 1 else 0
  }

  /** What the counter knows about the interval [lo, lo + 1s]: while the current window began
      before it, the interval holds at most what this window has seen; once a window begins
      inside it, at most one earlier window's worth more. */
  ghost predicate Bounded(w: Window, c: nat, limit: nat, lo: nat) {
    && (w.connected ==> w.seen <= limit)
    && (w.start < lo ==> c <= w.seen && c <= limit)
    && (lo <= w.start <= lo + SECOND ==> c <= limit + w.seen)
    && c <= 2 * limit
  }

  lemma StepBound(w: Window, c: nat, m: Message, limit: nat, lo: nat)
    requires Bounded(w, c, limit, lo) && w.start <= m.time && (c > 0 ==> lo <= m.time)
    ensures var (w', ok) := Receive(w, m, limit);
      && Bounded(w', c + if ok && lo <= m.time <= lo + SECOND then 1 else 0, limit, lo)
      && w.start <= w'.start <= m.time
  {
  }

  lemma {:induction false} IntervalBound(now: nat, ms: seq<Message>, limit: nat, lo: nat, n: nat)
    requires Ordered(now, ms) && n <= |ms|
    ensures var w := After(Window(now, 0, true), ms, limit, n);
      var c := Count(Window(now, 0, true), ms, limit, lo, lo + SECOND, n);
      && Bounded(w, c, limit, lo)
      && (forall i :: n <= i < |ms| ==> w.start <= ms[i].time)
      && (c > 0 ==> n > 0 && lo <= ms[n - 1].time)
  {
    if n > 0 {
      var w0 := Window(now, 0, true);
      IntervalBound(now, ms, limit, lo, n - 1);
      assert n > 1 ==> ms[n - 2].time <= ms[n - 1].time;
      StepBound(After(w0, ms, limit, n - 1), Count(w0, ms, limit, lo, lo + SECOND, n - 1), ms[n - 1], limit, lo);
    }
  }

  /** The messages among the first `n` that arrive in [lo, lo + 1s]. */
  function Arrivals(ms: seq<Message>, lo: nat, n: nat): (c: nat)
    requires n <= |ms|
  {
    if n == 0 then 0 else
      Arrivals(ms, lo, n - 1) + if lo <= ms[n - 1].time <= lo + 1_000_000_000 then 1 else 0
  }

  lemma {:induction false} PlaceIsArrivals(now: nat, ms: seq<Message>, n: nat)
    requires Ordered(now, ms) && n <= |ms|
    ensures PlaceIn(now, ms, n) <= Arrivals(ms, Began(now, ms, n), n)
    ensures forall i :: n <= i < |ms| ==> Began(now, ms, n) <= ms[i].time
  {
    if n > 0 { PlaceIsArrivals(now, ms, n - 1); }
  }

  lemma {:induction false} ArrivalsGrow(ms: seq<Message>, lo: nat, m: nat, n: nat)
    requires m <= n <= |ms|
    ensures Arrivals(ms, lo, m) <= Arrivals(ms, lo, n)
  {
    if m < n { ArrivalsGrow(ms, lo, m, n - 1); }
  }

  /** A peer that in no closed one-second interval sends more than the limit, and nothing too large, is
      never cut off. */
  lemma ModeratePeerIsServed(now: nat, ms: seq<Message>, limit: nat, i: nat)
    requires Ordered(now, ms) && i < |ms| && forall lo: nat :: Arrivals(ms, lo, |ms|) <= limit
    requires forall j :: 0 <= j < |ms| ==> ms[j].size <= 10 * 1024 * 1024
    ensures Handled(Window(now, 0, true), ms, limit, i)
  {
    forall j: nat | j < i + 1 ensures Fine(now, ms, limit, j) {
      PlaceIsArrivals(now, ms, j + 1);
      ArrivalsGrow(ms, Began(now, ms, j + 1), j + 1, |ms|);
    }
    HandledExactly(now, ms, limit, i);
  }

  /** At most twice the limit in any closed one-second interval. */
  lemma AtMostTwiceTheLimit(now: nat, ms: seq<Message>, limit: nat, lo: nat)
    requires Ordered(now, ms)
    ensures Count(Window(now, 0, true), ms, limit, lo, lo + SECOND, |ms|) <= 2 * limit
  {
    IntervalBound(now, ms, limit, lo, |ms|);
  }

  /** A window's worth at the end of one window and a window's worth at the start of the next. */
  function Burst(limit: nat): (ms: seq<Message>)
    ensures |ms| == 2 * limit
    ensures forall i :: 0 <= i < 2 * limit ==> ms[i] == Message(if i < limit then SECOND else SECOND + 1, 0)
  {
    seq(2 * limit, i => Message(if i < limit then SECOND else SECOND + 1, 0))
  }

  lemma {:induction false} BurstHandled(limit: nat, n: nat)
    requires n <= 2 * limit
    ensures After(Window(0, 0, true), Burst(limit), limit, n) ==
      if n <= limit then Window(0, n, true) else Window(SECOND + 1, n - limit, true)
    ensures Count(Window(0, 0, true), Burst(limit), limit, SECOND, SECOND + SECOND, n) == n
  {
    if n > 0 { BurstHandled(limit, n - 1); }
  }

  /** The bound is attained, for every limit: twice the limit within one nanosecond. */
  lemma TwiceTheLimitHappens(limit: nat)
    ensures Ordered(0, Burst(limit))
    ensures Count(Window(0, 0, true), Burst(limit), limit, SECOND, SECOND + SECOND, 2 * limit) == 2 * limit
  {
    BurstHandled(limit, 2 * limit);
  }
}
