/**
 How long the queue can get when sending keeps pace with collecting: both loops run on tickers
 that lose no tick, a collection takes at most `collectDelay` from its tick to its push, and a
 sending tick is served within `sendDelay`.
 */
module Backlog {
  import opened BoundedQueue

  datatype Timed<T> = Timed(time: int, op: Operation<T>)

  datatype Timing = Timing(
    collectPeriod: int, collectDelay: int, firstCollect: int,
    sendPeriod: int, sendDelay: int, senderStart: int)
  {
    predicate Sound() {
      0 < sendPeriod <= collectPeriod && 0 <= collectDelay && 0 <= sendDelay
    }

    /** A ticker created at time t first fires one period later, and then once a period. */
    function SendTick(n: nat): int {
      if n == 0 then senderStart + sendPeriod else SendTick(n - 1) + sendPeriod
    }

    function CollectTick(n: nat): int {
      if n == 0 then firstCollect else CollectTick(n - 1) + collectPeriod
    }

    function Slack(): (n: int)
      requires Sound()
      ensures n >= 2
    {
      (collectDelay + sendDelay) / collectPeriod + 2
    }
  }

  function Pushes<T>(events: seq<Timed<T>>, n: nat): (c: nat)
    requires n <= |events|
    ensures c <= n
  {
    if n == 0 then 0 else Pushes(events, n - 1) + (if events[n - 1].op.Push? then 1 else 0)
  }

  function Attempts<T>(events: seq<Timed<T>>, n: nat): nat
    requires n <= |events|
  {
    n - Pushes(events, n)
  }

  /** The i-th event happens at or after its loop's next tick, within that loop's delay. */
  ghost predicate OnTime<T>(events: seq<Timed<T>>, t: Timing, i: nat)
    requires i < |events|
  {
    && t.senderStart <= events[i].time
    && match events[i].op
       case Push(_) =>
         t.CollectTick(Pushes(events, i)) <= events[i].time <= t.CollectTick(Pushes(events, i)) + t.collectDelay
       case TryPop =>
         t.SendTick(Attempts(events, i)) <= events[i].time <= t.SendTick(Attempts(events, i)) + t.sendDelay
  }

  ghost predicate InOrder<T>(events: seq<Timed<T>>, i: nat, j: nat)
    requires i < |events| && j < |events|
  {
    events[i].time <= events[j].time
  }

  /** `events` is what the two loops do to the queue from the moment the sender's ticker is created. */
  ghost predicate Follows<T>(events: seq<Timed<T>>, t: Timing) {
    && t.Sound()
    && (forall i, j :: 0 <= i <= j < |events| ==> InOrder(events, i, j))
    && (forall i :: 0 <= i < |events| ==> OnTime(events, t, i))
    // no sending tick is overdue when the observation ends
    && (|events| > 0 ==>
          events[|events| - 1].time <= t.SendTick(Attempts(events, |events|)) + t.sendDelay)
  }

  function Operations<T>(events: seq<Timed<T>>, n: nat): seq<Operation<T>>
    requires n <= |events|
  {
    seq(n, i requires 0 <= i < n => events[i].op)
  }

  function After<T>(q: QueueState<T>, events: seq<Timed<T>>, n: nat): (r: QueueState<T>)
    requires q.WellFormed() && n <= |events|
    ensures r.WellFormed() && r.capacity == q.capacity
  {
    q.Run(Operations(events, n)).0
  }

  lemma AfterSnoc<T>(q: QueueState<T>, events: seq<Timed<T>>, n: nat)
    requires q.WellFormed() && n < |events|
    ensures After(q, events, n + 1) == After(q, events, n).Apply(events[n].op).0
    ensures var before, after := |After(q, events, n).Window()|, |After(q, events, n + 1).Window()|;
            if events[n].op.Push? then after <= before + 1 else after == if before == 0 then 0 else before - 1
  {
    assert Operations(events, n + 1) == Operations(events, n) + [events[n].op];
    RunSnoc(q, Operations(events, n), events[n].op);
  }

  lemma CountsGrow<T>(events: seq<Timed<T>>, j: nat, i: nat)
    requires j <= i <= |events|
    ensures Pushes(events, j) <= Pushes(events, i) && Attempts(events, j) <= Attempts(events, i)
  {
  }

  // ---- Since the queue was last empty, it has grown by pushes and shrunk by attempts ----

  /** Between `j` and `i` the queue has grown at most by what was pushed and not answered by an attempt. */
  ghost predicate GrownSince<T>(q: QueueState<T>, events: seq<Timed<T>>, j: nat, i: nat)
    requires q.WellFormed() && j <= i <= |events|
  {
    |After(q, events, i).Window()| <=
    (if j == 0 then |q.Window()| else 0)
    + (Pushes(events, i) - Pushes(events, j)) - (Attempts(events, i) - Attempts(events, j))
  }

  lemma GrownSnoc<T>(q: QueueState<T>, events: seq<Timed<T>>, j: nat, i: nat)
    requires q.WellFormed() && j <= i < |events| && GrownSince(q, events, j, i)
    requires events[i].op.Push? || |After(q, events, i).Window()| > 0
    ensures GrownSince(q, events, j, i + 1)
  {
    AfterSnoc(q, events, i);
  }

  lemma GrownAtOnce<T>(q: QueueState<T>, events: seq<Timed<T>>)
    requires q.WellFormed()
    ensures GrownSince(q, events, 0, 0)
  {
    assert Operations(events, 0) == [];
  }

  lemma EmptyAgain<T>(q: QueueState<T>, events: seq<Timed<T>>, i: nat)
    requires q.WellFormed() && i < |events|
    requires events[i].op.TryPop? && |After(q, events, i).Window()| == 0
    ensures GrownSince(q, events, i + 1, i + 1)
  {
    AfterSnoc(q, events, i);
  }

  lemma LastEmpty<T>(q: QueueState<T>, events: seq<Timed<T>>, i: nat) returns (j: nat)
    requires q.WellFormed() && i <= |events|
    ensures j <= i && GrownSince(q, events, j, i)
  {
    GrownAtOnce(q, events);
    j := 0;
    for k := 0 to i
      invariant j <= k && GrownSince(q, events, j, k)
    {
      if events[k].op.TryPop? && |After(q, events, k).Window()| == 0 {
        EmptyAgain(q, events, k);
        j := k + 1;
      } else {
        GrownSnoc(q, events, j, k);
      }
    }
  }

  // ---- In any stretch of the run, pushes exceed attempts by at most the slack ----

  lemma {:induction false} FirstPush<T>(events: seq<Timed<T>>, j: nat, i: nat) returns (a: nat)
    requires j <= i <= |events| && Pushes(events, j) < Pushes(events, i)
    ensures j <= a < i && events[a].op.Push? && Pushes(events, a) == Pushes(events, j)
    decreases i - j
  {
    if events[j].op.Push? {
      a := j;
    } else {
      a := FirstPush(events, j + 1, i);
    }
  }

  lemma {:induction false} LastPush<T>(events: seq<Timed<T>>, j: nat, i: nat) returns (b: nat)
    requires j <= i <= |events| && Pushes(events, j) < Pushes(events, i)
    ensures j <= b < i && events[b].op.Push? && Pushes(events, b) == Pushes(events, i) - 1
    decreases i
  {
    if events[i - 1].op.Push? {
      b := i - 1;
    } else {
      b := LastPush(events, j, i - 1);
    }
  }

  lemma {:induction false} LastAttempt<T>(events: seq<Timed<T>>, i: nat) returns (b: nat)
    requires i <= |events| && Attempts(events, i) > 0
    ensures b < i && events[b].op.TryPop? && Attempts(events, b) == Attempts(events, i) - 1
    decreases i
  {
    if events[i - 1].op.TryPop? {
      b := i - 1;
    } else {
      b := LastAttempt(events, i - 1);
    }
  }

  lemma {:induction false} NextAttempt<T>(events: seq<Timed<T>>, i: nat) returns (b: nat)
    requires i <= |events| && Attempts(events, i) < Attempts(events, |events|)
    ensures i <= b < |events| && events[b].op.TryPop? && Attempts(events, b) == Attempts(events, i)
    decreases |events| - i
  {
    if events[i].op.TryPop? {
      b := i;
    } else {
      b := NextAttempt(events, i + 1);
    }
  }

  /** No tick is overdue at any moment of the run, given that none is at its end. */
  lemma AttemptsKeepUp<T>(events: seq<Timed<T>>, t: Timing, i: nat)
    requires Follows(events, t) && 0 < i <= |events|
    ensures events[i - 1].time <= t.SendTick(Attempts(events, i)) + t.sendDelay
  {
    CountsGrow(events, i, |events|);
    if Attempts(events, i) == Attempts(events, |events|) {
      assert InOrder(events, i - 1, |events| - 1);
    } else {
      var b := NextAttempt(events, i);
      assert OnTime(events, t, b);
      assert InOrder(events, i - 1, b);
    }
  }

  lemma AttemptsAreNotEarly<T>(events: seq<Timed<T>>, t: Timing, j: nat)
    requires Follows(events, t) && j < |events|
    ensures t.SendTick(Attempts(events, j)) - t.sendPeriod <= events[j].time
  {
    assert OnTime(events, t, j);
    if Attempts(events, j) > 0 {
      var b := LastAttempt(events, j);
      assert OnTime(events, t, b);
      assert InOrder(events, b, j);
    }
  }

  lemma {:induction false} TickSpan(t: Timing, a: nat, b: nat)
    requires a <= b
    ensures t.SendTick(b) - t.SendTick(a) == (b - a) * t.sendPeriod
    ensures t.CollectTick(b) - t.CollectTick(a) == (b - a) * t.collectPeriod
  {
    if a < b {
      TickSpan(t, a, b - 1);
      assert (b - a) * t.sendPeriod == (b - 1 - a) * t.sendPeriod + t.sendPeriod;
      assert (b - a) * t.collectPeriod == (b - 1 - a) * t.collectPeriod + t.collectPeriod;
    }
  }

  lemma NegativeProduct(x: int, p: int)
    requires 0 < p && x * p < 0
    ensures x < 0
  {
  }

  lemma QuotientBound(x: int, p: int, d: int)
    requires 0 < p && x * p <= d
    ensures x <= d / p
  {
    var q := d / p;
    assert d < q * p + p;
    assert (x - q - 1) * p == x * p - (q * p + p);
    NegativeProduct(x - q - 1, p);
  }

  /** `pushes` ticks of the longer period and `attempts` ticks of the shorter one in the same stretch. */
  lemma PeriodArithmetic(pushes: int, attempts: int, t: Timing, stretch: int)
    requires t.Sound() && attempts >= 0
    requires (pushes - 1) * t.collectPeriod <= stretch + t.collectDelay
    requires stretch <= (attempts + 1) * t.sendPeriod + t.sendDelay
    ensures pushes - attempts <= t.Slack()
  {
    var p := t.collectPeriod;
    assert (attempts + 1) * t.sendPeriod <= (attempts + 1) * p;
    var excess := pushes - attempts - 2;
    assert excess * p == (pushes - 1) * p - (attempts + 1) * p;
    QuotientBound(excess, p, t.collectDelay + t.sendDelay);
  }

  /** The pushes of a stretch that has any are a period apart, up to the collection delay. */
  lemma PushesTakeTime<T>(events: seq<Timed<T>>, t: Timing, j: nat, i: nat)
    requires Follows(events, t) && j < i <= |events| && Pushes(events, j) < Pushes(events, i)
    ensures t.CollectTick(Pushes(events, i) - 1) - t.CollectTick(Pushes(events, j))
            <= events[i - 1].time - events[j].time + t.collectDelay
  {
    var first := FirstPush(events, j, i);
    var last := LastPush(events, j, i);
    assert OnTime(events, t, first) && OnTime(events, t, last);
    assert InOrder(events, j, first) && InOrder(events, last, i - 1);
  }

  lemma StretchSlack<T>(events: seq<Timed<T>>, t: Timing, j: nat, i: nat)
    requires Follows(events, t) && j <= i <= |events|
    ensures (Pushes(events, i) - Pushes(events, j)) - (Attempts(events, i) - Attempts(events, j)) <= t.Slack()
  {
    CountsGrow(events, j, i);
    if Pushes(events, j) < Pushes(events, i) {
      PushesTakeTime(events, t, j, i);
      AttemptsKeepUp(events, t, i);
      AttemptsAreNotEarly(events, t, j);
      SlackFromTicks(t, Pushes(events, j), Pushes(events, i), Attempts(events, j), Attempts(events, i),
                     events[j].time, events[i - 1].time);
    }
  }

  lemma SlackFromTicks(t: Timing, p: nat, p': nat, a: nat, a': nat, from: int, to: int)
    requires t.Sound() && p < p' && a <= a'
    requires t.CollectTick(p' - 1) - t.CollectTick(p) <= to - from + t.collectDelay
    requires to <= t.SendTick(a') + t.sendDelay && t.SendTick(a) - t.sendPeriod <= from
    ensures (p' - p) - (a' - a) <= t.Slack()
  {
    TickSpan(t, p, p' - 1);
    TickSpan(t, a, a');
    assert (a' - a + 1) * t.sendPeriod == (a' - a) * t.sendPeriod + t.sendPeriod;
    PeriodArithmetic(p' - p, a' - a, t, to - from);
  }

  /**
   At every moment of a run in which sending keeps pace, the queue holds at most the backlog the
   sender found plus a constant of the two periods and delays.
   */
  lemma BacklogBounded<T>(q: QueueState<T>, events: seq<Timed<T>>, t: Timing, i: nat)
    requires q.WellFormed() && Follows(events, t) && i <= |events|
    ensures |After(q, events, i).Window()| <= |q.Window()| + t.Slack()
  {
    var j := LastEmpty(q, events, i);
    StretchSlack(events, t, j, i);
  }

  lemma RoomForPush<T>(q: QueueState<T>, events: seq<Timed<T>>, t: Timing, i: nat)
    requires q.WellFormed() && Follows(events, t) && i < |events| && events[i].op.Push?
    ensures |After(q, events, i).Window()| < |q.Window()| + t.Slack()
  {
    var j := LastEmpty(q, events, i);
    StretchSlack(events, t, j, i + 1);
    CountsGrow(events, j, i);
  }

  /** If that much fits, nothing is ever evicted, so every metric pushed is still queued or was handed out. */
  lemma {:induction false} NothingEvictedWhenSendingKeepsPace<T>(q: QueueState<T>, events: seq<Timed<T>>, t: Timing,
      i: nat)
    requires q.WellFormed() && Follows(events, t) && i <= |events|
    requires |q.Window()| + t.Slack() <= q.capacity
    ensures After(q, events, i).evicted == q.evicted
  {
    if i == 0 {
    } else {
      NothingEvictedWhenSendingKeepsPace(q, events, t, i - 1);
      AfterSnoc(q, events, i - 1);
      if events[i - 1].op.Push? {
        RoomForPush(q, events, t, i - 1);
      }
    }
  }
}
