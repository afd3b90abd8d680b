/**
 The queue under contention: any number of pushers, blocking poppers and `TryPop` callers.

 Every critical section runs under the queue's mutex, so one event is one critical section.
 `Wait` registers the caller before it releases the mutex, and `Signal` wakes one registered
 waiter; a woken popper has to take the mutex again and may find the queue emptied by others.
 */
module QueueMonitor {
  import opened BoundedQueue
  import opened Goroutines
  import opened Sequences
  import opened Wrappers

  datatype Event<T> =
    | PushItem(item: T, wake: Option<ThreadId>)  // Push, and the waiter its Signal picks
    | PopEnters(caller: ThreadId)                // Pop, up to its first Wait or its return
    | PopResumes(caller: ThreadId)               // a woken popper takes the mutex again
    | TryPopItem(caller: ThreadId)

  datatype Monitor<T> = Monitor(
    capacity: int,
    items: seq<T>,
    waiting: set<ThreadId>,   // asleep in Wait
    woken: set<ThreadId>,     // signalled, not yet holding the mutex
    taken: seq<(ThreadId, T)> // what each returned Pop or successful TryPop got
  )
  {
    /** The guard of the loop in `Pop` after taking the mutex: sleep, or take the oldest item. */
    function PopAttempt(caller: ThreadId): Monitor<T> {
      if items == [] then this.(waiting := waiting + {caller})
      else this.(items := items[1..], taken := taken + [(caller, items[0])])
    }

    /** `None` when the event is not possible here. */
    function Step(e: Event<T>): Option<Monitor<T>> {
      match e
      case PushItem(item, wake) =>
        if |items| >= capacity && items == [] then
          if wake.None? then Some(this) else None  // panics before Signal
        else
          var kept := if |items| >= capacity then items[1..] else items;
          var pushed := this.(items := kept + [item]);
          if waiting == {} then
            if wake.None? then Some(pushed) else None
          else if wake.Some? && wake.value in waiting then
            Some(pushed.(waiting := waiting - {wake.value}, woken := woken + {wake.value}))
          else None
      case PopEnters(caller) =>
        if caller in waiting + woken then None else Some(PopAttempt(caller))
      case PopResumes(caller) =>
        if caller !in woken then None
        else Some(this.(woken := woken - {caller}).PopAttempt(caller))
      case TryPopItem(caller) =>
        if caller in waiting + woken then None
        else if items == [] then Some(this)
        else Some(this.(items := items[1..], taken := taken + [(caller, items[0])]))
    }

    function Run(events: seq<Event<T>>): Option<Monitor<T>>
      decreases |events|
    {
      if events == [] then Some(this)
      else
        match Run(events[..|events| - 1])
        case None => None
        case Some(before) => before.Step(events[|events| - 1])
    }

    /** Some popper is asleep only if enough woken poppers are on their way for every queued item. */
    ghost predicate NoLostWakeup() {
      && waiting !! woken
      && (waiting != {} ==> |items| <= |woken|)
    }
  }

  function NewMonitor<T>(capacity: nat): Monitor<T> {
    Monitor(capacity, [], {}, {}, [])
  }

  lemma StepKeepsWakeups<T>(m: Monitor<T>, e: Event<T>)
    requires m.NoLostWakeup() && m.Step(e).Some?
    ensures m.Step(e).value.NoLostWakeup()
  {
    if e.PushItem? && e.wake.Some? {
      assert e.wake.value !in m.woken;
    }
  }

  lemma {:induction false} RunKeepsWakeups<T>(m: Monitor<T>, events: seq<Event<T>>)
    requires m.NoLostWakeup() && m.Run(events).Some?
    ensures m.Run(events).value.NoLostWakeup()
    decreases |events|
  {
    if events == [] {
    } else {
      RunKeepsWakeups(m, events[..|events| - 1]);
      StepKeepsWakeups(m.Run(events[..|events| - 1]).value, events[|events| - 1]);
    }
  }

  /**
   In every reachable state, a non-empty queue and a sleeping popper imply that some popper has
   been woken and not yet run; letting it run takes the oldest item.
   */
  lemma SleepersAreNeverForgotten<T>(capacity: nat, events: seq<Event<T>>)
    requires NewMonitor<T>(capacity).Run(events).Some?
    ensures var m := NewMonitor<T>(capacity).Run(events).value;
            m.waiting != {} && m.items != [] ==>
              && m.woken != {}
              && forall t :: t in m.woken ==>
                   m.Step(PopResumes(t)) ==
                   Some(m.(items := m.items[1..], woken := m.woken - {t}, taken := m.taken + [(t, m.items[0])]))
  {
    var m := NewMonitor<T>(capacity).Run(events).value;
    RunKeepsWakeups(NewMonitor<T>(capacity), events);
    assert m.woken == {} ==> |m.woken| == 0;
  }

  function Resumptions<T>(order: seq<ThreadId>): seq<Event<T>> {
    seq(|order|, k requires 0 <= k < |order| => PopResumes(order[k]))
  }

  /** Once the woken poppers have all run, in any order, either nobody sleeps or nothing is queued. */
  lemma {:induction false} WokenPoppersSettleTheQueue<T>(m: Monitor<T>, order: seq<ThreadId>)
    requires m.NoLostWakeup()
    requires NoRepeats(order)
    requires m.woken == Elements(order)
    ensures var end := m.Run(Resumptions<T>(order));
            && end.Some? && end.value.woken == {}
            && (end.value.waiting == {} || end.value.items == [])
            && |end.value.taken| - |m.taken| == if |order| <= |m.items| then |order| else |m.items|
  {
    var events := Resumptions<T>(order);
    ResumingInOrder(m, order, |order|);
    assert events[..|order|] == events;
    assert order[|order|..] == [];
    RunKeepsWakeups(m, events);
  }

  lemma {:induction false} ResumingInOrder<T>(m: Monitor<T>, order: seq<ThreadId>, n: nat)
    requires n <= |order|
    requires NoRepeats(order)
    requires m.woken == Elements(order)
    ensures var events := Resumptions<T>(order);
            var end := m.Run(events[..n]);
            && end.Some? && end.value.woken == Elements(order[n..])
            && |m.items| - |end.value.items| == |end.value.taken| - |m.taken|
            && |end.value.items| == if n <= |m.items| then |m.items| - n else 0
  {
    var events := Resumptions<T>(order);
    if n == 0 {
      assert events[..0] == [];
      assert order[0..] == order;
    } else {
      ResumingInOrder(m, order, n - 1);
      assert events[..n][..n - 1] == events[..n - 1];
      assert events[..n][n - 1] == PopResumes(order[n - 1]);
      ElementsFrom(order, n - 1);
    }
  }

  /**
   Nobody but a sleeper waits: a push can always be made, full queue or not, and wakes a sleeper if there is one
   (unless it panics); a caller that is not in a Pop can begin one or try; a woken one can go on.
   */
  lemma OnlySleepersWait<T>(capacity: nat, events: seq<Event<T>>, item: T, caller: ThreadId)
    requires NewMonitor<T>(capacity).Run(events).Some?
    ensures var m := NewMonitor<T>(capacity).Run(events).value;
            && (forall wake :: m.Step(PushItem(item, wake)).Some? <==>
                  if capacity == 0 || m.waiting == {} then wake == None else wake.Some? && wake.value in m.waiting)
            && (m.Step(PopEnters(caller)).Some? <==> !Pending(m, caller))
            && (m.Step(TryPopItem(caller)).Some? <==> !Pending(m, caller))
            && (m.Step(PopResumes(caller)).Some? <==> caller in m.woken)
  {
    RunKeepsCapacity<T>(capacity, events);
  }

  lemma {:induction false} RunKeepsCapacity<T>(capacity: nat, events: seq<Event<T>>)
    requires NewMonitor<T>(capacity).Run(events).Some?
    ensures var m := NewMonitor<T>(capacity).Run(events).value;
            m.capacity == capacity && |m.items| <= capacity
    decreases |events|
  {
    if events != [] {
      RunKeepsCapacity<T>(capacity, events[..|events| - 1]);
    }
  }

  // ---- A Pop comes back only with an item ----

  /** How many calls of `Pop` the caller has made. */
  function PopsBegun<T>(events: seq<Event<T>>, caller: ThreadId): nat {
    if events == [] then 0
    else PopsBegun(events[..|events| - 1], caller) + (if events[|events| - 1] == PopEnters(caller) then 1 else 0)
  }

  function TakenBy<T>(taken: seq<(ThreadId, T)>, caller: ThreadId): nat {
    if taken == [] then 0
    else TakenBy(taken[..|taken| - 1], caller) + (if taken[|taken| - 1].0 == caller then 1 else 0)
  }

  lemma TakenByOneMore<T>(taken: seq<(ThreadId, T)>, caller: ThreadId, next: (ThreadId, T))
    ensures TakenBy(taken + [next], caller) == TakenBy(taken, caller) + (if next.0 == caller then 1 else 0)
  {
    assert (taken + [next])[..|taken + [next]| - 1] == taken;
  }

  /** A call that has begun and not come back is asleep, or woken and on its way to the mutex. */
  ghost predicate Pending<T>(m: Monitor<T>, caller: ThreadId) {
    caller in m.waiting || caller in m.woken
  }

  /** What one event means for one caller. */
  lemma StepOfCaller<T>(m: Monitor<T>, e: Event<T>, caller: ThreadId)
    requires m.NoLostWakeup() && m.Step(e).Some? && e != TryPopItem(caller)
    ensures var next := m.Step(e).value;
            TakenBy(next.taken, caller) + (if Pending(next, caller) then 1 else 0) ==
            TakenBy(m.taken, caller) + (if Pending(m, caller) then 1 else 0)
            + (if e == PopEnters(caller) then 1 else 0)
  {
    if !e.PushItem? && m.items != [] {
      TakenByOneMore(m.taken, caller, (e.caller, m.items[0]));
    }
  }

  /**
   In every run, each caller that uses only `Pop` has got as many items as it has made calls, less the one it is
   still in: no call comes back without an item, and none takes more than one.
   */
  lemma {:induction false} PopReturnsWithAnItem<T>(capacity: nat, events: seq<Event<T>>, caller: ThreadId)
    requires NewMonitor<T>(capacity).Run(events).Some? && TryPopItem(caller) !in events
    ensures var m := NewMonitor<T>(capacity).Run(events).value;
            PopsBegun(events, caller) == TakenBy(m.taken, caller) + (if Pending(m, caller) then 1 else 0)
    decreases |events|
  {
    if events == [] {
    } else {
      var before, last := events[..|events| - 1], events[|events| - 1];
      PopReturnsWithAnItem(capacity, before, caller);
      RunKeepsWakeups(NewMonitor<T>(capacity), before);
      StepOfCaller(NewMonitor<T>(capacity).Run(before).value, last, caller);
    }
  }

  // ---- Linearisation: the monitor's runs are runs of the sequential queue ----

  /** The sequential operation an event performs at its critical section; a Pop that goes to sleep performs none. */
  function Effect<T>(m: Monitor<T>, e: Event<T>): seq<Operation<T>> {
    match e
    case PushItem(item, _) => [Push(item)]
    case PopEnters(_) => if m.items == [] then [] else [TryPop]
    case PopResumes(_) => if m.items == [] then [] else [TryPop]
    case TryPopItem(_) => [TryPop]
  }

  function Effects<T>(m: Monitor<T>, events: seq<Event<T>>): seq<Operation<T>>
    requires m.Run(events).Some?
    decreases |events|
  {
    if events == [] then []
    else
      var before := events[..|events| - 1];
      Effects(m, before) + Effect(m.Run(before).value, events[|events| - 1])
  }

  function ItemsOf<T>(taken: seq<(ThreadId, T)>): seq<T> {
    seq(|taken|, k requires 0 <= k < |taken| => taken[k].1)
  }

  /**
   Every interleaving is equivalent to performing its critical sections one after the other on the
   sequential queue: same contents, and the poppers received that sequence's replies in order.
   */
  lemma {:induction false} RunsLinearise<T>(capacity: nat, events: seq<Event<T>>)
    requires NewMonitor<T>(capacity).Run(events).Some?
    ensures var m := NewMonitor<T>(capacity).Run(events).value;
            var (q, replies) := EmptyQueue<T>(capacity).Run(Effects(NewMonitor(capacity), events));
            && m.capacity == capacity
            && m.items == q.Window()
            && ItemsOf(m.taken) == PoppedItems(replies)
    decreases |events|
  {
    if events == [] {
    } else {
      var start := NewMonitor<T>(capacity);
      var before := events[..|events| - 1];
      RunsLinearise<T>(capacity, before);
      EventLinearises(start.Run(before).value, EmptyQueue<T>(capacity), Effects(start, before), events[|events| - 1]);
    }
  }

  /** One more event is one more sequential operation, or none. */
  lemma EventLinearises<T>(m: Monitor<T>, empty: QueueState<T>, ops: seq<Operation<T>>, e: Event<T>)
    requires empty.WellFormed() && m.capacity == empty.capacity && m.Step(e).Some?
    requires m.items == empty.Run(ops).0.Window() && ItemsOf(m.taken) == PoppedItems(empty.Run(ops).1)
    ensures var next, (q, replies) := m.Step(e).value, empty.Run(ops + Effect(m, e));
            && next.capacity == m.capacity && next.items == q.Window()
            && ItemsOf(next.taken) == PoppedItems(replies)
  {
    var more := Effect(m, e);
    if more == [] {
      assert ops + more == ops;
    } else {
      assert ops + more == ops + [more[0]];
      RunSnoc(empty, ops, more[0]);
      StepLinearises(m, empty.Run(ops).0, e);
      PoppedOneMore(empty.Run(ops).1, empty.Run(ops).0.Apply(more[0]).1);
    }
  }

  lemma PoppedOneMore<T>(replies: seq<Reply<T>>, reply: Reply<T>)
    ensures PoppedItems(replies + [reply]) == PoppedItems(replies) + (if reply.Popped? then [reply.item] else [])
  {
    assert (replies + [reply])[..|replies|] == replies;
  }

  lemma StepLinearises<T>(m: Monitor<T>, q: QueueState<T>, e: Event<T>)
    requires q.WellFormed() && m.capacity == q.capacity && m.items == q.Window()
    requires m.Step(e).Some? && Effect(m, e) != []
    ensures var (next, reply) := q.Apply(Effect(m, e)[0]);
            && m.Step(e).value.items == next.Window()
            && m.Step(e).value.capacity == m.capacity
            && ItemsOf(m.Step(e).value.taken) ==
               ItemsOf(m.taken) + (if reply.Popped? then [reply.item] else [])
  {
    match e
    case PushItem(item, wake) => PushLinearises(m, q, item, wake);
    case PopEnters(caller) => TakeLinearises(m, q, caller);
    case PopResumes(caller) => TakeLinearises(m.(woken := m.woken - {caller}), q, caller);
    case TryPopItem(caller) =>
      if m.items != [] {
        TakeLinearises(m, q, caller);
      }
  }

  /** A push evicts first when the queue is full, appends, and hands nothing out; on capacity 0 nothing changes. */
  lemma PushLinearises<T>(m: Monitor<T>, q: QueueState<T>, item: T, wake: Option<ThreadId>)
    requires q.WellFormed() && m.capacity == q.capacity && m.items == q.Window()
    requires m.Step(PushItem(item, wake)).Some?
    ensures var (next, reply) := q.Apply(Push(item));
            && m.Step(PushItem(item, wake)).value.items == next.Window() && !reply.Popped?
            && m.Step(PushItem(item, wake)).value.taken == m.taken
  {
    if q.capacity == 0 {
      assert m.items == [];
    } else {
      PushWindow(q, item);
    }
  }

  /** Taking the oldest item hands out what `TryPop` does. */
  lemma TakeLinearises<T>(m: Monitor<T>, q: QueueState<T>, caller: ThreadId)
    requires q.WellFormed() && m.items == q.Window() && m.items != []
    ensures var (next, reply) := q.Apply(TryPop);
            && m.items[1..] == next.Window() && reply == Popped(m.items[0])
            && ItemsOf(m.taken + [(caller, m.items[0])]) == ItemsOf(m.taken) + [m.items[0]]
  {
  }
}
