/**
 The running agent end to end: the collection loop pushes one metric per tick, the send loop takes
 one per tick and writes or discards it, while the connection comes up and goes down around them.
 The connection side is `Session`; what happens to the metrics is `DeliveryLedger`.
 */
module Agent {
  import opened Wrappers
  import opened BoundedQueue
  import opened DeliveryLedger
  import S = Session

  datatype Metric = Metric(timestamp: nat, body: nat)

  /** The goroutine of `MasterCollector.Start`; a collection is stamped when it begins. */
  datatype CollectorPc = Unborn | AwaitingTick | Collecting(timestamp: nat)

  datatype Event =
    | ClockTicks
    | CollectionBegins
    | CollectionPushes(body: nat)
    | SenderTryPops
    | Other(e: S.Event)

  datatype Agent = Agent(clock: nat, collector: CollectorPc, ledger: Ledger<Metric>, session: S.Session)
  {
    /** The part of a send's step that decides the fate of the metric in hand. */
    function Settle(e: S.Event): Ledger<Metric> {
      if ledger.hand.None? then ledger
      else
        match e
        case SenderChecks => if session.isConnected then ledger else ledger.Discard()
        case SenderMarshalFails => ledger.Discard()
        case SenderWrites(ok) =>
          if !session.hasConn then ledger  // the process dies with the metric in hand
          else if ok then ledger.Write()
          else ledger.Discard()
        case _ => ledger
    }

    function Step(e: Event): Option<Agent>
      requires ledger.queue.WellFormed()
    {
      if session.crashed then None
      else
        match e
        case ClockTicks => Some(this.(clock := clock + 1))
        case CollectionBegins =>
          if collector.AwaitingTick? then Some(this.(collector := Collecting(clock))) else None
        case CollectionPushes(body) =>
          if collector.Collecting? then
            Some(this.(collector := AwaitingTick, ledger := ledger.Push(Metric(collector.timestamp, body))))
          else None
        case SenderTryPops =>
          (match session.Step(S.SenderPops(ledger.queue.Window() != []))
           case None => None
           case Some(next) => Some(this.(session := next, ledger := ledger.Pop())))
        case Other(e) =>
          if e.SenderPops? then None
          else
            match session.Step(e)
            case None => None
            case Some(next) =>
              Some(this.(session := next, ledger := Settle(e),
                         collector := if collector.Unborn? && e.ConnectSteps? then AwaitingTick else collector))
    }

    /** The sender holds a metric exactly from a successful pop to the end of its send. */
    ghost predicate LedgerInv() {
      ledger.Balanced() && (ledger.hand.Some? <==> session.HoldsMetric())
    }

    ghost predicate ClockInv() {
      && Stamped(ledger.queue.pushed, if collector.Collecting? then collector.timestamp else clock)
      && (collector.Collecting? ==> collector.timestamp <= clock)
    }

    ghost predicate Inv() {
      LedgerInv() && ClockInv() && session.Inv()
    }

    function Run(events: seq<Event>): (r: Option<Agent>)
      requires Inv()
      ensures r.Some? ==> r.value.Inv()
      decreases |events|
    {
      if events == [] then Some(this)
      else
        match Run(events[..|events| - 1])
        case None => None
        case Some(before) =>
          StepKeepsInv(before, events[|events| - 1]);
          before.Step(events[|events| - 1])
    }
  }

  /** Timestamps do not decrease along the push history and do not exceed `now`. */
  ghost predicate Stamped(pushed: seq<Metric>, now: nat) {
    && (forall i, j :: 0 <= i < j < |pushed| ==> pushed[i].timestamp <= pushed[j].timestamp)
    && (forall i :: 0 <= i < |pushed| ==> pushed[i].timestamp <= now)
  }

  function NewAgent(capacity: nat): (a: Agent)
    requires capacity >= 1
    ensures a.Inv()
  {
    Agent(0, Unborn, EmptyLedger(capacity), S.NewSession())
  }

  lemma SenderMoves(s: S.Session, e: S.Event)
    requires s.Step(e).Some?
    ensures var busy, busyAfter := s.HoldsMetric(), s.Step(e).value.HoldsMetric();
            match e
            case SenderPops(found) => !busy && busyAfter == found
            case SenderChecks => busy && busyAfter == s.isConnected
            case SenderMarshalFails => busy && !busyAfter
            case SenderWrites(_) => busy && busyAfter == !s.hasConn
            case _ => busyAfter == busy || !s.main.ConnectReturned?
  {
    match e
    case ConnectSteps(_) =>
    case ReceiverSteps(readOk) => S.ReceiverMovesAlone(s, readOk);
    case DisconnectSteps => S.DisconnectMovesAlone(s);
    case _ =>
  }

  lemma StepKeepsLedger(a: Agent, e: Event)
    requires a.Inv() && a.Step(e).Some?
    ensures a.Step(e).value.LedgerInv()
  {
    match e
    case ClockTicks =>
    case CollectionBegins =>
    case CollectionPushes(body) => PushKeepsBalance(a.ledger, Metric(a.collector.timestamp, body));
    case SenderTryPops =>
      SenderMoves(a.session, S.SenderPops(a.ledger.queue.Window() != []));
      PopKeepsBalance(a.ledger);
    case Other(e) =>
      SenderMoves(a.session, e);
      if a.ledger.hand.Some? {
        SettleKeepsBalance(a.ledger);
      }
  }

  lemma StepKeepsClock(a: Agent, e: Event)
    requires a.Inv() && a.Step(e).Some?
    ensures a.Step(e).value.ClockInv()
  {
    var before, after := a.ledger.queue.pushed, a.Step(e).value.ledger.queue.pushed;
    match e
    case CollectionPushes(body) =>
      assert after == before || after == before + [Metric(a.collector.timestamp, body)];
    case _ => assert after == before;
  }

  lemma StepKeepsInv(a: Agent, e: Event)
    requires a.Inv()
    ensures a.Step(e).Some? ==> a.Step(e).value.Inv()
  {
    if a.Step(e).Some? {
      StepKeepsLedger(a, e);
      StepKeepsClock(a, e);
      match e
      case SenderTryPops => S.StepKeepsInv(a.session, S.SenderPops(a.ledger.queue.Window() != []));
      case Other(e) => S.StepKeepsInv(a.session, e);
      case _ =>
    }
  }

  // ---- What every run guarantees ----

  function Frames(a: Agent): seq<Metric>
    requires a.LedgerInv()
  {
    Select(a.ledger.queue.pushed, a.ledger.written)
  }

  /** A send that gives its metric up. */
  predicate GivesUp(s: S.Session, e: S.Event) {
    || (e.SenderChecks? && !s.isConnected)
    || e.SenderMarshalFails?
    || (e == S.SenderWrites(false) && s.hasConn)
  }

  /**
   A metric reaches the wire exactly by a successful write on a live connection, and is discarded exactly by a
   send that gives up; either way it is the metric in hand.
   */
  lemma FateFollowsTheSend(a: Agent, e: S.Event)
    requires a.Inv() && a.Step(Other(e)).Some?
    ensures var next := a.Step(Other(e)).value.ledger;
            && (next.written != a.ledger.written <==> e == S.SenderWrites(true) && a.session.hasConn)
            && (next.discarded != a.ledger.discarded <==> GivesUp(a.session, e))
            && (next.written != a.ledger.written ==>
                  a.ledger.hand.Some? && next.written == a.ledger.written + [a.ledger.hand.value])
            && (next.discarded != a.ledger.discarded ==>
                  a.ledger.hand.Some? && next.discarded == a.ledger.discarded + [a.ledger.hand.value])
  {
    SenderMoves(a.session, e);
  }

  /**
   The ledger closes in every interleaving: every collection that came to its push has its metric there, each
   metric has exactly one fate, and metrics older than one on the wire have been sent, evicted or discarded.
   */
  lemma EveryMetricAccountedFor(capacity: nat, events: seq<Event>)
    requires capacity >= 1 && NewAgent(capacity).Run(events).Some?
    ensures var l := NewAgent(capacity).Run(events).value.ledger;
            && l.queue.pushed == Collected(events)
            && (forall i: nat :: i < |Collected(events)| ==> l.HasOneFate(i))
            && (forall i: nat, k :: 0 <= k < |l.written| && i < l.written[k] ==> l.Settled(i))
  {
    var l := NewAgent(capacity).Run(events).value.ledger;
    PushesWhatWasCollected(capacity, events);
    forall i: nat | i < |l.queue.pushed| ensures l.HasOneFate(i) {
      EveryPushHasOneFate(l, i);
    }
    forall i: nat, k | 0 <= k < |l.written| && i < l.written[k] ensures l.Settled(i) {
      NothingIsOvertaken(l, i, k);
    }
  }

  /** The frames on the wire are collected metrics, in the order of collection, none twice, timestamps nondecreasing. */
  lemma WireFollowsPushOrder(capacity: nat, events: seq<Event>)
    requires capacity >= 1 && NewAgent(capacity).Run(events).Some?
    ensures var a := NewAgent(capacity).Run(events).value;
            && Increasing(a.ledger.written)
            && |Frames(a)| == |a.ledger.written|
            && (forall k :: 0 <= k < |Frames(a)| ==>
                  && a.ledger.written[k] < |Collected(events)|
                  && Frames(a)[k] == Collected(events)[a.ledger.written[k]])
            && (forall j, k :: 0 <= j < k < |Frames(a)| ==> Frames(a)[j].timestamp <= Frames(a)[k].timestamp)
  {
    var a := NewAgent(capacity).Run(events).value;
    var pushed, written := a.ledger.queue.pushed, a.ledger.written;
    PushesWhatWasCollected(capacity, events);
    forall j, k | 0 <= j < k < |Frames(a)|
      ensures Frames(a)[j].timestamp <= Frames(a)[k].timestamp
    {
      assert written[j] < written[k] < |pushed|;
    }
  }

  // ---- What is pushed, from the events alone ----

  /** What the clock reads after `events`. */
  function Ticks(events: seq<Event>): nat {
    if events == [] then 0
    else Ticks(events[..|events| - 1]) + (if events[|events| - 1].ClockTicks? then 1 else 0)
  }

  predicate OfCollector(e: Event) {
    e.CollectionBegins? || e.CollectionPushes?
  }

  /** The time at which the last collection to begin began. */
  function LastBegin(events: seq<Event>): nat {
    if events == [] then 0
    else
      var before, last := events[..|events| - 1], events[|events| - 1];
      if last.CollectionBegins? then Ticks(before) else LastBegin(before)
  }

  /** A collection has begun and not yet pushed. */
  predicate UnderWay(events: seq<Event>) {
    && events != []
    && var last := events[|events| - 1];
    if OfCollector(last) then last.CollectionBegins? else UnderWay(events[..|events| - 1])
  }

  /** No push without a collection under way. */
  predicate Ordered(events: seq<Event>) {
    if events == [] then true
    else
      var before := events[..|events| - 1];
      Ordered(before) && (events[|events| - 1].CollectionPushes? ==> UnderWay(before))
  }

  /** `Connect` has started the collection loop. */
  predicate Started(events: seq<Event>) {
    && events != []
    && var last := events[|events| - 1];
    (last.Other? && last.e.ConnectSteps?) || Started(events[..|events| - 1])
  }

  /** One metric for each collection that came to its push: stamped when it began, with what it collected. */
  function Collected(events: seq<Event>): seq<Metric> {
    if events == [] then []
    else
      var before, last := events[..|events| - 1], events[|events| - 1];
      if last.CollectionPushes? then Collected(before) + [Metric(LastBegin(before), last.body)] else Collected(before)
  }

  /** The state a run leaves, as far as it concerns collecting, is that of its events. */
  ghost predicate Records(a: Agent, events: seq<Event>) {
    && a.ledger.queue.capacity >= 1
    && a.clock == Ticks(events)
    && (a.collector.Collecting? <==> UnderWay(events))
    && (a.collector.Collecting? ==> a.collector.timestamp == LastBegin(events))
    && (a.collector.Unborn? <==> !Started(events))
    && a.ledger.queue.pushed == Collected(events)
    && Ordered(events)
  }

  /** Only a push extends the history, and it always does. */
  lemma StepRecords(a: Agent, next: Agent, events: seq<Event>)
    requires events != [] && a.ledger.queue.WellFormed() && Records(a, events[..|events| - 1])
    requires a.Step(events[|events| - 1]) == Some(next)
    ensures Records(next, events)
  {
  }

  lemma LastStep(start: Agent, events: seq<Event>) returns (a: Agent)
    requires start.Inv() && events != [] && start.Run(events).Some?
    ensures start.Run(events[..|events| - 1]) == Some(a) && a.ledger.queue.WellFormed()
    ensures a.Step(events[|events| - 1]) == start.Run(events)
  {
    a := start.Run(events[..|events| - 1]).value;
  }

  lemma {:induction false} RunRecords(start: Agent, events: seq<Event>)
    requires start.Inv() && Records(start, []) && start.Run(events).Some?
    ensures Records(start.Run(events).value, events)
    decreases |events|
  {
    if events == [] {
    } else {
      var a := LastStep(start, events);
      RunRecords(start, events[..|events| - 1]);
      StepRecords(a, start.Run(events).value, events);
    }
  }

  lemma StartRecords(capacity: nat)
    requires capacity >= 1
    ensures Records(NewAgent(capacity), [])
  {
  }

  /** In every interleaving the push history is the one the events tell: nothing collected is lost before its push. */
  lemma PushesWhatWasCollected(capacity: nat, events: seq<Event>)
    requires capacity >= 1 && NewAgent(capacity).Run(events).Some?
    ensures NewAgent(capacity).Run(events).value.ledger.queue.pushed == Collected(events)
  {
    StartRecords(capacity);
    RunRecords(NewAgent(capacity), events);
  }

  function PushCount(events: seq<Event>): nat {
    if events == [] then 0
    else PushCount(events[..|events| - 1]) + (if events[|events| - 1].CollectionPushes? then 1 else 0)
  }

  /** The collection that pushes at `i` began at `j`. */
  ghost predicate BeganAt(events: seq<Event>, j: nat, i: nat) {
    && j < i < |events| && events[j].CollectionBegins? && events[i].CollectionPushes?
    && forall k :: j < k < i ==> !OfCollector(events[k])
  }

  /** Going back from where a collection is under way, one meets the event with which it began. */
  lemma {:induction false} FindBegin(events: seq<Event>) returns (j: nat)
    requires UnderWay(events)
    ensures j < |events| && events[j].CollectionBegins? && LastBegin(events) == Ticks(events[..j])
    ensures forall k :: j < k < |events| ==> !OfCollector(events[k])
  {
    var before := events[..|events| - 1];
    if events[|events| - 1].CollectionBegins? {
      j := |events| - 1;
    } else {
      j := FindBegin(before);
      assert before[..j] == events[..j];
    }
  }

  lemma {:induction false} CollectedAt(events: seq<Event>, i: nat)
    requires i < |events| && events[i].CollectionPushes?
    ensures |Collected(events)| == PushCount(events) > PushCount(events[..i])
    ensures Collected(events)[PushCount(events[..i])] == Metric(LastBegin(events[..i]), events[i].body)
    decreases |events|
  {
    var before := events[..|events| - 1];
    CollectedCount(before);
    if i < |before| {
      CollectedAt(before, i);
      assert before[..i] == events[..i];
    } else {
      assert before == events[..i];
    }
  }

  lemma {:induction false} CollectedCount(events: seq<Event>)
    ensures |Collected(events)| == PushCount(events)
  {
    if events != [] {
      CollectedCount(events[..|events| - 1]);
    }
  }

  /** In a history, each push has its entry, stamped with the time at which its collection began. */
  lemma EachHasItsEntry(events: seq<Event>, i: nat) returns (j: nat)
    requires i < |events| && events[i].CollectionPushes? && UnderWay(events[..i])
    ensures |Collected(events)| == PushCount(events) > PushCount(events[..i])
    ensures BeganAt(events, j, i)
    ensures Collected(events)[PushCount(events[..i])] == Metric(Ticks(events[..j]), events[i].body)
  {
    CollectedAt(events, i);
    j := FindBegin(events[..i]);
    assert events[..i][..j] == events[..j];
    assert forall k :: 0 <= k < i ==> events[..i][k] == events[k];
  }

  lemma {:induction false} UnderWayAtPush(events: seq<Event>, i: nat)
    requires Ordered(events) && i < |events| && events[i].CollectionPushes?
    ensures UnderWay(events[..i])
  {
    var before := events[..|events| - 1];
    if i < |before| {
      UnderWayAtPush(before, i);
      assert before[..i] == events[..i];
    } else {
      assert before == events[..i];
    }
  }

  /**
   Event by event: the n-th push of a run is the n-th entry of the history, with the body it was given and, as
   timestamp, the number of clock ticks before the event with which its collection began; there are no others.
   */
  lemma EachCollectionIsPushed(capacity: nat, events: seq<Event>, i: nat) returns (j: nat)
    requires capacity >= 1 && NewAgent(capacity).Run(events).Some?
    requires i < |events| && events[i].CollectionPushes?
    ensures BeganAt(events, j, i)
    ensures var pushed := NewAgent(capacity).Run(events).value.ledger.queue.pushed;
            && |pushed| == PushCount(events) > PushCount(events[..i])
            && pushed[PushCount(events[..i])] == Metric(Ticks(events[..j]), events[i].body)
  {
    StartRecords(capacity);
    RunRecords(NewAgent(capacity), events);
    UnderWayAtPush(events, i);
    j := EachHasItsEntry(events, i);
    PushesWhatWasCollected(capacity, events);
  }

  /**
   Collecting waits for nothing but itself: while the process lives the clock can always tick, a collection can
   begin just when the loop has been started and none is under way, and it can push just when one is.
   */
  lemma CollectingIsNeverBlocked(capacity: nat, events: seq<Event>, body: nat)
    requires capacity >= 1 && NewAgent(capacity).Run(events).Some?
    requires !NewAgent(capacity).Run(events).value.session.crashed
    ensures var a := NewAgent(capacity).Run(events).value;
            && a.Step(ClockTicks).Some?
            && (a.Step(CollectionBegins).Some? <==> Started(events) && !UnderWay(events))
            && (a.Step(CollectionPushes(body)).Some? <==> UnderWay(events))
  {
    StartRecords(capacity);
    RunRecords(NewAgent(capacity), events);
  }

  lemma Extend(start: Agent, events: seq<Event>, a: Agent, e: Event) returns (more: seq<Event>, next: Agent)
    requires start.Inv() && start.Run(events) == Some(a) && a.Step(e).Some?
    ensures more == events + [e] && start.Run(more) == Some(next) && Some(next) == a.Step(e)
  {
    more, next := events + [e], a.Step(e).value;
    assert more[..|more| - 1] == events;
  }

  lemma ConnectedAgent(capacity: nat) returns (events: seq<Event>, a: Agent)
    requires capacity >= 1
    ensures NewAgent(capacity).Run(events) == Some(a)
    ensures a == NewAgent(capacity).(collector := AwaitingTick, session := ConnectedUpTo(7))
  {
    var start := NewAgent(capacity);
    events, a := [], start;
    for k := 0 to 7
      invariant start.Run(events) == Some(a)
      invariant a == start.(collector := if k >= 1 then AwaitingTick else Unborn, session := ConnectedUpTo(k))
    {
      ConnectsFurther(k);
      events, a := Extend(start, events, a, Other(S.ConnectSteps(true)));
    }
  }

  lemma ConnectsFurther(k: nat)
    requires k < 7
    ensures ConnectedUpTo(k).Step(S.ConnectSteps(true)) == Some(ConnectedUpTo(k + 1))
  {
  }

  /** A whole way of one metric from there: collect it one tick later, pop, check, write. */
  function WayEvent(body: nat, k: nat): Event {
    match k
    case 0 => ClockTicks
    case 1 => CollectionBegins
    case 2 => CollectionPushes(body)
    case 3 => Other(S.SenderTick)
    case 4 => SenderTryPops
    case 5 => Other(S.SenderChecks)
    case _ => Other(S.SenderWrites(true))
  }

  function WayAt(capacity: nat, body: nat, k: nat): Agent {
    var none, one := EmptyQueue<Metric>(capacity), EmptyQueue<Metric>(capacity).(pushed := [Metric(1, body)]);
    var taken, connected := one.(popped := [0]), ConnectedUpTo(7);
    match k
    case 0 => Agent(0, AwaitingTick, Ledger(none, None, [], []), connected)
    case 1 => Agent(1, AwaitingTick, Ledger(none, None, [], []), connected)
    case 2 => Agent(1, Collecting(1), Ledger(none, None, [], []), connected)
    case 3 => Agent(1, AwaitingTick, Ledger(one, None, [], []), connected)
    case 4 => Agent(1, AwaitingTick, Ledger(one, None, [], []), connected.(sender := S.Popping))
    case 5 => Agent(1, AwaitingTick, Ledger(taken, Some(0), [], []), connected.(sender := S.Checking))
    case 6 => Agent(1, AwaitingTick, Ledger(taken, Some(0), [], []), connected.(sender := S.Cleared))
    case _ => Agent(1, AwaitingTick, Ledger(taken, None, [0], []), connected)
  }

  lemma WayLeadsOn(capacity: nat, body: nat, k: nat)
    requires capacity >= 1 && k < 7
    ensures WayAt(capacity, body, k).ledger.queue.WellFormed()
    ensures WayAt(capacity, body, k).Step(WayEvent(body, k)) == Some(WayAt(capacity, body, k + 1))
  {
    match k
    case 2 => assert [] + [Metric(1, body)] == [Metric(1, body)];
    case 4 =>
      assert WayAt(capacity, body, k).ledger.queue.Window() == [Metric(1, body)];
      assert [] + [0] == [0];
    case 6 => assert [] + [0] == [0];
    case _ =>
  }

  lemma MetricCanReachTheWire(capacity: nat, body: nat) returns (events: seq<Event>)
    requires capacity >= 1
    ensures NewAgent(capacity).Run(events).Some?
    ensures Frames(NewAgent(capacity).Run(events).value) == [Metric(1, body)]
  {
    var start, a := NewAgent(capacity), WayAt(capacity, body, 0);
    events, a := ConnectedAgent(capacity);
    for k := 0 to 7
      invariant start.Run(events) == Some(a) && a == WayAt(capacity, body, k)
    {
      WayLeadsOn(capacity, body, k);
      events, a := Extend(start, events, a, WayEvent(body, k));
    }
  }

  function ConnectedUpTo(k: nat): S.Session {
    S.NewSession().(main := S.ConnectPcAt(k), hasConn := k >= 2, isConnected := k >= 3,
                    receiver := if k >= 4 then S.Polling else S.ReceiverUnborn, running := k >= 6,
                    sender := if k >= 7 then S.Selecting else S.SenderUnborn, sendLoops := if k >= 7 then 1 else 0)
  }

  /** What may still reach the wire once a Disconnect has returned: the send that was past its check. */
  ghost predicate OnlyTheLateSend(start: Agent, end: Agent) {
    && end.session.returned != {}
    && (|| (&& end.ledger.written == start.ledger.written
            && (end.session.sender == S.Cleared ==>
                  start.session.sender == S.Cleared && end.ledger.hand == start.ledger.hand))
        || (&& start.session.sender == S.Cleared && start.ledger.hand.Some?
            && end.ledger.written == start.ledger.written + [start.ledger.hand.value]
            && end.session.sender != S.Cleared))
  }

  lemma SessionStepAfterDisconnect(start: Agent, a: Agent, e: S.Event)
    requires start.Inv() && a.Inv() && OnlyTheLateSend(start, a) && a.Step(Other(e)).Some?
    ensures OnlyTheLateSend(start, a.Step(Other(e)).value)
  {
    var next := a.Step(Other(e)).value;
    SenderMoves(a.session, e);
    ReturnedStays(a.session, e);
    assert e.SenderChecks? ==> !a.session.isConnected;
  }

  lemma ReturnedStays(s: S.Session, e: S.Event)
    requires s.Step(e).Some?
    ensures s.returned <= s.Step(e).value.returned
  {
    match e
    case ConnectSteps(_) =>
    case ReceiverSteps(readOk) => S.ReceiverMovesAlone(s, readOk);
    case DisconnectSteps => S.DisconnectOnlyLowers(s);
    case DisconnectEnters(_) =>
    case _ => S.SenderMovesAlone(s, e);
  }

  lemma StepAfterDisconnect(start: Agent, a: Agent, e: Event)
    requires start.Inv() && a.Inv() && OnlyTheLateSend(start, a) && a.Step(e).Some?
    ensures OnlyTheLateSend(start, a.Step(e).value)
  {
    match e
    case SenderTryPops => SenderMoves(a.session, S.SenderPops(a.ledger.queue.Window() != []));
    case Other(e) => SessionStepAfterDisconnect(start, a, e);
    case _ =>
  }

  /**
   After any `Disconnect` has returned, the metrics written are those written before, plus at most
   the one whose send was already past its connection check, for every continuation of the run.
   */
  lemma {:induction false} NothingNewIsSentAfterDisconnect(a: Agent, events: seq<Event>)
    requires a.Inv() && a.session.returned != {} && a.Run(events).Some?
    ensures OnlyTheLateSend(a, a.Run(events).value)
    decreases |events|
  {
    if events == [] {
    } else {
      NothingNewIsSentAfterDisconnect(a, events[..|events| - 1]);
      StepAfterDisconnect(a, a.Run(events[..|events| - 1]).value, events[|events| - 1]);
    }
  }
}
