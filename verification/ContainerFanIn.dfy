/**
 `collectContainerMetrics`: one worker per container sends its metric on a channel of that
 capacity; a closer closes the channel after the WaitGroup; the caller drains it.
 */
module ContainerFanIn {
  import opened Sequences
  import opened Wrappers

  /** What the listing says of a container; `id` as its bytes. */
  datatype Container = Container(id: string, names: seq<string>)

  /** The four fallible steps for one container; `detailsSet`: no pointer followed in the details is nil. */
  datatype Attempt<M> = InspectFails | StatsFails | BodyFails | ParseFails | Succeeds(detailsSet: bool, metric: M)

  /** What they come to: a warning only, a metric, or a panic of the worker. */
  datatype Outcome<M> = Skipped | Measured(metric: M) | Panicked

  const SHOWN_ID: nat := 12

  /** The metric takes the first name; a warning shows the first twelve bytes of the ID. */
  function OutcomeOf<M>(c: Container, attempt: Attempt<M>): Outcome<M> {
    match attempt
    case Succeeds(detailsSet, metric) => if c.names != [] && detailsSet then Measured(metric) else Panicked
    case _ => if |c.id| >= SHOWN_ID then Skipped else Panicked
  }

  /** A worker that panics runs its deferred `wg.Done()` first, and then ends the process. */
  datatype WorkerPc = Unspawned | Working | Sending | Finishing | Finished | Unwinding | Dying | Dead

  datatype CloserPc = NotStarted | Waiting | Closed

  datatype Event = Spawn | Work(worker: nat) | Send(worker: nat) | Done(worker: nat) | Die(worker: nat)
                 | StartCloser | Close | Receive | Return

  /** The channel holds, and the caller receives, the metric of the worker whose number is recorded. */
  datatype FanIn<M> = FanIn(
    workers: seq<WorkerPc>,
    spawned: nat,
    counter: int,       // the WaitGroup
    channel: seq<nat>,
    closer: CloserPc,
    received: seq<nat>,
    returned: bool,
    crashed: bool)
  {
    /** `None` when the event is not possible: a send on a full channel blocks, and nothing runs after a crash. */
    function Step(outcomes: seq<Outcome<M>>, e: Event): Option<FanIn<M>>
      requires |workers| == |outcomes|
    {
      if crashed then None else Access(outcomes, e)
    }

    function Access(outcomes: seq<Outcome<M>>, e: Event): Option<FanIn<M>>
      requires |workers| == |outcomes|
    {
      match e
      case Spawn =>
        if spawned < |workers| && workers[spawned] == Unspawned then
          Some(this.(workers := workers[spawned := Working], spawned := spawned + 1, counter := counter + 1))
        else None
      case Work(i) =>
        if i < |workers| && workers[i] == Working then
          Some(this.(workers := workers[i := AfterSteps(outcomes[i])]))
        else None
      case Send(i) =>
        if i < |workers| && workers[i] == Sending && |channel| < |workers| && closer != Closed then
          Some(this.(workers := workers[i := Finishing], channel := channel + [i]))
        else None
      case Done(i) =>
        if i < |workers| && Deferring(workers[i]) then
          Some(this.(workers := workers[i := AfterDone(workers[i])], counter := counter - 1))
        else None
      case Die(i) =>
        if i < |workers| && workers[i] == Dying then
          Some(this.(workers := workers[i := Dead], crashed := true))
        else None
      case StartCloser =>
        if spawned == |workers| && closer == NotStarted then Some(this.(closer := Waiting)) else None
      case Close => if closer == Waiting && counter == 0 then Some(this.(closer := Closed)) else None
      case Receive =>
        if closer != NotStarted && channel != [] && !returned then
          Some(this.(channel := channel[1..], received := received + [channel[0]]))
        else None
      case Return => if closer == Closed && channel == [] && !returned then Some(this.(returned := true)) else None
    }

    function Run(outcomes: seq<Outcome<M>>, events: seq<Event>): (r: Option<FanIn<M>>)
      requires |workers| == |outcomes|
      ensures r.Some? ==> |r.value.workers| == |outcomes|
      decreases |events|
    {
      if events == [] then Some(this)
      else
        match Run(outcomes, events[..|events| - 1])
        case None => None
        case Some(before) => before.Step(outcomes, events[|events| - 1])
    }

    predicate HasSent(outcomes: seq<Outcome<M>>, i: nat)
      requires |workers| == |outcomes| && i < |workers|
    {
      outcomes[i].Measured? && (workers[i] == Finishing || workers[i] == Finished)
    }

    /** The workers heard from, in the order of their sends. */
    function Heard(): seq<nat> {
      received + channel
    }

    ghost predicate ChannelInv(outcomes: seq<Outcome<M>>) {
      && |workers| == |outcomes|
      && NoRepeats(Heard())
      && (forall i :: i in Heard() <==> 0 <= i < |workers| && HasSent(outcomes, i))
    }

    ghost predicate WorkerInv(outcomes: seq<Outcome<M>>) {
      && InPlace(workers, spawned, counter, outcomes)
      && (closer != NotStarted ==> spawned == |workers|)
      && (closer == Closed ==> counter == 0)
      && (returned ==> closer == Closed && channel == [])
      && CrashInv()
    }

    ghost predicate CrashInv() {
      crashed <==> exists i :: 0 <= i < |workers| && workers[i] == Dead
    }

    ghost predicate Inv(outcomes: seq<Outcome<M>>) {
      ChannelInv(outcomes) && WorkerInv(outcomes)
    }
  }

  function Start<M>(n: nat): FanIn<M> {
    FanIn(seq(n, _ => Unspawned), 0, 0, [], NotStarted, [], false, false)
  }

  function AfterSteps<M>(outcome: Outcome<M>): WorkerPc {
    match outcome
    case Skipped => Finishing
    case Measured(_) => Sending
    case Panicked => Unwinding
  }

  /** Next is the deferred `wg.Done()`. */
  predicate Deferring(pc: WorkerPc) {
    pc == Finishing || pc == Unwinding
  }

  function AfterDone(pc: WorkerPc): WorkerPc {
    if pc == Unwinding then Dying else Finished
  }

  /** Where a worker with this outcome can be. */
  predicate Possible<M>(outcome: Outcome<M>, pc: WorkerPc) {
    match pc
    case Unspawned => true
    case Working => true
    case Sending => outcome.Measured?
    case Finishing => !outcome.Panicked?
    case Finished => !outcome.Panicked?
    case _ => outcome.Panicked?
  }

  /** Workers spawned and not finished. */
  function Active(workers: seq<WorkerPc>): nat {
    if workers == [] then 0 else Weight(workers[0]) + Active(workers[1..])
  }

  function Weight(pc: WorkerPc): nat {
    if pc == Working || pc == Sending || Deferring(pc) then 1 else 0
  }

  /** The workers spawned are where their outcomes allow, and the counter counts those under way. */
  ghost predicate InPlace<M>(workers: seq<WorkerPc>, spawned: nat, counter: int, outcomes: seq<Outcome<M>>) {
    && |workers| == |outcomes|
    && spawned <= |workers|
    && (forall i :: 0 <= i < |workers| ==> (workers[i] == Unspawned <==> spawned <= i))
    && (forall i :: 0 <= i < |workers| ==> Possible(outcomes[i], workers[i]))
    && counter == Active(workers)
  }

  lemma {:induction false} ActiveUpdate(workers: seq<WorkerPc>, i: nat, pc: WorkerPc)
    requires i < |workers|
    ensures Active(workers[i := pc]) == Active(workers) - Weight(workers[i]) + Weight(pc)
  {
    if i == 0 {
      assert workers[0 := pc][1..] == workers[1..];
    } else {
      ActiveUpdate(workers[1..], i - 1, pc);
      assert workers[i := pc][1..] == workers[1..][i - 1 := pc];
    }
  }

  lemma {:induction false} NoneActive(workers: seq<WorkerPc>, i: nat)
    requires i < |workers|
    ensures Active(workers) == 0 ==> Weight(workers[i]) == 0
  {
    if i == 0 {
    } else {
      NoneActive(workers[1..], i - 1);
    }
  }

  lemma StepKeepsChannel<M>(f: FanIn<M>, outcomes: seq<Outcome<M>>, e: Event)
    requires f.Inv(outcomes) && f.Step(outcomes, e).Some?
    ensures f.Step(outcomes, e).value.ChannelInv(outcomes)
  {
    var next := f.Step(outcomes, e).value;
    if e.Send? {
      SendKeepsChannel(f, outcomes, e.worker);
    } else {
      assert next.Heard() == f.Heard();
    }
  }

  lemma SendKeepsChannel<M>(f: FanIn<M>, outcomes: seq<Outcome<M>>, i: nat)
    requires f.Inv(outcomes) && f.Step(outcomes, Send(i)).Some?
    ensures f.Step(outcomes, Send(i)).value.ChannelInv(outcomes)
  {
    var next := f.Step(outcomes, Send(i)).value;
    assert next.Heard() == f.Heard() + [i];
    assert i !in f.Heard();
    assert forall j :: j in next.Heard() <==> j in f.Heard() || j == i;
  }

  /** The worker is spawned, or goes on to a place its outcome allows. */
  lemma MoveKeepsPlaces<M>(workers: seq<WorkerPc>, spawned: nat, counter: int, outcomes: seq<Outcome<M>>,
                           i: nat, pc: WorkerPc)
    requires InPlace(workers, spawned, counter, outcomes)
    requires i <= spawned && i < |outcomes| && pc != Unspawned && Possible(outcomes[i], pc)
    ensures InPlace(workers[i := pc], if i == spawned then i + 1 else spawned,
                    counter - Weight(workers[i]) + Weight(pc), outcomes)
  {
    ActiveUpdate(workers, i, pc);
  }

  lemma StepKeepsPlaces<M>(f: FanIn<M>, outcomes: seq<Outcome<M>>, e: Event)
    requires InPlace(f.workers, f.spawned, f.counter, outcomes) && f.Step(outcomes, e).Some?
    ensures var next := f.Step(outcomes, e).value; InPlace(next.workers, next.spawned, next.counter, outcomes)
  {
    match e
    case Spawn => MoveKeepsPlaces(f.workers, f.spawned, f.counter, outcomes, f.spawned, Working);
    case Work(i) =>
      var pc := AfterSteps(outcomes[i]);
      assert Possible(outcomes[i], pc) && Weight(pc) == 1;
      MoveKeepsPlaces(f.workers, f.spawned, f.counter, outcomes, i, pc);
    case Send(i) => MoveKeepsPlaces(f.workers, f.spawned, f.counter, outcomes, i, Finishing);
    case Done(i) =>
      var pc := AfterDone(f.workers[i]);
      assert Possible(outcomes[i], pc) && Weight(pc) == 0;
      MoveKeepsPlaces(f.workers, f.spawned, f.counter, outcomes, i, pc);
    case Die(i) => MoveKeepsPlaces(f.workers, f.spawned, f.counter, outcomes, i, Dead);
    case _ =>
  }

  /** The process has crashed just when a worker is dead. */
  lemma StepKeepsCrash<M>(f: FanIn<M>, outcomes: seq<Outcome<M>>, e: Event)
    requires f.CrashInv() && |f.workers| == |outcomes| && f.Step(outcomes, e).Some?
    ensures f.Step(outcomes, e).value.CrashInv()
  {
    var next := f.Step(outcomes, e).value;
    if next.crashed {
      assert next.workers[e.worker] == Dead;
    } else {
      assert forall i :: 0 <= i < |f.workers| ==> next.workers[i] == Dead ==> f.workers[i] == Dead;
    }
  }

  lemma StepKeepsWorkers<M>(f: FanIn<M>, outcomes: seq<Outcome<M>>, e: Event)
    requires f.Inv(outcomes) && f.Step(outcomes, e).Some?
    ensures f.Step(outcomes, e).value.WorkerInv(outcomes)
  {
    StepKeepsPlaces(f, outcomes, e);
    StepKeepsCrash(f, outcomes, e);
    if e.Spawn? || e.Work? || e.Send? || e.Done? {
      // Some worker is not finished, so nobody has closed the channel.
      var i := if e.Spawn? then f.spawned else e.worker;
      NoneActive(f.workers, i);
    }
  }

  lemma {:induction false} RunKeepsInv<M>(outcomes: seq<Outcome<M>>, events: seq<Event>)
    requires Start<M>(|outcomes|).Run(outcomes, events).Some?
    ensures Start<M>(|outcomes|).Run(outcomes, events).value.Inv(outcomes)
    decreases |events|
  {
    if events == [] {
      AllUnspawned(|outcomes|);
    } else {
      RunKeepsInv(outcomes, events[..|events| - 1]);
      var before := Start<M>(|outcomes|).Run(outcomes, events[..|events| - 1]).value;
      StepKeepsChannel(before, outcomes, events[|events| - 1]);
      StepKeepsWorkers(before, outcomes, events[|events| - 1]);
    }
  }

  lemma {:induction false} AllUnspawned(n: nat)
    ensures Active(seq(n, _ => Unspawned)) == 0
  {
    if n == 0 {
    } else {
      AllUnspawned(n - 1);
      assert seq(n, _ => Unspawned)[1..] == seq(n - 1, _ => Unspawned);
    }
  }

  // ---- No worker blocks, and none sends on the closed channel ----

  /** In every run of the process, a worker ready to send can do so at once: the channel has room and is open. */
  lemma SendNeverBlocks<M>(outcomes: seq<Outcome<M>>, events: seq<Event>, i: nat)
    requires Start<M>(|outcomes|).Run(outcomes, events).Some? && i < |outcomes|
    ensures var f := Start<M>(|outcomes|).Run(outcomes, events).value;
            f.workers[i] == Sending && !f.crashed ==> f.Step(outcomes, Send(i)).Some?
  {
    RunKeepsInv(outcomes, events);
    var f := Start<M>(|outcomes|).Run(outcomes, events).value;
    if f.workers[i] == Sending {
      assert forall k :: 0 <= k < |f.Heard()| ==> f.Heard()[k] in f.Heard();
      RoomForOneMore(f.Heard(), |outcomes|, i);
      NoneActive(f.workers, i);
    }
  }

  // ---- The drain loop ends ----

  function Remaining(workers: seq<WorkerPc>): nat {
    if workers == [] then 0
    else
      Remaining(workers[1..]) + Cost(workers[0])
  }

  function Cost(pc: WorkerPc): nat {
    match pc
    case Unspawned => 5
    case Working => 4
    case Sending => 3
    case Finishing => 1
    case Finished => 0
    case Unwinding => 2
    case Dying => 1
    case Dead => 0
  }

  lemma {:induction false} RemainingUpdate(workers: seq<WorkerPc>, i: nat, pc: WorkerPc)
    requires i < |workers|
    ensures Remaining(workers[i := pc]) == Remaining(workers) - Cost(workers[i]) + Cost(pc)
  {
    if i == 0 {
      assert workers[0 := pc][1..] == workers[1..];
    } else {
      RemainingUpdate(workers[1..], i - 1, pc);
      assert workers[i := pc][1..] == workers[1..][i - 1 := pc];
    }
  }

  /** An upper bound on the events still to come. */
  function Measure<M>(f: FanIn<M>): nat {
    Remaining(f.workers) + |f.channel| + (if f.returned then 0 else 1)
    + (match f.closer case NotStarted => 2 case Waiting => 1 case Closed => 0)
  }

  lemma StepDecreases<M>(f: FanIn<M>, outcomes: seq<Outcome<M>>, e: Event)
    requires |f.workers| == |outcomes| && f.Step(outcomes, e).Some?
    ensures Measure(f.Step(outcomes, e).value) < Measure(f)
  {
    match e
    case Spawn => RemainingUpdate(f.workers, f.spawned, Working);
    case Work(i) => RemainingUpdate(f.workers, i, AfterSteps(outcomes[i]));
    case Send(i) => RemainingUpdate(f.workers, i, Finishing);
    case Done(i) => RemainingUpdate(f.workers, i, AfterDone(f.workers[i]));
    case Die(i) => RemainingUpdate(f.workers, i, Dead);
    case _ =>
  }

  lemma {:induction false} FindActive(workers: seq<WorkerPc>) returns (i: nat)
    requires Active(workers) > 0
    ensures i < |workers| && Weight(workers[i]) == 1
  {
    if Weight(workers[0]) == 1 {
      i := 0;
    } else {
      i := FindActive(workers[1..]);
      i := i + 1;
    }
  }

  /** Until the caller has returned or the process is dead, some goroutine can move. */
  lemma NeverStuck<M>(f: FanIn<M>, outcomes: seq<Outcome<M>>) returns (e: Event)
    requires f.Inv(outcomes) && !f.returned && !f.crashed
    ensures f.Step(outcomes, e).Some?
  {
    if f.spawned < |f.workers| {
      e := Spawn;
    } else if f.closer == NotStarted {
      e := StartCloser;
    } else if f.channel != [] {
      e := Receive;
    } else if f.counter == 0 {
      e := if f.closer == Waiting then Close else Return;
    } else {
      var i := FindActive(f.workers);
      e := if f.workers[i] == Working then Work(i) else if f.workers[i] == Sending then Send(i) else Done(i);
    }
  }

  lemma {:induction false} StartMeasure<M>(n: nat)
    ensures Measure(Start<M>(n)) == 5 * n + 3
  {
    var workers := seq(n, _ => Unspawned);
    if n == 0 {
    } else {
      StartMeasure<M>(n - 1);
      assert workers[1..] == seq(n - 1, _ => Unspawned);
    }
  }

  lemma {:induction false} RunConsumesMeasure<M>(outcomes: seq<Outcome<M>>, events: seq<Event>)
    requires Start<M>(|outcomes|).Run(outcomes, events).Some?
    ensures |events| + Measure(Start<M>(|outcomes|).Run(outcomes, events).value) <= Measure(Start<M>(|outcomes|))
    decreases |events|
  {
    if events == [] {
    } else {
      RunConsumesMeasure(outcomes, events[..|events| - 1]);
      StepDecreases(Start<M>(|outcomes|).Run(outcomes, events[..|events| - 1]).value, outcomes, events[|events| - 1]);
    }
  }

  /** No interleaving is longer than 5n + 3 events, and none stops before the caller has returned or the crash. */
  lemma DrainTerminates<M>(outcomes: seq<Outcome<M>>, events: seq<Event>)
    requires Start<M>(|outcomes|).Run(outcomes, events).Some?
    ensures |events| <= 5 * |outcomes| + 3
    ensures var f := Start<M>(|outcomes|).Run(outcomes, events).value;
            f.returned || f.crashed || exists e :: f.Step(outcomes, e).Some?
  {
    RunConsumesMeasure(outcomes, events);
    StartMeasure<M>(|outcomes|);
    RunKeepsInv(outcomes, events);
    var f := Start<M>(|outcomes|).Run(outcomes, events).value;
    if !f.returned && !f.crashed {
      var e := NeverStuck(f, outcomes);
    }
  }

  // ---- The exact crash condition ----

  /** No goroutine can move any more. */
  ghost predicate AtRest<M>(f: FanIn<M>, outcomes: seq<Outcome<M>>)
    requires |f.workers| == |outcomes|
  {
    forall e :: f.Step(outcomes, e).None?
  }

  lemma RestingCrash<M>(f: FanIn<M>, outcomes: seq<Outcome<M>>)
    requires f.Inv(outcomes) && AtRest(f, outcomes)
    ensures f.crashed || f.returned
    ensures f.crashed <==> exists i :: 0 <= i < |outcomes| && outcomes[i].Panicked?
  {
    if f.crashed {
      var i :| 0 <= i < |f.workers| && f.workers[i] == Dead;
      assert Possible(outcomes[i], f.workers[i]);
    } else {
      if !f.returned {
        var e := NeverStuck(f, outcomes);
      }
      forall i | 0 <= i < |outcomes| ensures !outcomes[i].Panicked? {
        NoneActive(f.workers, i);
        assert f.Step(outcomes, Die(i)).None?;
        assert Possible(outcomes[i], f.workers[i]);
      }
    }
  }

  function OutcomesOf<M>(containers: seq<Container>, attempts: seq<Attempt<M>>): (outcomes: seq<Outcome<M>>)
    requires |containers| == |attempts|
    ensures |outcomes| == |containers|
    ensures forall i :: 0 <= i < |outcomes| ==> outcomes[i] == OutcomeOf(containers[i], attempts[i])
  {
    seq(|containers|, i requires 0 <= i < |containers| => OutcomeOf(containers[i], attempts[i]))
  }

  /** Measured without a name or with missing details, or failed with an ID too short for the warning. */
  predicate Deadly<M>(c: Container, attempt: Attempt<M>) {
    if attempt.Succeeds? then c.names == [] || !attempt.detailsSet else |c.id| < 12
  }

  /**
   Whatever the interleaving, a call that has come to rest has crashed the process exactly if some container was
   deadly: the deferred calls of a dying worker may let the caller return first, but they save nobody.
   */
  lemma CrashesExactly<M>(containers: seq<Container>, attempts: seq<Attempt<M>>, events: seq<Event>)
    requires |containers| == |attempts|
    requires var outcomes := OutcomesOf(containers, attempts);
             && Start<M>(|outcomes|).Run(outcomes, events).Some?
             && AtRest(Start<M>(|outcomes|).Run(outcomes, events).value, outcomes)
    ensures var f := Start<M>(|containers|).Run(OutcomesOf(containers, attempts), events).value;
            && (f.crashed <==> exists i :: 0 <= i < |containers| && Deadly(containers[i], attempts[i]))
            && (f.crashed || f.returned)
  {
    var outcomes := OutcomesOf(containers, attempts);
    RunKeepsInv(outcomes, events);
    RestingCrash(Start<M>(|outcomes|).Run(outcomes, events).value, outcomes);
    assert forall i :: 0 <= i < |containers| ==> (outcomes[i].Panicked? <==> Deadly(containers[i], attempts[i]));
  }

  // ---- The result ----

  ghost predicate AllMeasured<M>(outcomes: seq<Outcome<M>>, workers: seq<nat>) {
    forall k :: 0 <= k < |workers| ==> workers[k] < |outcomes| && outcomes[workers[k]].Measured?
  }

  /** What the drain loop appends. */
  function Metrics<M>(outcomes: seq<Outcome<M>>, workers: seq<nat>): seq<M>
    requires AllMeasured(outcomes, workers)
  {
    if workers == [] then []
    else Metrics(outcomes, workers[..|workers| - 1]) + [outcomes[workers[|workers| - 1]].metric]
  }

  /** The metrics of the containers whose steps all succeeded. */
  function Measurements<M>(outcomes: seq<Outcome<M>>): multiset<M> {
    if outcomes == [] then multiset{}
    else
      var last := outcomes[|outcomes| - 1];
      Measurements(outcomes[..|outcomes| - 1]) + (if last.Measured? then multiset{last.metric} else multiset{})
  }

  function Bag<M>(outcomes: seq<Outcome<M>>, workers: seq<nat>): multiset<M>
    requires AllMeasured(outcomes, workers)
  {
    if workers == [] then multiset{}
    else Bag(outcomes, workers[..|workers| - 1]) + multiset{outcomes[workers[|workers| - 1]].metric}
  }

  lemma {:induction false} MetricsBag<M>(outcomes: seq<Outcome<M>>, workers: seq<nat>)
    requires AllMeasured(outcomes, workers)
    ensures multiset(Metrics(outcomes, workers)) == Bag(outcomes, workers)
  {
    if workers == [] {
    } else {
      MetricsBag(outcomes, workers[..|workers| - 1]);
    }
  }

  lemma BagSnoc<M>(outcomes: seq<Outcome<M>>, workers: seq<nat>, i: nat)
    requires AllMeasured(outcomes, workers) && i < |outcomes| && outcomes[i].Measured?
    ensures Bag(outcomes, workers + [i]) == Bag(outcomes, workers) + multiset{outcomes[i].metric}
  {
    assert (workers + [i])[..|workers + [i]| - 1] == workers;
  }

  lemma {:induction false} BagWithout<M>(outcomes: seq<Outcome<M>>, workers: seq<nat>, k: nat)
    requires k < |workers| && AllMeasured(outcomes, workers)
    ensures Bag(outcomes, workers) == Bag(outcomes, Without(workers, k)) + multiset{outcomes[workers[k]].metric}
  {
    var before, last := workers[..|workers| - 1], workers[|workers| - 1];
    if k == |workers| - 1 {
      assert Without(workers, k) == before;
    } else {
      BagWithout(outcomes, before, k);
      WithoutSnoc(workers, k);
      BagSnoc(outcomes, Without(before, k), last);
    }
  }

  lemma {:induction false} BagOfPrefix<M>(outcomes: seq<Outcome<M>>, n: nat, workers: seq<nat>)
    requires n <= |outcomes| && AllMeasured(outcomes[..n], workers) && AllMeasured(outcomes, workers)
    ensures Bag(outcomes[..n], workers) == Bag(outcomes, workers)
  {
    if workers == [] {
    } else {
      BagOfPrefix(outcomes, n, workers[..|workers| - 1]);
    }
  }

  lemma {:induction false} EachMeasuredOnce<M>(outcomes: seq<Outcome<M>>, workers: seq<nat>)
    requires NoRepeats(workers) && AllMeasured(outcomes, workers)
    requires forall i :: 0 <= i < |outcomes| && outcomes[i].Measured? ==> i in workers
    ensures Bag(outcomes, workers) == Measurements(outcomes)
    decreases |outcomes|
  {
    if outcomes == [] {
    } else {
      var n := |outcomes| - 1;
      if outcomes[n].Measured? {
        var k :| 0 <= k < |workers| && workers[k] == n;
        BagWithout(outcomes, workers, k);
        CoversPrefix(outcomes, workers, k);
        BagOfPrefix(outcomes, n, Without(workers, k));
        EachMeasuredOnce(outcomes[..n], Without(workers, k));
      } else {
        assert AllMeasured(outcomes[..n], workers);
        BagOfPrefix(outcomes, n, workers);
        EachMeasuredOnce(outcomes[..n], workers);
      }
    }
  }

  /** Without its last worker, a complete list is complete for the containers before the last. */
  lemma CoversPrefix<M>(outcomes: seq<Outcome<M>>, workers: seq<nat>, k: nat)
    requires outcomes != [] && NoRepeats(workers) && AllMeasured(outcomes, workers)
    requires forall i :: 0 <= i < |outcomes| && outcomes[i].Measured? ==> i in workers
    requires k < |workers| && workers[k] == |outcomes| - 1
    ensures var prefix := outcomes[..|outcomes| - 1];
            && NoRepeats(Without(workers, k)) && AllMeasured(prefix, Without(workers, k))
            && AllMeasured(outcomes, Without(workers, k))
            && forall i :: 0 <= i < |prefix| && prefix[i].Measured? ==> i in Without(workers, k)
  {
    ElementsWithout(workers, k);
    var rest := Without(workers, k);
    forall j | 0 <= j < |rest|
      ensures rest[j] < |outcomes| - 1 && outcomes[rest[j]].Measured?
    {
      assert rest[j] in Elements(rest);
    }
    forall i: nat | i < |outcomes| - 1 && outcomes[i].Measured?
      ensures i in rest
    {
      assert i in Elements(workers) - {workers[k]};
    }
  }

  lemma EverythingReceived<M>(f: FanIn<M>, outcomes: seq<Outcome<M>>)
    requires f.Inv(outcomes) && f.returned
    ensures AllMeasured(outcomes, f.received) && multiset(Metrics(outcomes, f.received)) == Measurements(outcomes)
  {
    assert f.Heard() == f.received;
    forall i | 0 <= i < |outcomes|
      ensures outcomes[i].Measured? ==> f.HasSent(outcomes, i)
    {
      NoneActive(f.workers, i);
      assert Possible(outcomes[i], f.workers[i]);
    }
    assert forall k :: 0 <= k < |f.received| ==> f.received[k] in f.received;
    EachMeasuredOnce(outcomes, f.received);
    MetricsBag(outcomes, f.received);
  }

  /** When the caller returns it has, up to order, exactly the metrics of the containers that were measured. */
  lemma ReturnsEveryMeasurement<M>(outcomes: seq<Outcome<M>>, events: seq<Event>)
    requires Start<M>(|outcomes|).Run(outcomes, events).Some?
    requires Start<M>(|outcomes|).Run(outcomes, events).value.returned
    ensures var f := Start<M>(|outcomes|).Run(outcomes, events).value;
            && AllMeasured(outcomes, f.received)
            && multiset(Metrics(outcomes, f.received)) == Measurements(outcomes)
  {
    RunKeepsInv(outcomes, events);
    EverythingReceived(Start<M>(|outcomes|).Run(outcomes, events).value, outcomes);
  }

  /** The metrics of the containers that have a name and for which every step succeeds. */
  function MetricsOf<M>(containers: seq<Container>, attempts: seq<Attempt<M>>): multiset<M>
    requires |containers| == |attempts|
  {
    if containers == [] then multiset{}
    else
      var n := |containers| - 1;
      MetricsOf(containers[..n], attempts[..n])
      + (if attempts[n].Succeeds? && attempts[n].detailsSet && containers[n].names != []
         then multiset{attempts[n].metric} else multiset{})
  }

  lemma {:induction false} MeasurementsOfContainers<M>(containers: seq<Container>, attempts: seq<Attempt<M>>)
    requires |containers| == |attempts|
    ensures Measurements(OutcomesOf(containers, attempts)) == MetricsOf(containers, attempts)
  {
    if containers != [] {
      var n := |containers| - 1;
      MeasurementsOfContainers(containers[..n], attempts[..n]);
      assert OutcomesOf(containers, attempts)[..n] == OutcomesOf(containers[..n], attempts[..n]);
    }
  }

  /** In terms of the listing and of what the four steps do for each container. */
  lemma ReturnsTheNamedContainers<M>(containers: seq<Container>, attempts: seq<Attempt<M>>, events: seq<Event>)
    requires |containers| == |attempts|
    requires var outcomes := OutcomesOf(containers, attempts);
             && Start<M>(|outcomes|).Run(outcomes, events).Some?
             && Start<M>(|outcomes|).Run(outcomes, events).value.returned
    ensures var outcomes := OutcomesOf(containers, attempts);
            var f := Start<M>(|outcomes|).Run(outcomes, events).value;
            && AllMeasured(outcomes, f.received)
            && multiset(Metrics(outcomes, f.received)) == MetricsOf(containers, attempts)
  {
    ReturnsEveryMeasurement(OutcomesOf(containers, attempts), events);
    MeasurementsOfContainers(containers, attempts);
  }

  // ---- The call itself, with its goroutines scheduled in any way ----

  lemma {:induction false} MetricsAt<M>(outcomes: seq<Outcome<M>>, workers: seq<nat>)
    requires AllMeasured(outcomes, workers)
    ensures |Metrics(outcomes, workers)| == |workers|
    ensures forall k :: 0 <= k < |workers| ==> Metrics(outcomes, workers)[k] == outcomes[workers[k]].metric
  {
    if workers == [] {
    } else {
      MetricsAt(outcomes, workers[..|workers| - 1]);
    }
  }

  /** Moving the first worker from one list to the end of the other moves its metric likewise. */
  lemma FirstMetric<M>(outcomes: seq<Outcome<M>>, received: seq<nat>, senders: seq<nat>)
    requires AllMeasured(outcomes, received) && AllMeasured(outcomes, senders) && senders != []
    ensures AllMeasured(outcomes, received + [senders[0]]) && AllMeasured(outcomes, senders[1..])
    ensures Metrics(outcomes, senders) != []
    ensures Metrics(outcomes, received + [senders[0]]) == Metrics(outcomes, received) + [Metrics(outcomes, senders)[0]]
    ensures Metrics(outcomes, senders[1..]) == Metrics(outcomes, senders)[1..]
  {
    MetricsAt(outcomes, senders);
    MetricsAt(outcomes, senders[1..]);
    assert (received + [senders[0]])[..|received|] == received;
  }

  class Collection<M> {
    const workers: array<WorkerPc>
    const outcomes: seq<Outcome<M>>
    var spawned: nat
    var counter: int
    var channel: seq<M>
    var closer: CloserPc
    var metrics: seq<M>
    var returned: bool
    var crashed: bool
    ghost var senders: seq<nat>   // who sent what is in the channel
    ghost var received: seq<nat>  // and what has been appended

    ghost function View(): FanIn<M>
      reads this, workers
    {
      FanIn(workers[..], spawned, counter, senders, closer, received, returned, crashed)
    }

    /** The channel and the result hold the metrics themselves. */
    ghost predicate Valid()
      reads this, workers
    {
      && workers.Length == |outcomes|
      && AllMeasured(outcomes, senders) && channel == Metrics(outcomes, senders)
      && AllMeasured(outcomes, received) && metrics == Metrics(outcomes, received)
    }

    constructor (outcomes: seq<Outcome<M>>)
      ensures Valid() && View() == Start(|outcomes|) && this.outcomes == outcomes && fresh(workers)
    {
      this.outcomes := outcomes;
      workers := new WorkerPc[|outcomes|](_ => Unspawned);
      spawned, counter, channel, closer, metrics, returned, crashed := 0, 0, [], NotStarted, [], false, false;
      senders, received := [], [];
    }

    /** One goroutine's next access. */
    method Turn(e: Event)
      requires Valid() && View().Step(outcomes, e).Some? && (e.Send? ==> outcomes[e.worker].Measured?)
      modifies this, workers
      ensures Valid() && View() == old(View()).Step(outcomes, e).value
    {
      match e {
        case StartCloser => closer := Waiting;
        case Close => closer := Closed;
        case Receive => ReceiveMetric();
        case Return => returned := true;
        case _ => WorkerTurn(e);
      }
    }

    /** A worker is spawned or goes on. */
    method WorkerTurn(e: Event)
      requires Valid() && View().Step(outcomes, e).Some? && (e.Send? ==> outcomes[e.worker].Measured?)
      requires e.Spawn? || e.Work? || e.Send? || e.Done? || e.Die?
      modifies this, workers
      ensures Valid() && View() == old(View()).Step(outcomes, e).value
    {
      match e {
        case Spawn =>
          MoveWorker(spawned, Working);
          spawned, counter := spawned + 1, counter + 1;
        case Work(i) => MoveWorker(i, AfterSteps(outcomes[i]));
        case Send(i) => SendMetric(i);
        case Done(i) =>
          MoveWorker(i, AfterDone(workers[i]));
          counter := counter - 1;
        case Die(i) =>
          MoveWorker(i, Dead);
          crashed := true;
      }
    }

    method MoveWorker(i: nat, pc: WorkerPc)
      requires i < workers.Length
      modifies workers
      ensures workers[..] == old(workers[..])[i := pc]
    {
      workers[i] := pc;
    }

    method SendMetric(i: nat)
      requires Valid() && i < |outcomes| && outcomes[i].Measured?
      modifies this`channel, this`senders, workers
      ensures Valid() && workers[..] == old(workers[..])[i := Finishing] && senders == old(senders) + [i]
    {
      MoveWorker(i, Finishing);
      channel := channel + [outcomes[i].metric];
      assert (senders + [i])[..|senders|] == senders;
      senders := senders + [i];
    }

    method ReceiveMetric()
      requires Valid() && senders != []
      modifies this`channel, this`senders, this`metrics, this`received
      ensures Valid() && senders == old(senders)[1..] && received == old(received) + [old(senders)[0]]
    {
      FirstMetric(outcomes, received, senders);
      metrics, channel := metrics + [channel[0]], channel[1..];
      received, senders := received + [senders[0]], senders[1..];
    }

    /**
     A call whose goroutines interleave as `schedule` says: if it returns, the result is the measured metrics in
     some order; and when nothing can move any more, it has returned unless some container has crashed the process.
     */
    method Collect(schedule: seq<Event>)
      requires Valid() && View() == Start(|outcomes|)
      requires Start<M>(|outcomes|).Run(outcomes, schedule).Some?
      modifies this, workers
      ensures Valid() && Start<M>(|outcomes|).Run(outcomes, schedule) == Some(View())
      ensures returned ==> multiset(metrics) == Measurements(outcomes)
      ensures AtRest(View(), outcomes) ==>
                && (crashed || returned)
                && (crashed <==> exists i :: 0 <= i < |outcomes| && outcomes[i].Panicked?)
    {
      ghost var start := View();
      for k := 0 to |schedule|
        invariant Valid() && start.Run(outcomes, schedule[..k]) == Some(View())
      {
        assert schedule[..k + 1][..k] == schedule[..k];
        PrefixRuns(start, outcomes, schedule, k + 1);
        RunKeepsInv(outcomes, schedule[..k]);
        Turn(schedule[k]);
      }
      assert schedule[..|schedule|] == schedule;
      RunKeepsInv(outcomes, schedule);
      if returned {
        EverythingReceived(View(), outcomes);
      }
      if AtRest(View(), outcomes) {
        RestingCrash(View(), outcomes);
      }
    }
  }

  lemma {:induction false} PrefixRuns<M>(f: FanIn<M>, outcomes: seq<Outcome<M>>, events: seq<Event>, n: nat)
    requires |f.workers| == |outcomes| && n <= |events| && f.Run(outcomes, events).Some?
    ensures f.Run(outcomes, events[..n]).Some?
    decreases |events|
  {
    if n == |events| {
      assert events[..n] == events;
    } else {
      PrefixRuns(f, outcomes, events[..|events| - 1], n);
      assert events[..|events| - 1][..n] == events[..n];
    }
  }
}
