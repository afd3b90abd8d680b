/**
 `MasterCollector.CollectAll`: one goroutine per registered collector, merging its result into the
 shared metrics under a mutex; the caller waits on a WaitGroup.
 */
module CollectAll {
  import opened Sequences
  import opened Wrappers

  /** The cases of the merge's type switch, that is, the sections of SystemMetrics. */
  datatype Section = System | CPU | Memory | Disk | Network | Processes | Containers | Services

  /** A collected value; one of a type the switch does not list is dropped. */
  datatype Data = Listed(section: Section, value: string) | Unlisted

  type Name = string
  type Outcomes = map<Name, Result<Data, string>>

  /** `None` is Go's zero value. */
  datatype SystemMetrics = SystemMetrics(
    system: Option<string>, cpu: Option<string>, memory: Option<string>, disk: Option<string>,
    network: Option<string>, processes: Option<string>, containers: Option<string>, services: Option<string>)
  {
    function Get(s: Section): Option<string> {
      match s
      case System => system
      case CPU => cpu
      case Memory => memory
      case Disk => disk
      case Network => network
      case Processes => processes
      case Containers => containers
      case Services => services
    }

    function Set(s: Section, value: string): (m: SystemMetrics)
      ensures forall t :: m.Get(t) == if t == s then Some(value) else Get(t)
    {
      match s
      case System => this.(system := Some(value))
      case CPU => this.(cpu := Some(value))
      case Memory => this.(memory := Some(value))
      case Disk => this.(disk := Some(value))
      case Network => this.(network := Some(value))
      case Processes => this.(processes := Some(value))
      case Containers => this.(containers := Some(value))
      case Services => this.(services := Some(value))
    }
  }

  const NO_METRICS: SystemMetrics := SystemMetrics(None, None, None, None, None, None, None, None)

  /** What the goroutines share under `mu`. */
  datatype Shared = Shared(metrics: SystemMetrics, errors: seq<string>)
  {
    /** One goroutine's critical section. */
    function Merge(name: Name, outcome: Result<Data, string>): Shared {
      match outcome
      case Failure(message) => this.(errors := errors + [name + ": " + message])
      case Success(Unlisted) => this
      case Success(Listed(section, value)) => this.(metrics := metrics.Set(section, value))
    }
  }

  /** Merging one collector after the other, in the given order. */
  function MergeAll(outcomes: Outcomes, order: seq<Name>): Shared
    requires forall n :: n in order ==> n in outcomes
  {
    if order == [] then Shared(NO_METRICS, [])
    else
      var last := order[|order| - 1];
      MergeAll(outcomes, order[..|order| - 1]).Merge(last, outcomes[last])
  }

  // ---- The goroutines ----

  datatype Event = Spawn(name: Name) | MergeUnderLock(name: Name) | Done(name: Name) | WaitReturns

  datatype Fanout = Fanout(
    unspawned: set<Name>,
    collecting: set<Name>,  // spawned, result not merged yet
    finishing: set<Name>,   // merged, wg.Done still to run
    counter: int,           // the WaitGroup
    shared: Shared,
    order: seq<Name>,       // in which the critical sections ran
    waited: bool)
  {
    function Step(outcomes: Outcomes, e: Event): Option<Fanout> {
      match e
      case Spawn(name) =>
        if name in unspawned && !waited then
          Some(this.(unspawned := unspawned - {name}, collecting := collecting + {name}, counter := counter + 1))
        else None
      case MergeUnderLock(name) =>
        if name in collecting && name in outcomes then
          Some(this.(collecting := collecting - {name}, finishing := finishing + {name},
                     shared := shared.Merge(name, outcomes[name]), order := order + [name]))
        else None
      case Done(name) =>
        if name in finishing then Some(this.(finishing := finishing - {name}, counter := counter - 1)) else None
      case WaitReturns =>
        if unspawned == {} && counter == 0 && !waited then Some(this.(waited := true)) else None
    }

    function Run(outcomes: Outcomes, events: seq<Event>): Option<Fanout>
      decreases |events|
    {
      if events == [] then Some(this)
      else
        match Run(outcomes, events[..|events| - 1])
        case None => None
        case Some(before) => before.Step(outcomes, events[|events| - 1])
    }

    /** The WaitGroup counts the spawned goroutines that have not finished. */
    ghost predicate CountInv() {
      && unspawned !! collecting && unspawned !! finishing && collecting !! finishing
      && counter == |collecting| + |finishing|
      && (waited ==> unspawned == collecting == finishing == {})
    }

    ghost predicate MergeInv(outcomes: Outcomes) {
      && (forall n :: n in order ==> n in outcomes)
      && NoRepeats(order)
      && outcomes.Keys == unspawned + collecting + Elements(order)
      && Elements(order) !! (unspawned + collecting)
      && finishing <= Elements(order)
      && shared == MergeAll(outcomes, order)
    }

    ghost predicate Inv(outcomes: Outcomes) {
      CountInv() && MergeInv(outcomes)
    }
  }

  function Start(outcomes: Outcomes): Fanout {
    Fanout(outcomes.Keys, {}, {}, 0, Shared(NO_METRICS, []), [], false)
  }

  /** A schedule of the critical sections: every registered collector exactly once. */
  ghost predicate IsOrder(outcomes: Outcomes, order: seq<Name>) {
    NoRepeats(order) && Elements(order) == outcomes.Keys
  }

  lemma StepKeepsCount(f: Fanout, outcomes: Outcomes, e: Event)
    requires f.CountInv() && f.Step(outcomes, e).Some?
    ensures f.Step(outcomes, e).value.CountInv()
  {
    match e
    case Spawn(name) => assert name !in f.collecting && name !in f.finishing;
    case MergeUnderLock(name) => assert name !in f.finishing;
    case Done(name) =>
    case WaitReturns => assert |f.collecting| == 0 && |f.finishing| == 0;
  }

  /** Moving a name to the next of three disjoint stages keeps the whole. */
  lemma NameMoves(x: set<Name>, y: set<Name>, z: set<Name>, n: Name)
    requires n in x
    ensures (x - {n}) + (y + {n}) + z == x + y + z
    ensures z + (x - {n}) + (y + {n}) == z + x + y
  {
  }

  lemma StepKeepsMerges(f: Fanout, outcomes: Outcomes, e: Event)
    requires f.CountInv() && f.MergeInv(outcomes) && f.Step(outcomes, e).Some?
    ensures f.Step(outcomes, e).value.MergeInv(outcomes)
  {
    match e
    case Spawn(name) =>
      NameMoves(f.unspawned, f.collecting, Elements(f.order), name);
      assert f.Step(outcomes, e).value.order == f.order;
    case MergeUnderLock(name) => MergeKeepsMerges(f, outcomes, name);
    case Done(name) => assert f.Step(outcomes, e).value.order == f.order;
    case WaitReturns => assert f.Step(outcomes, e).value.order == f.order;
  }

  lemma MergeKeepsMerges(f: Fanout, outcomes: Outcomes, name: Name)
    requires f.MergeInv(outcomes) && name in f.collecting && name !in f.unspawned && name in outcomes
    ensures f.Step(outcomes, MergeUnderLock(name)).value.MergeInv(outcomes)
  {
    NameMoves(f.collecting, Elements(f.order), f.unspawned, name);
    ElementsSnoc(f.order, name);
    MergeSnoc(outcomes, f.order, name);
  }

  lemma MergeSnoc(outcomes: Outcomes, order: seq<Name>, name: Name)
    requires name in outcomes && forall n :: n in order ==> n in outcomes
    ensures forall n :: n in order + [name] ==> n in outcomes
    ensures MergeAll(outcomes, order + [name]) == MergeAll(outcomes, order).Merge(name, outcomes[name])
  {
    assert (order + [name])[..|order + [name]| - 1] == order;
  }

  lemma StepKeepsInv(f: Fanout, outcomes: Outcomes, e: Event)
    requires f.Inv(outcomes) && f.Step(outcomes, e).Some?
    ensures f.Step(outcomes, e).value.Inv(outcomes)
  {
    StepKeepsCount(f, outcomes, e);
    StepKeepsMerges(f, outcomes, e);
  }

  lemma {:induction false} RunKeepsInv(outcomes: Outcomes, events: seq<Event>)
    requires Start(outcomes).Run(outcomes, events).Some?
    ensures Start(outcomes).Run(outcomes, events).value.Inv(outcomes)
    decreases |events|
  {
    if events == [] {
    } else {
      RunKeepsInv(outcomes, events[..|events| - 1]);
      StepKeepsInv(Start(outcomes).Run(outcomes, events[..|events| - 1]).value, outcomes, events[|events| - 1]);
    }
  }

  /** After `wg.Wait`, every interleaving has merged every collector once, in the order of the critical sections. */
  lemma WaitSeesEveryMerge(outcomes: Outcomes, events: seq<Event>)
    requires Start(outcomes).Run(outcomes, events).Some?
    requires Start(outcomes).Run(outcomes, events).value.waited
    ensures var f := Start(outcomes).Run(outcomes, events).value;
            IsOrder(outcomes, f.order) && f.shared == MergeAll(outcomes, f.order)
  {
    RunKeepsInv(outcomes, events);
  }

  // ---- Schedule independence ----

  /** No two collectors that succeed fill the same section with different values. */
  ghost predicate ConflictFree(outcomes: Outcomes) {
    forall m, n :: m in outcomes && n in outcomes && SameSection(outcomes[m], outcomes[n]) ==>
        outcomes[m] == outcomes[n]
  }

  predicate SameSection(x: Result<Data, string>, y: Result<Data, string>) {
    Fills(x) && Fills(y) && x.value.section == y.value.section
  }

  predicate Fills(outcome: Result<Data, string>) {
    outcome.Success? && outcome.value.Listed?
  }

  /** A merged section is some merged collector's result. */
  lemma {:induction false} SectionsComeFromResults(outcomes: Outcomes, order: seq<Name>, s: Section)
    requires forall n :: n in order ==> n in outcomes
    requires MergeAll(outcomes, order).metrics.Get(s).Some?
    ensures exists n :: n in order && outcomes[n] == Success(Listed(s, MergeAll(outcomes, order).metrics.Get(s).value))
  {
    if order == [] {
    } else {
      var before, last := order[..|order| - 1], order[|order| - 1];
      if outcomes[last].Success? && outcomes[last].value.Listed? && outcomes[last].value.section == s {
        assert last in order;
      } else {
        SectionsComeFromResults(outcomes, before, s);
      }
    }
  }

  /** Without conflicts, every merged result is found in its section, whenever it was merged. */
  lemma {:induction false} ResultsReachTheirSection(outcomes: Outcomes, order: seq<Name>, name: Name)
    requires ConflictFree(outcomes)
    requires forall n :: n in order ==> n in outcomes
    requires name in order && Fills(outcomes[name])
    ensures MergeAll(outcomes, order).metrics.Get(outcomes[name].value.section) == Some(outcomes[name].value.value)
  {
    var before, last := order[..|order| - 1], order[|order| - 1];
    if name in before {
      ResultsReachTheirSection(outcomes, before, name);
    }
    assert order == before + [last];
  }

  lemma SameSections(outcomes: Outcomes, p: seq<Name>, q: seq<Name>, s: Section)
    requires ConflictFree(outcomes) && IsOrder(outcomes, p) && IsOrder(outcomes, q)
    requires forall n :: n in p + q ==> n in outcomes
    ensures MergeAll(outcomes, p).metrics.Get(s).Some? ==>
              MergeAll(outcomes, q).metrics.Get(s) == MergeAll(outcomes, p).metrics.Get(s)
  {
    if MergeAll(outcomes, p).metrics.Get(s).Some? {
      SectionsComeFromResults(outcomes, p, s);
      var v := MergeAll(outcomes, p).metrics.Get(s).value;
      var n :| n in p && outcomes[n] == Success(Listed(s, v));
      assert n in Elements(q);
      ResultsReachTheirSection(outcomes, q, n);
    }
  }

  lemma InOutcomes(outcomes: Outcomes, order: seq<Name>)
    requires Elements(order) <= outcomes.Keys
    ensures forall n :: n in order ==> n in outcomes
  {
    forall n | n in order ensures n in outcomes {
      assert n in Elements(order);
    }
  }

  lemma SameMetrics(outcomes: Outcomes, p: seq<Name>, q: seq<Name>)
    requires ConflictFree(outcomes) && IsOrder(outcomes, p) && IsOrder(outcomes, q)
    requires forall n :: n in p + q ==> n in outcomes
    ensures MergeAll(outcomes, p).metrics == MergeAll(outcomes, q).metrics
  {
    var x, y := MergeAll(outcomes, p).metrics, MergeAll(outcomes, q).metrics;
    forall s: Section ensures x.Get(s) == y.Get(s) {
      SameSections(outcomes, p, q, s);
      SameSections(outcomes, q, p, s);
    }
    assert x.Get(System) == y.Get(System) && x.Get(CPU) == y.Get(CPU) && x.Get(Memory) == y.Get(Memory);
    assert x.Get(Disk) == y.Get(Disk) && x.Get(Network) == y.Get(Network) && x.Get(Processes) == y.Get(Processes);
    assert x.Get(Containers) == y.Get(Containers) && x.Get(Services) == y.Get(Services);
  }

  // ---- The error list ----

  function ErrorOf(name: Name, outcome: Result<Data, string>): multiset<string> {
    if outcome.Failure? then multiset{name + ": " + outcome.error} else multiset{}
  }

  function ErrorsOf(outcomes: Outcomes, order: seq<Name>): multiset<string>
    requires forall n :: n in order ==> n in outcomes
  {
    if order == [] then multiset{}
    else
      var last := order[|order| - 1];
      ErrorsOf(outcomes, order[..|order| - 1]) + ErrorOf(last, outcomes[last])
  }

  function Failures(outcomes: Outcomes, order: seq<Name>): nat
    requires forall n :: n in order ==> n in outcomes
  {
    if order == [] then 0
    else
      Failures(outcomes, order[..|order| - 1]) + (if outcomes[order[|order| - 1]].Failure? then 1 else 0)
  }

  /** Each failure is among the messages, under the name of its collector, and there are no more messages than that. */
  lemma {:induction false} FailuresAreReported(outcomes: Outcomes, order: seq<Name>)
    requires forall n :: n in order ==> n in outcomes
    ensures var errors := MergeAll(outcomes, order).errors;
            && |errors| == Failures(outcomes, order)
            && forall n :: n in order && outcomes[n].Failure? ==> n + ": " + outcomes[n].error in errors
  {
    if order != [] {
      var before, last := order[..|order| - 1], order[|order| - 1];
      FailuresAreReported(outcomes, before);
      forall n | n in order && outcomes[n].Failure?
        ensures n + ": " + outcomes[n].error in MergeAll(outcomes, order).errors
      {
        assert n in before || n == last;
      }
    }
  }

  /** The collected errors are the failures. */
  lemma {:induction false} MergedErrors(outcomes: Outcomes, order: seq<Name>)
    requires forall n :: n in order ==> n in outcomes
    ensures multiset(MergeAll(outcomes, order).errors) == ErrorsOf(outcomes, order)
  {
    if order == [] {
    } else {
      MergedErrors(outcomes, order[..|order| - 1]);
    }
  }

  lemma ErrorsSnoc(outcomes: Outcomes, order: seq<Name>, name: Name)
    requires name in outcomes && forall n :: n in order ==> n in outcomes
    ensures forall n :: n in order + [name] ==> n in outcomes
    ensures ErrorsOf(outcomes, order + [name]) == ErrorsOf(outcomes, order) + ErrorOf(name, outcomes[name])
  {
    assert (order + [name])[..|order + [name]| - 1] == order;
  }

  lemma {:induction false} ErrorsWithout(outcomes: Outcomes, order: seq<Name>, k: nat)
    requires k < |order| && forall n :: n in order ==> n in outcomes
    ensures ErrorsOf(outcomes, order) ==
            ErrorsOf(outcomes, Without(order, k)) + ErrorOf(order[k], outcomes[order[k]])
  {
    var before, last := order[..|order| - 1], order[|order| - 1];
    if k == |order| - 1 {
      assert Without(order, k) == before;
    } else {
      ErrorsWithout(outcomes, before, k);
      WithoutSnoc(order, k);
      assert order[k] == before[k] && Without(order, k) == Without(before, k) + [last];
      ErrorsSnoc(outcomes, Without(before, k), last);
    }
  }

  lemma {:induction false} SameErrors(outcomes: Outcomes, p: seq<Name>, q: seq<Name>)
    requires NoRepeats(p) && NoRepeats(q) && Elements(p) == Elements(q)
    requires (forall n :: n in p ==> n in outcomes) && (forall n :: n in q ==> n in outcomes)
    ensures ErrorsOf(outcomes, p) == ErrorsOf(outcomes, q)
    decreases |q|
  {
    if q == [] {
      OnlyEmptyHasNone(p);
    } else {
      var last := |q| - 1;
      assert q[last] in Elements(p);
      var k :| 0 <= k < |p| && p[k] == q[last];
      ElementsWithout(p, k);
      ElementsWithout(q, last);
      SameErrors(outcomes, Without(p, k), Without(q, last));
      ErrorsWithout(outcomes, p, k);
      ErrorsWithout(outcomes, q, last);
    }
  }

  /**
   Whatever the interleaving, two runs over the same outcomes report the same failures, and the same
   metrics unless two collectors compete for a section.
   */
  lemma RunsAgree(outcomes: Outcomes, e1: seq<Event>, e2: seq<Event>)
    requires Start(outcomes).Run(outcomes, e1).Some? && Start(outcomes).Run(outcomes, e1).value.waited
    requires Start(outcomes).Run(outcomes, e2).Some? && Start(outcomes).Run(outcomes, e2).value.waited
    ensures var x, y := Start(outcomes).Run(outcomes, e1).value.shared, Start(outcomes).Run(outcomes, e2).value.shared;
            && multiset(x.errors) == multiset(y.errors)
            && (ConflictFree(outcomes) ==> x.metrics == y.metrics)
  {
    WaitSeesEveryMerge(outcomes, e1);
    WaitSeesEveryMerge(outcomes, e2);
    var p, q := Start(outcomes).Run(outcomes, e1).value.order, Start(outcomes).Run(outcomes, e2).value.order;
    InOutcomes(outcomes, p);
    InOutcomes(outcomes, q);
    MergedErrors(outcomes, p);
    MergedErrors(outcomes, q);
    SameErrors(outcomes, p, q);
    if ConflictFree(outcomes) {
      SameMetrics(outcomes, p, q);
    }
  }

  // ---- Every order of the critical sections is a possible run ----

  lemma Extend(outcomes: Outcomes, events: seq<Event>, f: Fanout, e: Event) returns (more: seq<Event>, next: Fanout)
    requires Start(outcomes).Run(outcomes, events) == Some(f) && f.Step(outcomes, e).Some?
    ensures Start(outcomes).Run(outcomes, more) == Some(next) && next == f.Step(outcomes, e).value
  {
    more, next := events + [e], f.Step(outcomes, e).value;
    assert more[..|more| - 1] == events;
  }

  lemma SpawnAll(outcomes: Outcomes, order: seq<Name>) returns (events: seq<Event>, f: Fanout)
    requires IsOrder(outcomes, order)
    ensures Start(outcomes).Run(outcomes, events) == Some(f)
    ensures f.unspawned == {} && f.collecting == outcomes.Keys && f.order == [] && !f.waited
  {
    f, events := Start(outcomes), [];
    assert order[0..] == order;
    for k := 0 to |order|
      invariant Start(outcomes).Run(outcomes, events) == Some(f)
      invariant f.unspawned == Elements(order[k..]) && f.order == [] && !f.waited
      invariant f.unspawned + f.collecting == outcomes.Keys
    {
      ElementsFrom(order, k);
      events, f := Extend(outcomes, events, f, Spawn(order[k]));
    }
    assert order[|order|..] == [];
  }

  lemma MergeInOrder(outcomes: Outcomes, order: seq<Name>, spawned: seq<Event>, start: Fanout)
    returns (events: seq<Event>, f: Fanout)
    requires IsOrder(outcomes, order) && Start(outcomes).Run(outcomes, spawned) == Some(start)
    requires start.unspawned == {} && start.collecting == outcomes.Keys && start.order == [] && !start.waited
    ensures Start(outcomes).Run(outcomes, events) == Some(f)
    ensures f.unspawned == f.collecting == {} && f.order == order && !f.waited
  {
    events, f := spawned, start;
    assert order[0..] == order;
    for k := 0 to |order|
      invariant Start(outcomes).Run(outcomes, events) == Some(f)
      invariant f.unspawned == {} && f.collecting == Elements(order[k..]) && f.order == order[..k] && !f.waited
    {
      ElementsFrom(order, k);
      assert order[k] in Elements(order);
      events, f := Extend(outcomes, events, f, MergeUnderLock(order[k]));
      assert order[..k + 1] == order[..k] + [order[k]];
    }
    assert order[|order|..] == [];
  }

  /** Spawn all, merge in the given order, finish all, wait. */
  lemma OrderIsPossible(outcomes: Outcomes, order: seq<Name>) returns (events: seq<Event>)
    requires IsOrder(outcomes, order)
    ensures Start(outcomes).Run(outcomes, events).Some?
    ensures Start(outcomes).Run(outcomes, events).value.waited
    ensures Start(outcomes).Run(outcomes, events).value.order == order
  {
    var f;
    events, f := SpawnAll(outcomes, order);
    events, f := MergeInOrder(outcomes, order, events, f);
    while f.finishing != {}
      invariant Start(outcomes).Run(outcomes, events) == Some(f)
      invariant f.unspawned == f.collecting == {} && f.order == order && !f.waited
      decreases f.finishing
    {
      var n :| n in f.finishing;
      events, f := Extend(outcomes, events, f, Done(n));
    }
    RunKeepsInv(outcomes, events);
    events, f := Extend(outcomes, events, f, WaitReturns);
  }

  ghost predicate ScheduleIndependent(outcomes: Outcomes) {
    forall e1, e2 ::
      && Start(outcomes).Run(outcomes, e1).Some? && Start(outcomes).Run(outcomes, e1).value.waited
      && Start(outcomes).Run(outcomes, e2).Some? && Start(outcomes).Run(outcomes, e2).value.waited
      ==> Start(outcomes).Run(outcomes, e1).value.shared.metrics ==
          Start(outcomes).Run(outcomes, e2).value.shared.metrics
  }

  /** Two collectors that compete for a section: some schedule lets the first win, another the second. */
  lemma ConflictShows(outcomes: Outcomes, m: Name, n: Name)
    requires m in outcomes && n in outcomes
    requires SameSection(outcomes[m], outcomes[n]) && outcomes[m] != outcomes[n]
    ensures !ScheduleIndependent(outcomes)
  {
    var p := OrderEndingWith(outcomes, n, m);
    var q := OrderEndingWith(outcomes, m, n);
    var e1 := OrderIsPossible(outcomes, p);
    var e2 := OrderIsPossible(outcomes, q);
    WaitSeesEveryMerge(outcomes, e1);
    WaitSeesEveryMerge(outcomes, e2);
    InOutcomes(outcomes, p);
    InOutcomes(outcomes, q);
    var s := outcomes[m].value.section;
    assert MergeAll(outcomes, p).metrics.Get(s) == Some(outcomes[m].value.value);
    assert MergeAll(outcomes, q).metrics.Get(s) == Some(outcomes[n].value.value);
  }

  lemma OrderEndingWith(outcomes: Outcomes, m: Name, n: Name) returns (order: seq<Name>)
    requires m in outcomes && n in outcomes && m != n
    ensures IsOrder(outcomes, order) && order != [] && order[|order| - 1] == n
  {
    var rest := Enumerate(outcomes.Keys - {m, n});
    ElementsSnoc(rest, m);
    ElementsSnoc(rest + [m], n);
    order := rest + [m] + [n];
    assert outcomes.Keys - {m, n} + {m} + {n} == outcomes.Keys;
  }

  /** The exact condition for the result not to depend on the schedule. */
  lemma ScheduleIndependentExactly(outcomes: Outcomes)
    ensures ScheduleIndependent(outcomes) <==> ConflictFree(outcomes)
  {
    if ConflictFree(outcomes) {
      forall e1, e2 |
        && Start(outcomes).Run(outcomes, e1).Some? && Start(outcomes).Run(outcomes, e1).value.waited
        && Start(outcomes).Run(outcomes, e2).Some? && Start(outcomes).Run(outcomes, e2).value.waited
        ensures Start(outcomes).Run(outcomes, e1).value.shared.metrics ==
                Start(outcomes).Run(outcomes, e2).value.shared.metrics
      {
        RunsAgree(outcomes, e1, e2);
      }
    } else {
      var m, n :| m in outcomes && n in outcomes && SameSection(outcomes[m], outcomes[n]) && outcomes[m] != outcomes[n];
      ConflictShows(outcomes, m, n);
    }
  }

  // ---- The registered collectors ----

  /** What `NewMasterCollector` registers, with the result type of each. */
  const REGISTERED: map<Name, Section> := map[
    "system" := System, "cpu" := CPU, "memory" := Memory, "disk" := Disk,
    "container" := Containers, "network" := Network, "process" := Processes, "service" := Services]

  /** Any successes and failures of the registered collectors, each returning its own type. */
  ghost predicate OfRegistered(outcomes: Outcomes) {
    && outcomes.Keys == REGISTERED.Keys
    && forall n :: n in outcomes && outcomes[n].Success? ==>
         outcomes[n].value.Listed? && outcomes[n].value.section == REGISTERED[n]
  }

  /** In every interleaving, each section is its own collector's result, or zero if that collector failed. */
  lemma RegisteredCollectorsDoNotRace(outcomes: Outcomes, events: seq<Event>, name: Name)
    requires OfRegistered(outcomes) && name in REGISTERED
    requires Start(outcomes).Run(outcomes, events).Some? && Start(outcomes).Run(outcomes, events).value.waited
    ensures ScheduleIndependent(outcomes)
    ensures var metrics := Start(outcomes).Run(outcomes, events).value.shared.metrics;
            metrics.Get(REGISTERED[name]) ==
            if outcomes[name].Success? then Some(outcomes[name].value.value) else None
  {
    forall m, n | m in outcomes && n in outcomes && SameSection(outcomes[m], outcomes[n])
      ensures outcomes[m] == outcomes[n]
    {
      OneSectionEach(m, n);
    }
    ScheduleIndependentExactly(outcomes);
    WaitSeesEveryMerge(outcomes, events);
    var order := Start(outcomes).Run(outcomes, events).value.order;
    InOutcomes(outcomes, order);
    assert name in Elements(order);
    var s := REGISTERED[name];
    if outcomes[name].Success? {
      ResultsReachTheirSection(outcomes, order, name);
    } else if MergeAll(outcomes, order).metrics.Get(s).Some? {
      SectionsComeFromResults(outcomes, order, s);
      var n :| n in order && outcomes[n] == Success(Listed(s, MergeAll(outcomes, order).metrics.Get(s).value));
      OneSectionEach(n, name);
    }
  }

  lemma OneSectionEach(m: Name, n: Name)
    requires m in REGISTERED && n in REGISTERED && REGISTERED[m] == REGISTERED[n]
    ensures m == n
  {
  }

  // ---- The shared variables of one call, updated in place ----

  class Merger {
    var metrics: SystemMetrics
    var errors: seq<string>

    function View(): Shared
      reads this
    {
      Shared(metrics, errors)
    }

    constructor ()
      ensures View() == Shared(NO_METRICS, [])
    {
      metrics, errors := NO_METRICS, [];
    }

    /** One goroutine's critical section. */
    method Merge(name: Name, outcome: Result<Data, string>)
      modifies this
      ensures View() == old(View()).Merge(name, outcome)
    {
      match outcome {
        case Failure(message) => errors := errors + [name + ": " + message];
        case Success(Unlisted) =>
        case Success(Listed(section, value)) => metrics := metrics.Set(section, value);
      }
    }

    /** A whole call, with its critical sections in the order a schedule happens to choose. */
    method CollectAll(outcomes: Outcomes, schedule: seq<Name>)
      requires View() == Shared(NO_METRICS, [])
      requires IsOrder(outcomes, schedule)
      modifies this
      ensures forall n :: n in schedule ==> n in outcomes
      ensures View() == MergeAll(outcomes, schedule)
      ensures multiset(errors) == ErrorsOf(outcomes, schedule)
    {
      InOutcomes(outcomes, schedule);
      for k := 0 to |schedule|
        invariant View() == MergeAll(outcomes, schedule[..k])
      {
        Merge(schedule[k], outcomes[schedule[k]]);
        MergeSnoc(outcomes, schedule[..k], schedule[k]);
        assert schedule[..k + 1] == schedule[..k] + [schedule[k]];
      }
      assert schedule[..|schedule|] == schedule;
      MergedErrors(outcomes, schedule);
    }
  }
}
