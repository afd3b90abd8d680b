/**
 `DiskCollector`: the background loop and any number of direct `Collect` calls share one cache and
 one pair of previous counters. An event is one lock section, one answer of the system, or the loop
 over a collection's own data.
 */
module DiskCollector {
  import opened BlockDevices
  import opened DiskMetrics
  import opened Goroutines
  import opened Wrappers

  /** A successful or failed reading of the counters; a failed one holds no devices. */
  datatype Sample = Sample(readings: Readings, owner: ThreadId)

  /** One swap under the lock: what the collection takes out and what it puts in. */
  datatype Link = Link(previous: Readings, previousTime: Option<nat>, current: Readings, at: nat, sample: nat,
      owner: ThreadId)

  /** What a collection computed from its link. */
  datatype Report = Report(partitions: seq<Partition>, answers: seq<Answer>, comparison: Comparison, metrics: seq<Row>)

  datatype Publication = Publication(link: nat, began: nat, at: nat, metrics: seq<Row>)

  datatype Hit = Hit(at: nat, metrics: seq<Row>)

  /** `began` is when the collection started; `link` is its own swap, whose values it keeps in locals. */
  datatype Pc =
    | Idle
    | Listing(began: nat)
    | Sampling(began: nat, partitions: seq<Partition>)
    | Swapping(began: nat, partitions: seq<Partition>, sample: nat)
    | Measuring(began: nat, partitions: seq<Partition>, link: nat)
    | Building(began: nat, partitions: seq<Partition>, link: nat, seconds: real)
    | Publishing(began: nat, link: nat, metrics: seq<Row>)

  datatype Event =
    | ClockTicks
    | BackgroundRound(thread: ThreadId)
    | CollectReadsCache(thread: ThreadId)
    | Lists(thread: ThreadId, partitions: Option<seq<Partition>>)
    | Samples(thread: ThreadId, readings: Option<Readings>)
    | Swaps(thread: ThreadId)
    | Measures(thread: ThreadId)
    | Builds(thread: ThreadId, answers: seq<Answer>)
    | Publishes(thread: ThreadId)

  /** `time.Since(prevTime).Seconds()` with the collector's two defaults. */
  function SecondsSince(previousTime: Option<nat>, clock: nat): (r: real)
    ensures r > 0.0
    ensures previousTime.Some? && previousTime.value < clock ==>
            r * NANOS_PER_SECOND == (clock - previousTime.value) as real
    ensures previousTime.None? || clock <= previousTime.value ==> r == 1.0
  {
    var duration := if previousTime.None? then 0.0 else (clock - previousTime.value) as real / NANOS_PER_SECOND;
    if duration <= 0.0 then 1.0 else duration
  }

  datatype State = State(
    clock: nat,
    cacheDuration: int,
    cachedMetrics: seq<Row>,
    cachedTime: Option<nat>,
    prevIOCounters: Readings,
    prevTime: Option<nat>,
    threads: map<ThreadId, Pc>,
    // history
    samples: seq<Sample>,
    links: seq<Link>,
    reports: map<nat, Report>,   // by the link they were computed from
    publications: seq<Publication>,
    hits: seq<Hit>)
  {
    function Pc(t: ThreadId): Pc {
      if t in threads then threads[t] else Idle
    }

    function At(t: ThreadId, pc: Pc): State {
      this.(threads := threads[t := pc])
    }

    predicate CacheValid() {
      cachedTime.Some? && clock - cachedTime.value < cacheDuration && |cachedMetrics| > 0
    }

    function ComparisonOf(link: nat, seconds: real): Comparison
      requires link < |links|
    {
      Comparison(links[link].previous, links[link].current, links[link].previousTime.None?, seconds)
    }

    /** The seconds a collection divided by. */
    function SecondsOf(link: nat): real {
      if link in reports then reports[link].comparison.seconds else 0.0
    }

    function StartStep(t: ThreadId, direct: bool): Option<State> {
      if !Pc(t).Idle? then None
      else if direct && CacheValid() then Some(this.(hits := hits + [Hit(clock, cachedMetrics)]))
      else Some(At(t, Listing(clock)))
    }

    function ListStep(t: ThreadId, partitions: Option<seq<Partition>>): Option<State> {
      if !Pc(t).Listing? then None
      else if partitions.None? then Some(At(t, Idle))
      else Some(At(t, Sampling(Pc(t).began, partitions.value)))
    }

    function SampleStep(t: ThreadId, readings: Option<Readings>): Option<State> {
      if !Pc(t).Sampling? then None
      else
        var sample := Sample(if readings.Some? then readings.value else map[], t);
        Some(At(t, Swapping(Pc(t).began, Pc(t).partitions, |samples|)).(samples := samples + [sample]))
    }

    function SwapStep(t: ThreadId): Option<State> {
      if !Pc(t).Swapping? || Pc(t).sample >= |samples| then None
      else
        var current := samples[Pc(t).sample].readings;
        var link := Link(prevIOCounters, prevTime, current, clock, Pc(t).sample, t);
        Some(At(t, Measuring(Pc(t).began, Pc(t).partitions, |links|)).(
             prevIOCounters := current, prevTime := Some(clock), links := links + [link]))
    }

    function MeasureStep(t: ThreadId): Option<State> {
      if !Pc(t).Measuring? || Pc(t).link >= |links| then None
      else Some(At(t, Building(Pc(t).began, Pc(t).partitions, Pc(t).link,
          SecondsSince(links[Pc(t).link].previousTime, clock))))
    }

    function BuildStep(t: ThreadId, answers: seq<Answer>): Option<State> {
      if !Pc(t).Building? || Pc(t).link >= |links| || |answers| != |Pc(t).partitions| || Pc(t).seconds <= 0.0 then None
      else
        var comparison := ComparisonOf(Pc(t).link, Pc(t).seconds);
        var report := Report(Pc(t).partitions, answers, comparison, RowsOf(Pc(t).partitions, answers, comparison));
        Some(At(t, Publishing(Pc(t).began, Pc(t).link, report.metrics)).(reports := reports[Pc(t).link := report]))
    }

    function PublishStep(t: ThreadId): Option<State> {
      if !Pc(t).Publishing? then None
      else
        Some(At(t, Idle).(
             cachedMetrics := Pc(t).metrics, cachedTime := Some(clock),
             publications := publications + [Publication(Pc(t).link, Pc(t).began, clock, Pc(t).metrics)]))
    }

    function Step(e: Event): Option<State> {
      match e
      case ClockTicks => Some(this.(clock := clock + 1))
      case BackgroundRound(t) => StartStep(t, false)
      case CollectReadsCache(t) => StartStep(t, true)
      case Lists(t, partitions) => ListStep(t, partitions)
      case Samples(t, readings) => SampleStep(t, readings)
      case Swaps(t) => SwapStep(t)
      case Measures(t) => MeasureStep(t)
      case Builds(t, answers) => BuildStep(t, answers)
      case Publishes(t) => PublishStep(t)
    }

    function Run(events: seq<Event>): Option<State>
      decreases |events|
    {
      if events == [] then Some(this)
      else
        match Run(events[..|events| - 1])
        case None => None
        case Some(before) => before.Step(events[|events| - 1])
    }

    // ---- Invariants ----

    /** Every link takes out exactly what the link before it has put in. */
    ghost predicate LinkInv(k: nat) {
      k < |links| ==>
        && links[k].sample < |samples| && links[k].current == samples[links[k].sample].readings
        && links[k].owner == samples[links[k].sample].owner
        && (if k == 0 then links[k].previous == map[] && links[k].previousTime == None
            else links[k].previous == links[k - 1].current && links[k].previousTime == Some(links[k - 1].at)
                 && links[k - 1].at <= links[k].at)
    }

    ghost predicate ChainInv() {
      && (forall k: nat :: LinkInv(k))
      && prevIOCounters == (if links == [] then map[] else links[|links| - 1].current)
      && prevTime == (if links == [] then None else Some(links[|links| - 1].at))
      && (links != [] ==> links[|links| - 1].at <= clock)
    }

    ghost predicate Linked(sample: nat) {
      exists k :: 0 <= k < |links| && links[k].sample == sample
    }

    ghost predicate UsedOnce(j: nat, k: nat) {
      j < k < |links| ==> links[j].sample != links[k].sample
    }

    ghost predicate ReportInv(k: nat) {
      k in reports ==>
        && k < |links|
        && var r := reports[k];
        && |r.answers| == |r.partitions| && r.comparison.seconds > 0.0
        && r.comparison == ComparisonOf(k, r.comparison.seconds)
        && r.metrics == RowsOf(r.partitions, r.answers, r.comparison)
    }

    ghost predicate PublicationInv(k: nat) {
      k < |publications| ==>
        var p := publications[k];
        && p.began <= p.at <= clock
        && p.link in reports && p.metrics == reports[p.link].metrics
    }

    ghost predicate CacheInv() {
      && (cachedTime.None? <==> publications == [])
      && (cachedTime.None? ==> cachedMetrics == [])
      && (cachedTime.Some? ==>
            var last := publications[|publications| - 1];
            cachedTime.value == last.at && cachedMetrics == last.metrics)
    }

    /** A hit is the latest publication of its moment, and that is recent. */
    ghost predicate FromPublication(h: Hit, k: nat) {
      k < |publications| && h.metrics == publications[k].metrics
      && publications[k].at <= h.at < publications[k].at + cacheDuration
      && h.at <= (if k + 1 < |publications| then publications[k + 1].at else clock)
    }

    ghost predicate HitInv(h: Hit) {
      exists k: nat :: FromPublication(h, k)
    }

    ghost predicate ThreadInv(t: ThreadId) {
      match Pc(t)
      case Idle => true
      case Listing(began) => began <= clock
      case Sampling(began, _) => began <= clock
      case Swapping(began, _, sample) => began <= clock && sample < |samples| && samples[sample].owner == t
          && !Linked(sample)
      case Measuring(began, _, link) => began <= clock && link < |links| && links[link].owner == t && link !in reports
      case Building(began, _, link, seconds) =>
        began <= clock && link < |links| && links[link].owner == t && link !in reports && seconds > 0.0
      case Publishing(began, link, metrics) =>
        began <= clock && link < |links| && links[link].owner == t && link in reports
            && reports[link].metrics == metrics
    }

    ghost predicate Inv() {
      && ChainInv()
      && (forall j: nat, k: nat :: UsedOnce(j, k))
      && (forall k: nat :: ReportInv(k))
      && (forall k: nat :: PublicationInv(k))
      && CacheInv()
      && (forall h :: h in hits ==> HitInv(h))
      && (forall t :: ThreadInv(t))
    }
  }

  function NewCollector(cacheDuration: int): State {
    State(0, cacheDuration, [], None, map[], None, map[], [], [], map[], [], [])
  }

  // ---- Each kind of event keeps the invariant ----

  /** What a step of one thread may do to what another relies on. */
  ghost predicate Leaves(s: State, next: State, others: ThreadId -> bool) {
    && s.clock <= next.clock && s.samples <= next.samples && s.links <= next.links
    && (forall k: nat :: k < |next.links| && k >= |s.links| ==> !others(next.links[k].owner))
    && (forall k: nat :: k in s.reports ==> k in next.reports && next.reports[k] == s.reports[k])
    && (forall k: nat :: k in next.reports && k !in s.reports ==> k < |s.links| && !others(s.links[k].owner))
  }

  lemma OthersStay(s: State, next: State, others: ThreadId -> bool, t: ThreadId)
    requires s.Inv() && Leaves(s, next, others) && others(t) && next.Pc(t) == s.Pc(t)
    requires forall k: nat :: next.LinkInv(k)
    ensures next.ThreadInv(t)
  {
    assert s.ThreadInv(t);
    if s.Pc(t).Swapping? && next.Linked(s.Pc(t).sample) {
      var k :| 0 <= k < |next.links| && next.links[k].sample == s.Pc(t).sample;
      assert next.LinkInv(k);
      assert k < |s.links| ==> s.Linked(s.Pc(t).sample);
    }
  }

  /** Which event writes what. */
  lemma Touches(s: State, e: Event)
    requires s.Step(e).Some?
    ensures var next := s.Step(e).value;
            && s.clock <= next.clock && next.cacheDuration == s.cacheDuration
            && (!e.ClockTicks? ==> forall t :: t != e.thread ==> next.Pc(t) == s.Pc(t))
            && (e.ClockTicks? ==> next.threads == s.threads)
            && s.samples <= next.samples && s.links <= next.links && s.publications <= next.publications
            && (!e.Swaps? ==>
                  next.links == s.links && next.prevIOCounters == s.prevIOCounters && next.prevTime == s.prevTime)
            && (!e.Samples? ==> next.samples == s.samples)
            && (!e.Builds? ==> next.reports == s.reports)
            && (!e.Publishes? ==> next.publications == s.publications && next.cachedMetrics == s.cachedMetrics
                                  && next.cachedTime == s.cachedTime)
            && (!e.CollectReadsCache? ==> next.hits == s.hits)
  {
  }

  lemma StepLeaves(s: State, e: Event)
    requires s.Inv() && s.Step(e).Some? && !e.ClockTicks?
    ensures Leaves(s, s.Step(e).value, t => t != e.thread)
  {
    Touches(s, e);
    if e.Builds? {
      assert s.ThreadInv(e.thread);
    }
  }

  lemma SwapKeepsChain(s: State, t: ThreadId)
    requires s.Inv() && s.SwapStep(t).Some?
    ensures s.SwapStep(t).value.ChainInv()
    ensures forall j: nat, k: nat :: s.SwapStep(t).value.UsedOnce(j, k)
  {
    var next := s.SwapStep(t).value;
    assert s.ThreadInv(t);
    forall k: nat ensures next.LinkInv(k) {
      assert s.LinkInv(k);
    }
    forall j: nat, k: nat ensures next.UsedOnce(j, k) {
      assert s.UsedOnce(j, k);
    }
  }

  lemma StepKeepsChain(s: State, e: Event)
    requires s.Inv() && s.Step(e).Some?
    ensures s.Step(e).value.ChainInv()
    ensures forall j: nat, k: nat :: s.Step(e).value.UsedOnce(j, k)
  {
    var next := s.Step(e).value;
    if e.Swaps? {
      SwapKeepsChain(s, e.thread);
    } else {
      Touches(s, e);
      forall k: nat ensures next.LinkInv(k) {
        assert s.LinkInv(k);
      }
      forall j: nat, k: nat ensures next.UsedOnce(j, k) {
        assert s.UsedOnce(j, k);
      }
    }
  }

  lemma StepKeepsThreads(s: State, e: Event, t: ThreadId)
    requires s.Inv() && s.Step(e).Some?
    ensures s.Step(e).value.ThreadInv(t)
  {
    var next := s.Step(e).value;
    StepKeepsChain(s, e);
    if e.ClockTicks? {
      OthersStay(s, next, _ => true, t);
    } else if t != e.thread {
      StepLeaves(s, e);
      Touches(s, e);
      OthersStay(s, next, u => u != e.thread, t);
    } else {
      OwnerMoves(s, e);
    }
  }

  lemma OwnerMoves(s: State, e: Event)
    requires s.Inv() && s.Step(e).Some? && !e.ClockTicks?
    ensures s.Step(e).value.ThreadInv(e.thread)
  {
    assert s.ThreadInv(e.thread);
    assert s.ReportInv(|s.links|);
    if e.Samples? {
      forall k: nat | k < |s.links| ensures s.links[k].sample < |s.samples| {
        assert s.LinkInv(k);
      }
    }
  }

  lemma StepKeepsReports(s: State, e: Event)
    requires s.Inv() && s.Step(e).Some?
    ensures forall k: nat :: s.Step(e).value.ReportInv(k)
  {
    var next := s.Step(e).value;
    Touches(s, e);
    if e.Builds? {
      assert s.ThreadInv(e.thread);
    }
    forall k: nat ensures next.ReportInv(k) {
      assert s.ReportInv(k);
    }
  }

  lemma PublishKeepsCache(s: State, t: ThreadId)
    requires s.Inv() && s.PublishStep(t).Some?
    ensures forall k: nat :: s.PublishStep(t).value.PublicationInv(k)
    ensures s.PublishStep(t).value.CacheInv()
  {
    var next := s.PublishStep(t).value;
    assert s.ThreadInv(t);
    forall k: nat ensures next.PublicationInv(k) {
      assert s.PublicationInv(k);
    }
  }

  lemma StepKeepsCache(s: State, e: Event)
    requires s.Inv() && s.Step(e).Some?
    ensures forall k: nat :: s.Step(e).value.PublicationInv(k)
    ensures s.Step(e).value.CacheInv()
  {
    var next := s.Step(e).value;
    if e.Publishes? {
      PublishKeepsCache(s, e.thread);
    } else {
      Touches(s, e);
      if e.Builds? {
        assert s.ThreadInv(e.thread);
      }
      forall k: nat ensures next.PublicationInv(k) {
        assert s.PublicationInv(k);
      }
    }
  }

  lemma StepKeepsHits(s: State, e: Event)
    requires s.Inv() && s.Step(e).Some?
    ensures forall h :: h in s.Step(e).value.hits ==> s.Step(e).value.HitInv(h)
  {
    var next := s.Step(e).value;
    assert s.publications <= next.publications;
    forall h | h in next.hits ensures next.HitInv(h) {
      if h in s.hits {
        assert s.HitInv(h);
        var k: nat :| s.FromPublication(h, k);
        assert next.FromPublication(h, k);
      } else {
        var k := |s.publications| - 1;
        assert s.PublicationInv(k);
        assert next.FromPublication(h, k);
      }
    }
  }

  lemma StepKeepsInv(s: State, e: Event)
    requires s.Inv() && s.Step(e).Some?
    ensures s.Step(e).value.Inv()
  {
    StepKeepsChain(s, e);
    StepKeepsReports(s, e);
    StepKeepsCache(s, e);
    StepKeepsHits(s, e);
    forall t ensures s.Step(e).value.ThreadInv(t) {
      StepKeepsThreads(s, e, t);
    }
  }

  lemma {:induction false} RunKeepsInv(s: State, events: seq<Event>)
    requires s.Inv() && s.Run(events).Some?
    ensures s.Run(events).value.Inv()
    decreases |events|
  {
    if events == [] {
    } else {
      RunKeepsInv(s, events[..|events| - 1]);
      StepKeepsInv(s.Run(events[..|events| - 1]).value, events[|events| - 1]);
    }
  }

  lemma Reachable(cacheDuration: int, events: seq<Event>)
    requires NewCollector(cacheDuration).Run(events).Some?
    ensures NewCollector(cacheDuration).Run(events).value.Inv()
  {
    RunKeepsInv(NewCollector(cacheDuration), events);
  }

  // ---- Freshness of the cache ----

  /**
   Every hit returns the rows of the latest publication, computed by one collection. If no collection takes
   longer than `slack`, that collection began less than the cache duration plus `slack` before the hit.
   */
  lemma HitsAreFresh(cacheDuration: int, events: seq<Event>, slack: nat, h: Hit)
    requires NewCollector(cacheDuration).Run(events).Some?
    requires var s := NewCollector(cacheDuration).Run(events).value;
             h in s.hits && forall k :: 0 <= k < |s.publications| ==>
                 s.publications[k].at - s.publications[k].began <= slack
    ensures var s := NewCollector(cacheDuration).Run(events).value;
            exists k :: 0 <= k < |s.publications| && FreshFrom(s, h, k, slack)
  {
    Reachable(cacheDuration, events);
    SameDuration(NewCollector(cacheDuration), events);
    var s := NewCollector(cacheDuration).Run(events).value;
    assert s.HitInv(h);
    var k: nat :| s.FromPublication(h, k);
    assert s.PublicationInv(k);
    assert FreshFrom(s, h, k, slack);
  }

  ghost predicate FreshFrom(s: State, h: Hit, k: nat, slack: nat) {
    k < |s.publications| &&
    var p := s.publications[k];
    && p.link in s.reports && h.metrics == s.reports[p.link].metrics
    && p.began <= p.at <= h.at < p.began + s.cacheDuration + slack
    && (k + 1 < |s.publications| ==> h.at <= s.publications[k + 1].at)
  }

  lemma {:induction false} SameDuration(s: State, events: seq<Event>)
    requires s.Run(events).Some?
    ensures s.Run(events).value.cacheDuration == s.cacheDuration
    decreases |events|
  {
    if events == [] {
    } else {
      SameDuration(s, events[..|events| - 1]);
      Touches(s.Run(events[..|events| - 1]).value, events[|events| - 1]);
    }
  }

  /** What the clock reads after `events`. */
  function Ticks(events: seq<Event>): nat {
    if events == [] then 0
    else Ticks(events[..|events| - 1]) + (if events[|events| - 1].ClockTicks? then 1 else 0)
  }

  /** When the last of the publications in `events` was made. */
  function LastPublished(events: seq<Event>): Option<nat> {
    if events == [] then None
    else if events[|events| - 1].Publishes? then Some(Ticks(events[..|events| - 1]))
    else LastPublished(events[..|events| - 1])
  }

  ghost predicate Records(s: State, events: seq<Event>) {
    s.clock == Ticks(events) && s.cachedTime == LastPublished(events)
  }

  lemma StepRecords(s: State, next: State, events: seq<Event>)
    requires events != [] && Records(s, events[..|events| - 1]) && s.Step(events[|events| - 1]) == Some(next)
    ensures Records(next, events)
  {
  }

  lemma {:induction false} RunRecords(cacheDuration: int, events: seq<Event>)
    requires NewCollector(cacheDuration).Run(events).Some?
    ensures Records(NewCollector(cacheDuration).Run(events).value, events)
    decreases |events|
  {
    if events == [] {
    } else {
      var before := events[..|events| - 1];
      RunRecords(cacheDuration, before);
      StepRecords(NewCollector(cacheDuration).Run(before).value, NewCollector(cacheDuration).Run(events).value, events);
    }
  }

  /**
   The converse, from the events alone: an idle caller's read is a hit exactly if the last publication has rows
   and is less than the cache duration ago; it is served those rows. Otherwise the caller goes on to collect.
   */
  lemma HitExactly(cacheDuration: int, events: seq<Event>, t: ThreadId)
    requires NewCollector(cacheDuration).Run(events).Some?
    requires NewCollector(cacheDuration).Run(events).value.Pc(t).Idle?
    ensures var s := NewCollector(cacheDuration).Run(events).value;
            var rows := if s.publications == [] then [] else s.publications[|s.publications| - 1].metrics;
            var next := s.Step(CollectReadsCache(t));
            if rows != [] && LastPublished(events).Some?
               && Ticks(events) - LastPublished(events).value < cacheDuration
            then next == Some(s.(hits := s.hits + [Hit(Ticks(events), rows)]))
            else next == Some(s.At(t, Listing(Ticks(events))))
  {
    Reachable(cacheDuration, events);
    SameDuration(NewCollector(cacheDuration), events);
    RunRecords(cacheDuration, events);
  }

  predicate NotBefore(a: Option<nat>, b: Option<nat>) {
    a.Some? ==> b.Some? && a.value <= b.value
  }

  /** Although a slow collection may overwrite a later one's rows, the cache's time only grows. */
  lemma {:induction false} CachedTimeNeverGoesBack(s: State, events: seq<Event>)
    requires s.Inv() && s.Run(events).Some?
    ensures NotBefore(s.cachedTime, s.Run(events).value.cachedTime)
    decreases |events|
  {
    if events == [] {
    } else {
      var before, e := s.Run(events[..|events| - 1]).value, events[|events| - 1];
      CachedTimeNeverGoesBack(s, events[..|events| - 1]);
      RunKeepsInv(s, events[..|events| - 1]);
      if e.Publishes? {
        if before.publications != [] {
          assert before.PublicationInv(|before.publications| - 1);
        }
      } else {
        Touches(before, e);
      }
    }
  }

  // ---- The collector itself ----

  class Collector {
    var cachedMetrics: seq<Row>
    var cachedTime: Option<nat>
    var prevIOCounters: Readings
    var prevTime: Option<nat>
    var clock: nat  // what time.Now() reads
    const cacheDuration: int
    ghost var log: seq<Event>  // everything all threads have done
    ghost var state: State

    ghost predicate Valid()
      reads this
    {
      && NewCollector(cacheDuration).Run(log) == Some(state)
      && state.clock == clock && state.cacheDuration == cacheDuration
      && state.cachedMetrics == cachedMetrics && state.cachedTime == cachedTime
      && state.prevIOCounters == prevIOCounters && state.prevTime == prevTime
    }

    /** The rows compare these readings with the readings of the swap before. */
    ghost predicate RowsOfLink(link: nat, readings: Option<Readings>, partitions: seq<Partition>,
                               answers: seq<Answer>, rows: seq<Row>)
      reads this
    {
      && link < |state.links| && |answers| == |partitions|
      && state.links[link].current == (if readings.Some? then readings.value else map[])
      && exists seconds: real :: seconds > 0.0
                                 && rows == RowsOf(partitions, answers, state.ComparisonOf(link, seconds))
    }

    constructor (cacheDuration: int)
      ensures Valid() && log == []
    {
      this.cacheDuration := cacheDuration;
      cachedMetrics, cachedTime, prevIOCounters, prevTime, clock := [], None, map[], None, 0;
      log, state := [], NewCollector(cacheDuration);
    }

    /** Between two of its critical sections a thread loses control to any number of steps of the others. */
    method Yield(me: ThreadId)
      requires Valid()
      modifies this
      ensures Valid() && old(log) <= log && state.Pc(me) == old(state).Pc(me)
      ensures old(state).samples <= state.samples && old(state).links <= state.links
    {
    }

    ghost method Take(e: Event)
      requires NewCollector(cacheDuration).Run(log) == Some(state) && state.Step(e).Some?
      modifies this`state, this`log
      ensures log == old(log) + [e] && state == old(state).Step(e).value
      ensures NewCollector(cacheDuration).Run(log) == Some(state)
    {
      assert (log + [e])[..|log + [e]| - 1] == log;
      log, state := log + [e], state.Step(e).value;
    }

    /** Under RLock: the test and the copy are of the same moment. */
    method ReadCache(me: ThreadId) returns (hit: bool, snapshot: seq<Row>)
      requires Valid() && state.Pc(me).Idle?
      modifies this
      ensures Valid() && log == old(log) + [CollectReadsCache(me)]
      ensures snapshot == old(cachedMetrics) && clock == old(clock)
      ensures hit <==> snapshot != [] && old(cachedTime).Some? && clock - old(cachedTime).value < cacheDuration
      ensures hit ==> state.hits == old(state).hits + [Hit(clock, snapshot)] && state.Pc(me).Idle?
      ensures !hit ==> state.Pc(me) == Listing(clock)
    {
      hit := cachedTime.Some? && clock - cachedTime.value < cacheDuration && |cachedMetrics| > 0;
      snapshot := cachedMetrics;
      Take(CollectReadsCache(me));
    }

    /** Under Lock: take out the previous readings and put in the current ones. */
    method Swap(me: ThreadId, ioCounters: Readings) returns (prevCounters: Readings, previous: Option<nat>)
      requires Valid() && state.Pc(me).Swapping? && state.Pc(me).sample < |state.samples|
      requires state.samples[state.Pc(me).sample].readings == ioCounters
      modifies this
      ensures Valid() && log == old(log) + [Swaps(me)] && prevCounters == old(prevIOCounters)
              && previous == old(prevTime)
      ensures state.Pc(me) == Measuring(old(state).Pc(me).began, old(state).Pc(me).partitions, |old(state).links|)
      ensures state.links == old(state).links + [state.links[|old(state).links|]]
      ensures var link := state.links[|old(state).links|];
              link.previous == prevCounters && link.previousTime == previous && link.current == ioCounters
    {
      prevCounters, previous := prevIOCounters, prevTime;
      Take(Swaps(me));
      prevIOCounters := ioCounters;
      prevTime := Some(clock);
    }

    /** Under Lock. */
    method Publish(me: ThreadId, metrics: seq<Row>)
      requires Valid() && state.Pc(me).Publishing? && state.Pc(me).metrics == metrics
      modifies this
      ensures Valid() && log == old(log) + [Publishes(me)] && state.Pc(me).Idle?
      ensures cachedMetrics == metrics && cachedTime == Some(clock) && clock == old(clock)
      ensures state.links == old(state).links
    {
      Take(Publishes(me));
      cachedMetrics := metrics;
      cachedTime := Some(clock);
    }

    /**
     `collectDiskMetrics`, with other threads running between any two of its critical sections. The
     system's answers are parameters: no partitions and no readings stand for its errors.
     */
    method CollectDiskMetrics(me: ThreadId, cache: BlockDeviceCache, fs: Sysfs,
                              partitions: Option<seq<Partition>>, readings: Option<Readings>,
                                  usages: seq<Option<Usage>>)
      returns (metrics: Option<seq<Row>>)
      requires Valid() && state.Pc(me).Listing? && cache.Valid(fs)
      requires partitions.Some? ==> |usages| == |partitions.value| && DevicesEnd(fs, partitions.value)
      modifies this, cache
      ensures Valid() && old(log) <= log && cache.Valid(fs)
      ensures metrics.None? <==> partitions.None?
      ensures metrics.None? ==> state.Pc(me).Idle?
      ensures metrics.Some? ==> state.Pc(me).Publishing? && state.Pc(me).metrics == metrics.value
      ensures metrics.Some? ==> RowsOfLink(state.Pc(me).link, readings, partitions.value,
                                           AnswersOf(fs, partitions.value, usages), metrics.value)
    {
      Yield(me);
      Take(Lists(me, partitions));
      if partitions.None? {
        return None;
      }
      var rows := CollectListed(me, cache, fs, partitions.value, readings, usages);
      return Some(rows);
    }

    /** With the partitions listed. */
    method CollectListed(me: ThreadId, cache: BlockDeviceCache, fs: Sysfs, partitions: seq<Partition>,
                         readings: Option<Readings>, usages: seq<Option<Usage>>)
      returns (rows: seq<Row>)
      requires Valid() && cache.Valid(fs) && DevicesEnd(fs, partitions) && |usages| == |partitions|
      requires state.Pc(me).Sampling? && state.Pc(me).partitions == partitions
      modifies this, cache
      ensures Valid() && old(log) <= log && cache.Valid(fs)
      ensures state.Pc(me).Publishing? && state.Pc(me).metrics == rows
      ensures RowsOfLink(state.Pc(me).link, readings, partitions, AnswersOf(fs, partitions, usages), rows)
    {
      Yield(me);
      var ioCounters := SampleCounters(me, readings);
      Yield(me);
      rows := CompareWithPrevious(me, cache, fs, partitions, readings, ioCounters, usages);
    }

    /** From the swap on. */
    method CompareWithPrevious(me: ThreadId, cache: BlockDeviceCache, fs: Sysfs,
                               partitions: seq<Partition>, ghost readings: Option<Readings>, ioCounters: Readings,
                               usages: seq<Option<Usage>>)
      returns (rows: seq<Row>)
      requires ioCounters == if readings.Some? then readings.value else map[]
      requires Valid() && cache.Valid(fs) && DevicesEnd(fs, partitions) && |usages| == |partitions|
      requires state.Pc(me).Swapping? && state.Pc(me).partitions == partitions && state.Pc(me).sample < |state.samples|
      requires state.samples[state.Pc(me).sample].readings == ioCounters
      modifies this, cache
      ensures Valid() && old(log) <= log && cache.Valid(fs)
      ensures state.Pc(me).Publishing? && state.Pc(me).metrics == rows
      ensures RowsOfLink(state.Pc(me).link, readings, partitions, AnswersOf(fs, partitions, usages), rows)
    {
      var comparison := SwapAndMeasure(me, ioCounters);
      Yield(me);
      rows := Build(me, cache, fs, partitions, usages, comparison);
      ghost var link := state.Pc(me).link;
      assert rows == RowsOf(partitions, AnswersOf(fs, partitions, usages),
                            state.ComparisonOf(link, comparison.seconds));
      Yield(me);
      assert state.ComparisonOf(link, comparison.seconds) == comparison;
    }

    method SwapAndMeasure(me: ThreadId, ioCounters: Readings) returns (comparison: Comparison)
      requires Valid() && state.Pc(me).Swapping? && state.Pc(me).sample < |state.samples|
      requires state.samples[state.Pc(me).sample].readings == ioCounters
      modifies this
      ensures Valid() && old(log) <= log && state.Pc(me).Building? && state.Pc(me).link < |state.links|
      ensures state.Pc(me).partitions == old(state).Pc(me).partitions && comparison.seconds > 0.0
      ensures comparison == state.ComparisonOf(state.Pc(me).link, state.Pc(me).seconds)
      ensures comparison.current == ioCounters
    {
      var prevCounters, previous := Swap(me, ioCounters);
      Yield(me);
      var duration := MeasureDuration(me, previous);
      return Comparison(prevCounters, ioCounters, previous.None?, duration);
    }

    /** When the counters cannot be read, the collection goes on with none. */
    method SampleCounters(me: ThreadId, readings: Option<Readings>) returns (ioCounters: Readings)
      requires Valid() && state.Pc(me).Sampling?
      modifies this
      ensures Valid() && log == old(log) + [Samples(me, readings)]
      ensures ioCounters == if readings.Some? then readings.value else map[]
      ensures state.Pc(me) == Swapping(old(state).Pc(me).began, old(state).Pc(me).partitions, |old(state).samples|)
      ensures |old(state).samples| < |state.samples| && state.samples[|old(state).samples|].readings == ioCounters
    {
      ioCounters := map[];
      if readings.Some? {
        ioCounters := readings.value;
      }
      Take(Samples(me, readings));
    }

    /** The loop over the partitions works on the collection's own data. */
    method Build(me: ThreadId, cache: BlockDeviceCache, fs: Sysfs,
                 partitions: seq<Partition>, usages: seq<Option<Usage>>, c: Comparison) returns (rows: seq<Row>)
      requires Valid() && cache.Valid(fs) && DevicesEnd(fs, partitions) && |usages| == |partitions|
      requires state.Pc(me).Building? && state.Pc(me).partitions == partitions && state.Pc(me).link < |state.links|
      requires c == state.ComparisonOf(state.Pc(me).link, state.Pc(me).seconds) && c.seconds > 0.0
      modifies this, cache
      ensures Valid() && cache.Valid(fs) && log == old(log) + [Builds(me, AnswersOf(fs, partitions, usages))]
      ensures rows == RowsOf(partitions, AnswersOf(fs, partitions, usages), c) && state.links == old(state).links
      ensures state.Pc(me) == Publishing(old(state).Pc(me).began, old(state).Pc(me).link, rows)
    {
      rows := BuildRows(cache, fs, partitions, usages, c);
      RecordReport(me, AnswersOf(fs, partitions, usages));
    }

    ghost method RecordReport(me: ThreadId, answers: seq<Answer>)
      requires Valid() && state.Pc(me).Building? && state.Pc(me).link < |state.links|
      requires |answers| == |state.Pc(me).partitions| && state.Pc(me).seconds > 0.0
      modifies this`state, this`log
      ensures Valid() && log == old(log) + [Builds(me, answers)] && state.links == old(state).links
      ensures var pc := old(state).Pc(me);
              state.Pc(me) == Publishing(pc.began, pc.link,
                                         RowsOf(pc.partitions, answers, old(state).ComparisonOf(pc.link, pc.seconds)))
    {
      Take(Builds(me, answers));
    }

    /** `time.Since` of the previous swap; one second on the first collection, and when no time has passed. */
    method MeasureDuration(me: ThreadId, previous: Option<nat>) returns (duration: real)
      requires Valid() && state.Pc(me).Measuring? && state.Pc(me).link < |state.links|
      requires state.links[state.Pc(me).link].previousTime == previous
      modifies this
      ensures Valid() && log == old(log) + [Measures(me)] && duration > 0.0 && state.links == old(state).links
      ensures state.Pc(me) ==
              Building(old(state).Pc(me).began, old(state).Pc(me).partitions, old(state).Pc(me).link, duration)
    {
      duration := 0.0;
      if previous.Some? {
        duration := (clock - previous.value) as real / NANOS_PER_SECOND;
      }
      if duration <= 0.0 {
        duration := 1.0;
      }
      Take(Measures(me));
    }

    /** What both loops do with a collection: on success its rows go into the cache. */
    method CollectAndPublish(me: ThreadId, cache: BlockDeviceCache, fs: Sysfs,
                             partitions: Option<seq<Partition>>, readings: Option<Readings>,
                             usages: seq<Option<Usage>>)
      returns (metrics: Option<seq<Row>>)
      requires Valid() && state.Pc(me).Listing? && cache.Valid(fs)
      requires partitions.Some? ==> |usages| == |partitions.value| && DevicesEnd(fs, partitions.value)
      modifies this, cache
      ensures Valid() && old(log) <= log && cache.Valid(fs) && state.Pc(me).Idle?
      ensures metrics.None? <==> partitions.None?
      ensures metrics.Some? ==>
                && cachedMetrics == metrics.value && cachedTime == Some(clock) && log[|log| - 1] == Publishes(me)
                && exists link: nat :: RowsOfLink(link, readings, partitions.value,
                                                  AnswersOf(fs, partitions.value, usages), metrics.value)
    {
      metrics := CollectDiskMetrics(me, cache, fs, partitions, readings, usages);
      if metrics.Some? {
        ghost var answers, link := AnswersOf(fs, partitions.value, usages), state.Pc(me).link;
        PublishRows(me, link, readings, partitions.value, answers, metrics.value);
      }
    }

    /** Publishing leaves the links alone. */
    method PublishRows(me: ThreadId, ghost link: nat, ghost readings: Option<Readings>,
                       ghost partitions: seq<Partition>, ghost answers: seq<Answer>, metrics: seq<Row>)
      requires Valid() && state.Pc(me).Publishing? && state.Pc(me).metrics == metrics
      requires RowsOfLink(link, readings, partitions, answers, metrics)
      modifies this
      ensures Valid() && log == old(log) + [Publishes(me)] && state.Pc(me).Idle?
      ensures cachedMetrics == metrics && cachedTime == Some(clock)
      ensures RowsOfLink(link, readings, partitions, answers, metrics)
    {
      ghost var seconds: real :| seconds > 0.0
                                 && metrics == RowsOf(partitions, answers, state.ComparisonOf(link, seconds));
      ghost var before := state;
      Publish(me, metrics);
      assert state.ComparisonOf(link, seconds) == before.ComparisonOf(link, seconds);
    }

    /** `collectAndCache`: one turn of the background loop. */
    method CollectAndCache(me: ThreadId, cache: BlockDeviceCache, fs: Sysfs,
                           partitions: Option<seq<Partition>>, readings: Option<Readings>, usages: seq<Option<Usage>>)
      requires Valid() && state.Pc(me).Idle? && cache.Valid(fs)
      requires partitions.Some? ==> |usages| == |partitions.value| && DevicesEnd(fs, partitions.value)
      modifies this, cache
      ensures Valid() && old(log) <= log && cache.Valid(fs) && state.Pc(me).Idle?
      ensures partitions.Some? ==>
                && cachedTime == Some(clock) && log[|log| - 1] == Publishes(me)
                && exists link: nat :: RowsOfLink(link, readings, partitions.value,
                                                  AnswersOf(fs, partitions.value, usages), cachedMetrics)
    {
      Take(BackgroundRound(me));
      var metrics := CollectAndPublish(me, cache, fs, partitions, readings, usages);
    }

    /**
     `Collect`, with other threads running between any two of its critical sections: the whole
     execution is a run of the state machine, so everything proved of its runs holds of it.
     */
    method Collect(me: ThreadId, cache: BlockDeviceCache, fs: Sysfs,
                   partitions: Option<seq<Partition>>, readings: Option<Readings>, usages: seq<Option<Usage>>)
      returns (metrics: Option<seq<Row>>, hit: bool)
      requires Valid() && state.Pc(me).Idle? && cache.Valid(fs)
      requires partitions.Some? ==> |usages| == |partitions.value| && DevicesEnd(fs, partitions.value)
      modifies this, cache
      ensures Valid() && old(log) <= log && cache.Valid(fs) && state.Pc(me).Idle?
      ensures hit <==> old(cachedMetrics) != [] && old(cachedTime).Some?
                       && old(clock) - old(cachedTime).value < cacheDuration
      ensures hit ==> metrics == Some(old(cachedMetrics))
      ensures hit ==> state.hits == old(state).hits + [Hit(clock, old(cachedMetrics))]
      ensures !hit ==> (metrics.None? <==> partitions.None?)
      ensures !hit && metrics.Some? ==> cachedMetrics == metrics.value && cachedTime == Some(clock)
      ensures !hit && metrics.Some? ==>
                exists link: nat :: RowsOfLink(link, readings, partitions.value,
                                               AnswersOf(fs, partitions.value, usages), metrics.value)
    {
      var snapshot;
      hit, snapshot := ReadCache(me);
      if hit {
        return Some(snapshot), true;
      }
      metrics := CollectAndPublish(me, cache, fs, partitions, readings, usages);
    }
  }
}
