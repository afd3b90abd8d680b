/**
 `MemoryCollector`: the background loop and any number of direct `Collect` calls share one cache.
 The static fields are collected once under a `sync.Once` and copied into the cache; every later
 collection starts from a copy of the cache and overwrites only the dynamic fields.
 */
module MemoryCollector {
  import opened Goroutines
  import opened Wrappers

  datatype StaticInfo = StaticInfo(
    total: int, swapTotal: int, dataRate: nat, usingSlotCount: nat, totalSlotCount: nat, formFactor: string)

  datatype DynamicInfo = DynamicInfo(
    used: int, free: int, available: int, buffers: int, cached: int, usagePercent: real, swapUsed: int, swapFree: int)

  datatype MemoryMetrics = MemoryMetrics(fixed: StaticInfo, varying: DynamicInfo)

  const NO_STATIC: StaticInfo := StaticInfo(0, 0, 0, 0, 0, "")
  const NO_METRICS: MemoryMetrics := MemoryMetrics(NO_STATIC, DynamicInfo(0, 0, 0, 0, 0, 0.0, 0, 0))

  datatype Once = NotRun | Running(runner: ThreadId) | Finished

  /** What was put into the cache, and when. */
  datatype Publication = Publication(at: nat, metrics: MemoryMetrics)

  datatype Hit = Hit(at: nat, metrics: MemoryMetrics)

  /** Where a collection stands; `direct` tells a `Collect` call from the background loop. */
  datatype Pc =
    | Idle
    | EnteringOnce(direct: bool)
    | SamplingStatic(direct: bool)                        // inside Once.Do
    | StoringStatic(direct: bool, fixed: StaticInfo)      // inside Once.Do
    | LeavingOnce(direct: bool)                           // inside Once.Do, stored
    | Copying(direct: bool)
    | SamplingDynamic(direct: bool, info: MemoryMetrics)
    | Publishing(direct: bool, info: MemoryMetrics)

  datatype Event =
    | ClockTicks
    | BackgroundRound(thread: ThreadId)
    | CollectReadsCache(thread: ThreadId)
    | EntersOnce(thread: ThreadId)
    | StaticSampled(thread: ThreadId, sample: Option<StaticInfo>)
    | StoresStatic(thread: ThreadId)
    | LeavesOnce(thread: ThreadId)
    | CopiesCache(thread: ThreadId)
    | DynamicSampled(thread: ThreadId, reading: Option<DynamicInfo>)
    | Publishes(thread: ThreadId)

  datatype State = State(
    clock: nat,
    cacheDuration: int,
    cachedInfo: MemoryMetrics,
    cachedTime: Option<nat>,       // None is the zero time, which is never recent
    staticInfoLoaded: bool,
    once: Once,
    threads: map<ThreadId, Pc>,
    // history
    loaded: Option<StaticInfo>,    // what was stored by the one static collection
    readings: set<DynamicInfo>,    // the successful dynamic samplings
    publications: seq<Publication>,
    hits: seq<Hit>)                // what was served from the cache
  {
    function Pc(t: ThreadId): Pc {
      if t in threads then threads[t] else Idle
    }

    function At(t: ThreadId, pc: Pc): State {
      this.(threads := threads[t := pc])
    }

    predicate CacheValid() {
      cachedTime.Some? && clock - cachedTime.value < cacheDuration && staticInfoLoaded
    }

    function Step(e: Event): Option<State> {
      match e
      case ClockTicks => Some(this.(clock := clock + 1))
      case BackgroundRound(t) => if Pc(t).Idle? then Some(At(t, EnteringOnce(false))) else None
      case CollectReadsCache(t) =>
        if !Pc(t).Idle? then None
        else if CacheValid() then Some(this.(hits := hits + [Hit(clock, cachedInfo)]))
        else Some(At(t, EnteringOnce(true)))
      case EntersOnce(t) =>
        if !Pc(t).EnteringOnce? then None
        else if once == NotRun then Some(At(t, SamplingStatic(Pc(t).direct)).(once := Running(t)))
        else if once == Finished then Some(At(t, Copying(Pc(t).direct)))
        else None  // blocked until the runner is done
      case StaticSampled(t, sample) =>
        if !Pc(t).SamplingStatic? then None
        else if sample.None? then Some(At(t, Idle).(once := Finished))  // its caller gets the error
        else Some(At(t, StoringStatic(Pc(t).direct, sample.value)))
      case StoresStatic(t) =>
        if !Pc(t).StoringStatic? then None
        else Some(At(t, LeavingOnce(Pc(t).direct)).(
                    cachedInfo := cachedInfo.(fixed := Pc(t).fixed), staticInfoLoaded := true,
                        loaded := Some(Pc(t).fixed)))
      case LeavesOnce(t) =>
        if !Pc(t).LeavingOnce? then None else Some(At(t, Copying(Pc(t).direct)).(once := Finished))
      case CopiesCache(t) =>
        if !Pc(t).Copying? then None else Some(At(t, SamplingDynamic(Pc(t).direct, cachedInfo)))
      case DynamicSampled(t, reading) =>
        if !Pc(t).SamplingDynamic? then None
        else if reading.None? then Some(At(t, Idle))
        else Some(At(t, Publishing(Pc(t).direct, Pc(t).info.(varying := reading.value))).(
                    readings := readings + {reading.value}))
      case Publishes(t) =>
        if !Pc(t).Publishing? then None
        else Some(At(t, Idle).(cachedInfo := Pc(t).info, cachedTime := Some(clock),
                               publications := publications + [Publication(clock, Pc(t).info)]))
    }

    function Run(events: seq<Event>): Option<State>
      decreases |events|
    {
      if events == [] then Some(this)
      else
        match Run(events[..|events| - 1])
        case None => None
        case Some(before) => before.Step(events[|events| - 1])
    }

    /** The static fields everybody must see from the end of the Once on. */
    function Fixed(): StaticInfo {
      if loaded.Some? then loaded.value else NO_STATIC
    }

    ghost predicate ThreadInv(t: ThreadId) {
      match Pc(t)
      case Idle => true
      case EnteringOnce(_) => true
      case SamplingStatic(_) => once == Running(t) && loaded.None?
      case StoringStatic(_, _) => once == Running(t) && loaded.None?
      case LeavingOnce(_) => once == Running(t) && loaded.Some?
      case Copying(_) => once == Finished
      case SamplingDynamic(_, info) => once == Finished && info.fixed == Fixed()
      case Publishing(_, info) => once == Finished && info.fixed == Fixed() && info.varying in readings
    }

    predicate InsideOnce(t: ThreadId) {
      Pc(t).SamplingStatic? || Pc(t).StoringStatic? || Pc(t).LeavingOnce?
    }

    ghost predicate Inv() {
      && (forall t :: ThreadInv(t))
      && cachedInfo.fixed == Fixed()
      && staticInfoLoaded == loaded.Some?
      && (once == NotRun ==> loaded.None?)
      && (cachedTime.Some? ==> once == Finished && cachedInfo.varying in readings)
      && (once.Running? ==> InsideOnce(once.runner))
      && CacheInv()
      && (forall h :: h in hits ==> HitInv(h))
    }

    /** The cache holds the last publication. */
    ghost predicate CacheInv() {
      && (forall k :: 0 <= k < |publications| ==> publications[k].at <= clock)
      && (if publications == [] then cachedTime.None?
          else var last := publications[|publications| - 1];
            cachedTime == Some(last.at) && cachedInfo == last.metrics)
    }

    /** A hit is the latest publication of its moment, and that is recent. */
    ghost predicate FromPublication(h: Hit, k: nat) {
      && k < |publications| && h.metrics == publications[k].metrics
      && publications[k].at <= h.at < publications[k].at + cacheDuration
      && h.at <= (if k + 1 < |publications| then publications[k + 1].at else clock)
    }

    ghost predicate HitInv(h: Hit) {
      && loaded == Some(h.metrics.fixed) && h.metrics.varying in readings
      && exists k: nat :: FromPublication(h, k)
    }
  }

  function NewCollector(cacheDuration: int): State {
    State(0, cacheDuration, NO_METRICS, None, false, NotRun, map[], None, {}, [], [])
  }

  lemma StepKeepsThread(s: State, e: Event, t: ThreadId)
    requires s.Inv() && s.Step(e).Some?
    ensures s.Step(e).value.ThreadInv(t)
  {
    assert s.ThreadInv(t);
    if !e.ClockTicks? {
      assert s.ThreadInv(e.thread);
      if t != e.thread {
        assert s.Step(e).value.Pc(t) == s.Pc(t);
      }
    }
  }

  /** Which event writes what. */
  lemma Touches(s: State, e: Event)
    requires s.Inv() && s.Step(e).Some?
    ensures var next := s.Step(e).value;
            && s.clock <= next.clock && next.cacheDuration == s.cacheDuration && s.readings <= next.readings
            && (s.loaded.Some? ==> next.loaded == s.loaded)
            && s.publications <= next.publications
            && (!e.Publishes? ==> next.publications == s.publications && next.cachedTime == s.cachedTime)
            && (!e.Publishes? && s.cachedTime.Some? ==> next.cachedInfo == s.cachedInfo)
            && (!e.CollectReadsCache? ==> next.hits == s.hits)
  {
    if !e.ClockTicks? {
      assert s.ThreadInv(e.thread);
    }
  }

  lemma StepKeepsCache(s: State, e: Event)
    requires s.Inv() && s.Step(e).Some?
    ensures s.Step(e).value.CacheInv()
  {
    Touches(s, e);
  }

  lemma HitStays(s: State, next: State, h: Hit)
    requires s.HitInv(h) && s.CacheInv() && next.loaded == s.loaded && s.readings <= next.readings
    requires s.clock <= next.clock && next.cacheDuration == s.cacheDuration && s.publications <= next.publications
    requires |next.publications| > |s.publications| ==> next.publications[|s.publications|].at >= s.clock
    ensures next.HitInv(h)
  {
    var k: nat :| s.FromPublication(h, k);
    assert next.FromPublication(h, k);
  }

  lemma StepKeepsHits(s: State, e: Event)
    requires s.Inv() && s.Step(e).Some?
    ensures forall h :: h in s.Step(e).value.hits ==> s.Step(e).value.HitInv(h)
  {
    var next := s.Step(e).value;
    Touches(s, e);
    forall h | h in next.hits ensures next.HitInv(h) {
      if h in s.hits {
        assert s.HitInv(h);
        HitStays(s, next, h);
      } else {
        assert next.FromPublication(h, |s.publications| - 1);
      }
    }
  }

  lemma StepKeepsInv(s: State, e: Event)
    requires s.Inv() && s.Step(e).Some?
    ensures s.Step(e).value.Inv()
  {
    StepKeepsCache(s, e);
    StepKeepsHits(s, e);
    forall t ensures s.Step(e).value.ThreadInv(t) {
      StepKeepsThread(s, e, t);
    }
    if !e.ClockTicks? {
      assert s.ThreadInv(e.thread);
    }
  }

  lemma {:induction false} RunKeepsInv(s: State, events: seq<Event>)
    requires s.Inv() && s.Run(events).Some?
    ensures s.Run(events).value.Inv()
    decreases |events|
  {
    if events == [] {
    } else {
      RunKeepsInv(s, events[..|events| - 1]);
      StepKeepsInv(s.Run(events[..|events| - 1]).value, events[|events| - 1]);
    }
  }

  // ---- What every interleaving guarantees ----

  /**
   Once the flag is up, the cache and every copy taken from it carry the static fields that were
   stored under the Once, and every cache hit ever served returned exactly those static fields with
   the dynamic fields of one successful sampling.
   */
  lemma StaticInfoIsConsistent(cacheDuration: int, events: seq<Event>)
    requires NewCollector(cacheDuration).Run(events).Some?
    ensures var s := NewCollector(cacheDuration).Run(events).value;
            && (s.staticInfoLoaded ==>
                  && s.loaded.Some? && s.cachedInfo.fixed == s.loaded.value
                  && forall t :: s.Pc(t).SamplingDynamic? || s.Pc(t).Publishing? ==>
                     s.Pc(t).info.fixed == s.loaded.value)
            && (forall k :: 0 <= k < |s.hits| ==>
                  s.loaded == Some(s.hits[k].metrics.fixed) && s.hits[k].metrics.varying in s.readings)
  {
    RunKeepsInv(NewCollector(cacheDuration), events);
    var s := NewCollector(cacheDuration).Run(events).value;
    forall t | s.Pc(t).SamplingDynamic? || s.Pc(t).Publishing?
      ensures s.Pc(t).info.fixed == s.Fixed()
    {
      assert s.ThreadInv(t);
    }
    forall k | 0 <= k < |s.hits|
      ensures s.loaded == Some(s.hits[k].metrics.fixed) && s.hits[k].metrics.varying in s.readings
    {
      assert s.HitInv(s.hits[k]);
    }
  }

  /** What was loaded stays loaded, so hits served at different times agree on the static fields. */
  lemma {:induction false} LoadedForGood(s: State, events: seq<Event>)
    requires s.Inv() && s.staticInfoLoaded && s.Run(events).Some?
    ensures s.Run(events).value.staticInfoLoaded
    ensures s.Run(events).value.loaded == s.loaded
    ensures s.Run(events).value.cachedInfo.fixed == s.cachedInfo.fixed
    decreases |events|
  {
    RunKeepsInv(s, events);
    if events == [] {
    } else {
      var before, e := s.Run(events[..|events| - 1]).value, events[|events| - 1];
      LoadedForGood(s, events[..|events| - 1]);
      RunKeepsInv(s, events[..|events| - 1]);
      if !e.ClockTicks? {
        assert before.ThreadInv(e.thread);
      }
    }
  }

  /** If the one static collection fails, the cache never serves a hit and the static fields stay zero. */
  lemma {:induction false} FailedOnceDisablesTheCache(s: State, events: seq<Event>)
    requires s.Inv() && s.once == Finished && !s.staticInfoLoaded && s.Run(events).Some?
    ensures var end := s.Run(events).value;
            end.once == Finished && !end.staticInfoLoaded && end.hits == s.hits && end.cachedInfo.fixed == NO_STATIC
    decreases |events|
  {
    RunKeepsInv(s, events);
    if events == [] {
    } else {
      var before, e := s.Run(events[..|events| - 1]).value, events[|events| - 1];
      FailedOnceDisablesTheCache(s, events[..|events| - 1]);
      RunKeepsInv(s, events[..|events| - 1]);
      if !e.ClockTicks? {
        assert before.ThreadInv(e.thread);
      }
    }
  }

  // ---- Hits are recent, and recent publications are hit ----

  lemma {:induction false} SameDuration(s: State, events: seq<Event>)
    requires s.Inv() && s.Run(events).Some?
    ensures s.Run(events).value.cacheDuration == s.cacheDuration
    decreases |events|
  {
    if events == [] {
    } else {
      SameDuration(s, events[..|events| - 1]);
      RunKeepsInv(s, events[..|events| - 1]);
      Touches(s.Run(events[..|events| - 1]).value, events[|events| - 1]);
    }
  }

  /** Every hit ever served is the latest publication of its moment, less than the cache duration old. */
  lemma HitsAreFresh(cacheDuration: int, events: seq<Event>, h: Hit) returns (k: nat)
    requires NewCollector(cacheDuration).Run(events).Some?
    requires h in NewCollector(cacheDuration).Run(events).value.hits
    ensures var published := NewCollector(cacheDuration).Run(events).value.publications;
            && k < |published| && h.metrics == published[k].metrics
            && published[k].at <= h.at < published[k].at + cacheDuration
            && (k + 1 < |published| ==> h.at <= published[k + 1].at)
  {
    RunKeepsInv(NewCollector(cacheDuration), events);
    SameDuration(NewCollector(cacheDuration), events);
    var s := NewCollector(cacheDuration).Run(events).value;
    assert s.HitInv(h);
    k :| s.FromPublication(h, k);
  }

  /** What the clock reads after `events`. */
  function Ticks(events: seq<Event>): nat {
    if events == [] then 0
    else Ticks(events[..|events| - 1]) + (if events[|events| - 1].ClockTicks? then 1 else 0)
  }

  /** When the last of the publications in `events` was made. */
  function LastPublished(events: seq<Event>): Option<nat> {
    if events == [] then None
    else if events[|events| - 1].Publishes? then Some(Ticks(events[..|events| - 1]))
    else LastPublished(events[..|events| - 1])
  }

  /** The static fields have been stored. */
  predicate HasStored(events: seq<Event>) {
    events != [] && (events[|events| - 1].StoresStatic? || HasStored(events[..|events| - 1]))
  }

  ghost predicate Records(s: State, events: seq<Event>) {
    && s.clock == Ticks(events)
    && s.cachedTime == LastPublished(events)
    && s.staticInfoLoaded == HasStored(events)
  }

  lemma StepRecords(s: State, next: State, events: seq<Event>)
    requires events != [] && Records(s, events[..|events| - 1]) && s.Step(events[|events| - 1]) == Some(next)
    ensures Records(next, events)
  {
  }

  lemma {:induction false} RunRecords(cacheDuration: int, events: seq<Event>)
    requires NewCollector(cacheDuration).Run(events).Some?
    ensures Records(NewCollector(cacheDuration).Run(events).value, events)
    decreases |events|
  {
    if events == [] {
    } else {
      var before := events[..|events| - 1];
      RunRecords(cacheDuration, before);
      StepRecords(NewCollector(cacheDuration).Run(before).value, NewCollector(cacheDuration).Run(events).value, events);
    }
  }

  /**
   Both directions, from the events alone: an idle caller's read is a hit exactly if the static fields have been
   stored and the last publication is less than the cache duration ago; it is served that publication. Otherwise
   the caller goes on to collect.
   */
  lemma HitExactly(cacheDuration: int, events: seq<Event>, t: ThreadId)
    requires NewCollector(cacheDuration).Run(events).Some?
    requires NewCollector(cacheDuration).Run(events).value.Pc(t).Idle?
    ensures var s := NewCollector(cacheDuration).Run(events).value;
            var next := s.Step(CollectReadsCache(t));
            if HasStored(events) && LastPublished(events).Some?
               && Ticks(events) - LastPublished(events).value < cacheDuration
            then
              && s.publications != [] && s.publications[|s.publications| - 1].at == LastPublished(events).value
              && next == Some(s.(hits := s.hits + [Hit(Ticks(events), s.publications[|s.publications| - 1].metrics)]))
            else next == Some(s.At(t, EnteringOnce(true)))
  {
    RunKeepsInv(NewCollector(cacheDuration), events);
    SameDuration(NewCollector(cacheDuration), events);
    RunRecords(cacheDuration, events);
  }

  // ---- When the cache is out of use ----

  /** No hit can be served any more. */
  ghost predicate NeverHits(s: State) {
    forall more :: s.Run(more).Some? ==> s.Run(more).value.hits == s.hits
  }

  /** What a caller could see: there is nothing recent enough, or the Once is spent without a result. */
  predicate OutOfUse(s: State) {
    s.cacheDuration <= 0 || (s.once == Finished && !s.staticInfoLoaded)
  }

  lemma NoHitNow(s: State, e: Event)
    requires s.Inv() && s.cacheDuration <= 0 && s.Step(e).Some?
    ensures s.Step(e).value.hits == s.hits && s.Step(e).value.cacheDuration == s.cacheDuration
  {
    assert !s.CacheValid();
    match e
    case ClockTicks =>
    case BackgroundRound(_) =>
    case CollectReadsCache(_) =>
    case EntersOnce(_) =>
    case StaticSampled(_, _) =>
    case StoresStatic(_) =>
    case LeavesOnce(_) =>
    case CopiesCache(_) =>
    case DynamicSampled(_, _) =>
    case Publishes(_) =>
  }

  lemma {:induction false} NothingIsRecent(s: State, more: seq<Event>)
    requires s.Inv() && s.cacheDuration <= 0 && s.Run(more).Some?
    ensures s.Run(more).value.hits == s.hits && s.Run(more).value.cacheDuration == s.cacheDuration
    decreases |more|
  {
    if more == [] {
    } else {
      NothingIsRecent(s, more[..|more| - 1]);
      RunKeepsInv(s, more[..|more| - 1]);
      NoHitNow(s.Run(more[..|more| - 1]).value, more[|more| - 1]);
    }
  }

  /** One event more than `events` from `start`. */
  lemma Continue(start: State, events: seq<Event>, s: State, e: Event) returns (more: seq<Event>, next: State)
    requires start.Run(events) == Some(s) && s.Step(e).Some?
    ensures more == events + [e] && start.Run(more) == Some(next) && Some(next) == s.Step(e)
  {
    more, next := events + [e], s.Step(e).value;
    assert more[..|more| - 1] == events;
  }

  /** A thread past the Once fills the cache. */
  lemma CopyAndPublish(start: State, events: seq<Event>, s: State, t: ThreadId) returns (more: seq<Event>, now: State)
    requires start.Run(events) == Some(s) && s.Pc(t).Copying? && s.staticInfoLoaded
    ensures start.Run(more) == Some(now) && now.Pc(t).Idle? && now.staticInfoLoaded
    ensures now.cachedTime == Some(now.clock) && now.hits == s.hits && now.cacheDuration == s.cacheDuration
  {
    more, now := Continue(start, events, s, CopiesCache(t));
    more := SampleAndPublish(start, more, now, t);
    now := start.Run(more).value;
  }

  lemma SampleAndPublish(start: State, events: seq<Event>, s: State, t: ThreadId) returns (more: seq<Event>)
    requires start.Run(events) == Some(s) && s.Pc(t).SamplingDynamic? && s.staticInfoLoaded
    ensures start.Run(more).Some?
    ensures var now := start.Run(more).value;
            && now.Pc(t).Idle? && now.staticInfoLoaded && now.cachedTime == Some(now.clock)
            && now.hits == s.hits && now.cacheDuration == s.cacheDuration
  {
    var sampled, reading := s, s.cachedInfo.varying;
    more, sampled := Continue(start, events, s, DynamicSampled(t, Some(reading)));
    assert sampled.Pc(t) == Publishing(s.Pc(t).direct, s.Pc(t).info.(varying := reading));
    more, sampled := Continue(start, more, sampled, Publishes(t));
  }

  /** What has just been published is served. */
  lemma HitAtOnce(start: State, events: seq<Event>, s: State, t: ThreadId) returns (more: seq<Event>)
    requires start.Run(events) == Some(s) && s.Pc(t).Idle? && s.staticInfoLoaded
    requires s.cachedTime == Some(s.clock) && s.cacheDuration > 0
    ensures start.Run(more).Some? && |start.Run(more).value.hits| == |s.hits| + 1
  {
    var now;
    more, now := Continue(start, events, s, CollectReadsCache(t));
  }

  /** A thread inside the Once finishes it, with a result if it has none yet. */
  lemma FinishOnce(start: State, events: seq<Event>, s: State, t: ThreadId) returns (more: seq<Event>, now: State)
    requires start.Run(events) == Some(s) && s.InsideOnce(t) && (s.Pc(t).LeavingOnce? ==> s.staticInfoLoaded)
    ensures start.Run(more) == Some(now) && now.Pc(t).Copying? && now.once == Finished && now.staticInfoLoaded
    ensures now.hits == s.hits && now.cacheDuration == s.cacheDuration
  {
    more, now := events, s;
    if now.Pc(t).SamplingStatic? {
      more, now := Continue(start, more, now, StaticSampled(t, Some(NO_STATIC)));
    }
    if now.Pc(t).StoringStatic? {
      more, now := Continue(start, more, now, StoresStatic(t));
    }
    more, now := Continue(start, more, now, LeavesOnce(t));
  }

  /** Unless the cache is out of use, some continuation serves a hit. */
  lemma CanHit(s: State) returns (more: seq<Event>)
    requires s.Inv() && !OutOfUse(s)
    ensures s.Run(more).Some? && |s.Run(more).value.hits| == |s.hits| + 1
  {
    var now, t := s, 0;
    more := [];
    if s.once.Running? {
      t := s.once.runner;
      assert s.ThreadInv(t);
      more, now := FinishOnce(s, more, now, t);
    } else {
      t := FreshThread(s.threads.Keys);
      more, now := Continue(s, more, now, BackgroundRound(t));
      more, now := Continue(s, more, now, EntersOnce(t));
      if s.once == NotRun {
        more, now := FinishOnce(s, more, now, t);
      }
    }
    more, now := CopyAndPublish(s, more, now, t);
    more := HitAtOnce(s, more, now, t);
  }

  /**
   The exact condition, in every reachable state: no continuation serves another hit if and only if the cache
   duration is not positive or the Once has been spent on a failed static collection.
   */
  lemma NeverHitsExactly(cacheDuration: int, events: seq<Event>, s: State)
    requires NewCollector(cacheDuration).Run(events) == Some(s)
    ensures NeverHits(s) <==> OutOfUse(s)
  {
    RunKeepsInv(NewCollector(cacheDuration), events);
    if OutOfUse(s) {
      forall more | s.Run(more).Some? ensures s.Run(more).value.hits == s.hits {
        if s.cacheDuration <= 0 {
          NothingIsRecent(s, more);
        } else {
          FailedOnceDisablesTheCache(s, more);
        }
      }
    } else {
      var more := CanHit(s);
      assert s.Run(more).value.hits != s.hits;
    }
  }

  /** Three events are enough to get there: the first round finds the static collection failing. */
  lemma FailedOnceCanHappen(cacheDuration: int)
    ensures var events := [BackgroundRound(0), EntersOnce(0), StaticSampled(0, None)];
            && NewCollector(cacheDuration).Run(events).Some?
            && NeverHits(NewCollector(cacheDuration).Run(events).value)
  {
    var start := NewCollector(cacheDuration);
    var more, now := Continue(start, [], start, BackgroundRound(0));
    more, now := Continue(start, more, now, EntersOnce(0));
    more, now := Continue(start, more, now, StaticSampled(0, None));
    assert more == [BackgroundRound(0), EntersOnce(0), StaticSampled(0, None)];
    NeverHitsExactly(cacheDuration, more, now);
  }

  // ---- The collector itself ----

  ghost predicate Reaches(before: State, after: State) {
    exists events :: before.Run(events) == Some(after)
  }

  lemma ReachesItself(s: State)
    ensures Reaches(s, s)
  {
    assert s.Run([]) == Some(s);
  }

  lemma ReachesNext(start: State, before: State, e: Event)
    requires Reaches(start, before) && before.Step(e).Some?
    ensures Reaches(start, before.Step(e).value)
  {
    var events :| start.Run(events) == Some(before);
    assert (events + [e])[..|events + [e]| - 1] == events;
    assert start.Run(events + [e]) == Some(before.Step(e).value);
  }

  lemma {:induction false} ReachesOn(start: State, mid: State, events: seq<Event>)
    requires Reaches(start, mid) && mid.Run(events).Some?
    ensures Reaches(start, mid.Run(events).value)
    decreases |events|
  {
    if events == [] {
    } else {
      ReachesOn(start, mid, events[..|events| - 1]);
      ReachesNext(start, mid.Run(events[..|events| - 1]).value, events[|events| - 1]);
    }
  }

  lemma ReachesVia(start: State, mid: State, end: State)
    requires Reaches(start, mid) && Reaches(mid, end)
    ensures Reaches(start, end)
  {
    var events :| mid.Run(events) == Some(end);
    ReachesOn(start, mid, events);
  }

  /** Whatever led to `before` has led on to `after`. */
  ghost predicate Follows(before: State, after: State) {
    forall start :: Reaches(start, before) ==> Reaches(start, after)
  }

  /** What was loaded is not loaded again. */
  lemma LoadedStays(before: State, after: State)
    requires before.Inv() && before.staticInfoLoaded && Follows(before, after)
    ensures after.staticInfoLoaded && after.loaded == before.loaded
  {
    ReachesItself(before);
    var events :| before.Run(events) == Some(after);
    LoadedForGood(before, events);
  }

  /** How a caller gets through the Once. */
  datatype Passage = MustWait | Passed | SamplingFailed

  datatype Answer = StillWaiting | Failed | Answer(info: MemoryMetrics, hit: bool)

  class Collector {
    var cachedInfo: MemoryMetrics
    var cachedTime: Option<nat>
    var clock: nat  // what time.Now() reads
    const cacheDuration: int
    var staticInfoLoaded: bool
    var once: Once
    ghost var state: State

    ghost predicate Valid()
      reads this
    {
      && state.Inv()
      && state.clock == clock && state.cachedInfo == cachedInfo
      && state.cachedTime == cachedTime && state.cacheDuration == cacheDuration
      && state.staticInfoLoaded == staticInfoLoaded && state.once == once
    }

    constructor (cacheDuration: int)
      ensures Valid() && state == NewCollector(cacheDuration)
    {
      this.cacheDuration := cacheDuration;
      clock, cachedInfo, cachedTime, staticInfoLoaded, once := 0, NO_METRICS, None, false, NotRun;
      state := NewCollector(cacheDuration);
    }

    /** Between two of its critical sections a thread loses control to any number of steps of the others. */
    method Yield(me: ThreadId)
      requires Valid()
      modifies this
      ensures Valid() && Follows(old(state), state) && state.Pc(me) == old(state).Pc(me)
    {
    }

    ghost method Take(e: Event)
      requires state.Inv() && state.Step(e).Some?
      modifies this`state
      ensures state == old(state).Step(e).value && state.Inv() && Follows(old(state), state)
    {
      StepKeepsInv(state, e);
      forall start | Reaches(start, state) ensures Reaches(start, state.Step(e).value) {
        ReachesNext(start, state, e);
      }
      state := state.Step(e).value;
    }

    /** Under RLock: the validity test and the copy are of the same moment. */
    method ReadCache(me: ThreadId) returns (hit: bool, snapshot: MemoryMetrics)
      requires Valid() && state.Pc(me).Idle?
      modifies this
      ensures Valid() && state == old(state).Step(CollectReadsCache(me)).value && Follows(old(state), state)
      ensures snapshot == old(cachedInfo)
      ensures var published := old(state.publications);
              && (hit <==>
                    && old(staticInfoLoaded) && published != []
                    && old(clock) - published[|published| - 1].at < cacheDuration)
              && (hit ==> snapshot == published[|published| - 1].metrics)
      ensures hit ==> state == old(state).(hits := old(state.hits) + [Hit(clock, snapshot)])
      ensures !hit ==> state == old(state).At(me, EnteringOnce(true))
    {
      hit := cachedTime.Some? && clock - cachedTime.value < cacheDuration && staticInfoLoaded;
      snapshot := cachedInfo;
      Take(CollectReadsCache(me));
    }

    method EnterOnce(me: ThreadId) returns (first: bool)
      requires Valid() && state.Pc(me).EnteringOnce? && !once.Running?
      modifies this
      ensures Valid() && state == old(state).Step(EntersOnce(me)).value && Follows(old(state), state)
      ensures first == (old(once) == NotRun)
    {
      first := once == NotRun;
      if first {
        once := Running(me);
      }
      Take(EntersOnce(me));
    }

    /** The static collection returned; on an error the Once is spent all the same. */
    method FinishStaticSampling(me: ThreadId, sample: Option<StaticInfo>)
      requires Valid() && state.Pc(me).SamplingStatic?
      modifies this
      ensures Valid() && state == old(state).Step(StaticSampled(me, sample)).value && Follows(old(state), state)
    {
      if sample.None? {
        once := Finished;
      }
      Take(StaticSampled(me, sample));
    }

    /** Under Lock. */
    method StoreStatic(me: ThreadId, fixed: StaticInfo)
      requires Valid() && state.Pc(me).StoringStatic? && state.Pc(me).fixed == fixed
      modifies this
      ensures Valid() && state == old(state).Step(StoresStatic(me)).value && Follows(old(state), state)
    {
      cachedInfo := cachedInfo.(fixed := fixed);
      staticInfoLoaded := true;
      Take(StoresStatic(me));
    }

    method LeaveOnce(me: ThreadId)
      requires Valid() && state.Pc(me).LeavingOnce?
      modifies this
      ensures Valid() && state == old(state).Step(LeavesOnce(me)).value && Follows(old(state), state)
    {
      once := Finished;
      Take(LeavesOnce(me));
    }

    /** Under RLock. */
    method CopyCache(me: ThreadId) returns (info: MemoryMetrics)
      requires Valid() && state.Pc(me).Copying?
      modifies this
      ensures Valid() && state == old(state).Step(CopiesCache(me)).value && Follows(old(state), state)
      ensures info == old(cachedInfo)
    {
      info := cachedInfo;
      Take(CopiesCache(me));
    }

    /** Under Lock. */
    method Publish(me: ThreadId, info: MemoryMetrics)
      requires Valid() && state.Pc(me).Publishing? && state.Pc(me).info == info
      modifies this
      ensures Valid() && state == old(state).Step(Publishes(me)).value && Follows(old(state), state)
    {
      Take(Publishes(me));
      cachedInfo, cachedTime := info, Some(clock);
    }

    /**
     `collectStaticOnce.Do`. A caller that finds another running it has to wait; one that comes after it goes on;
     the first runs the static collection and fails exactly if that does.
     */
    method DoOnce(me: ThreadId, sample: Option<StaticInfo>) returns (outcome: Passage)
      requires Valid() && state.Pc(me).EnteringOnce?
      modifies this
      ensures Valid() && Follows(old(state), state)
      ensures outcome.MustWait? <==> old(once).Running?
      ensures outcome.SamplingFailed? <==> old(once).NotRun? && sample.None?
      ensures outcome.SamplingFailed? ==> OutOfUse(state)
      ensures old(once).NotRun? && sample.Some? ==> state.loaded == sample
      ensures match outcome
              case MustWait => state == old(state)
              case Passed => state.Pc(me) == Copying(old(state).Pc(me).direct)
              case SamplingFailed => state.Pc(me).Idle?
    {
      if once.Running? {
        return MustWait;
      }
      var first := EnterOnce(me);
      if !first {
        return Passed;
      }
      Yield(me);
      var sampled := SampleAndStore(me, sample);
      return if sampled then Passed else SamplingFailed;
    }

    /** What the one caller does inside the Once; it is spent either way. */
    method SampleAndStore(me: ThreadId, sample: Option<StaticInfo>) returns (ok: bool)
      requires Valid() && state.Pc(me).SamplingStatic?
      modifies this
      ensures Valid() && Follows(old(state), state) && ok == sample.Some?
      ensures !ok ==> OutOfUse(state)
      ensures ok ==> state.loaded == sample
      ensures state.Pc(me) == if ok then Copying(old(state).Pc(me).direct) else Idle
    {
      assert state.ThreadInv(me);
      FinishStaticSampling(me, sample);
      if sample.None? {
        return false;
      }
      Yield(me);
      StoreAndLeave(me, sample.value);
      return true;
    }

    method StoreAndLeave(me: ThreadId, fixed: StaticInfo)
      requires Valid() && state.Pc(me).StoringStatic? && state.Pc(me).fixed == fixed
      modifies this
      ensures Valid() && Follows(old(state), state) && state.loaded == Some(fixed)
      ensures state.Pc(me) == Copying(old(state).Pc(me).direct)
    {
      StoreStatic(me, fixed);
      ghost var stored := state;
      Yield(me);
      LeaveOnce(me);
      LoadedStays(stored, state);
    }

    /** `collectMemoryInfo` from the Once on, interleaved with any steps of other threads. */
    method CollectMemoryInfo(me: ThreadId, sample: Option<StaticInfo>, reading: Option<DynamicInfo>)
      returns (answer: Answer)
      requires Valid() && state.Pc(me).EnteringOnce?
      modifies this
      ensures Valid() && Reaches(old(state), state)
      ensures match answer
              case StillWaiting => state.Pc(me).EnteringOnce? && state.once.Running?
              case Failed => state.Pc(me).Idle? && (reading.None? || (sample.None? && OutOfUse(state)))
              case Answer(info, hit) =>
                && state.Pc(me) == Publishing(old(state).Pc(me).direct, info) && !hit && reading == Some(info.varying)
      ensures reading.None? ==> !answer.Answer?
    {
      ReachesItself(state);
      Yield(me);
      var outcome := DoOnce(me, sample);
      if outcome.MustWait? {
        return StillWaiting;
      }
      if outcome.SamplingFailed? {
        return Failed;
      }
      answer := FillDynamic(me, reading);
    }

    /** Copy the cache, then overwrite the dynamic fields of the copy. */
    method FillDynamic(me: ThreadId, reading: Option<DynamicInfo>) returns (answer: Answer)
      requires Valid() && state.Pc(me).Copying?
      modifies this
      ensures Valid() && Follows(old(state), state) && !answer.StillWaiting?
      ensures answer.Failed? <==> reading.None?
      ensures match answer
              case Failed => state.Pc(me).Idle?
              case Answer(info, hit) =>
                && state.Pc(me) == Publishing(old(state).Pc(me).direct, info) && !hit && reading == Some(info.varying)
    {
      Yield(me);
      var info := CopyCache(me);
      Yield(me);
      Take(DynamicSampled(me, reading));
      if reading.None? {
        return Failed;
      }
      Yield(me);
      return Answer(info.(varying := reading.value), false);
    }

    /**
     `Collect`, with other threads running between any two of its critical sections: the whole
     execution is a run of the state machine, so everything proved of its runs holds of it.
     */
    method Collect(me: ThreadId, sample: Option<StaticInfo>, reading: Option<DynamicInfo>) returns (answer: Answer)
      requires Valid() && state.Pc(me).Idle?
      modifies this
      ensures Valid() && Reaches(old(state), state)
      ensures if answer.StillWaiting? then state.Pc(me).EnteringOnce? && state.once.Running? else state.Pc(me).Idle?
      ensures var published := old(state.publications);
              && (answer.Answer? && answer.hit <==>
                    && old(staticInfoLoaded) && published != []
                    && old(clock) - published[|published| - 1].at < cacheDuration)
              && (answer.Answer? && answer.hit ==> answer.info == published[|published| - 1].metrics)
      ensures reading.None? && answer.Answer? ==> answer.hit
      ensures answer.Failed? ==> reading.None? || sample.None?
      ensures answer.Answer? && answer.hit ==>
              state.loaded == Some(answer.info.fixed) && answer.info.varying in state.readings
      ensures answer.Answer? && !answer.hit ==>
              && reading == Some(answer.info.varying) && answer.info.fixed == state.Fixed()
              && cachedInfo == answer.info && cachedTime == Some(clock)
    {
      ghost var start := state;
      ReachesItself(start);
      var hit, snapshot := ReadCache(me);
      if hit {
        assert state.HitInv(state.hits[|state.hits| - 1]);
        return Answer(snapshot, true);
      }
      ghost var entered := state;
      answer := CollectMemoryInfo(me, sample, reading);
      ReachesVia(start, entered, state);
      if answer.Answer? {
        assert state.ThreadInv(me);
        Publish(me, answer.info);
      }
    }

    /** One turn of the background loop, interleaved likewise; its errors are dropped. */
    method BackgroundTurn(me: ThreadId, sample: Option<StaticInfo>, reading: Option<DynamicInfo>)
        returns (published: bool)
      requires Valid() && state.Pc(me).Idle?
      modifies this
      ensures Valid() && Reaches(old(state), state)
      ensures reading.None? ==> !published
      ensures sample.Some? && reading.Some? ==> published || (state.Pc(me).EnteringOnce? && state.once.Running?)
      ensures published ==> state.Pc(me).Idle? && cachedTime == Some(clock) && reading == Some(cachedInfo.varying)
      ensures published && staticInfoLoaded ==> state.loaded == Some(cachedInfo.fixed)
    {
      ghost var start := state;
      ReachesItself(start);
      Take(BackgroundRound(me));
      ghost var entered := state;
      var answer := CollectMemoryInfo(me, sample, reading);
      ReachesVia(start, entered, state);
      published := answer.Answer?;
      if published {
        Publish(me, answer.info);
      }
    }
  }
}
