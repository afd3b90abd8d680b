/**
 `SystemCollector`, in contrast to `MemoryCollector`: the flag that says the static fields are loaded
 goes up before they have reached the cache. A collection that copies the cache in between, or whose
 dynamic part fails, can lose them, and a lost copy is never repaired.
 */
module SystemCollector {
  import opened Goroutines
  import opened Wrappers

  datatype StaticInfo = StaticInfo(
    hostname: string, osName: string, platformFamily: string, platform: string,
    osVersion: string, osArchitecture: string, osKernelVersion: string)

  datatype DynamicInfo = DynamicInfo(bootTime: int, uptime: int, totalProcesses: nat, totalThreads: nat,
      totalFileDescriptors: nat)

  datatype SystemInfo = SystemInfo(fixed: StaticInfo, varying: DynamicInfo)

  const BLANK: StaticInfo := StaticInfo("", "", "", "", "", "", "")
  const NO_INFO: SystemInfo := SystemInfo(BLANK, DynamicInfo(0, 0, 0, 0, 0))

  datatype Pc =
    | Idle
    | ReadingFlag
    | SamplingStatic
    | RaisingFlag(info: SystemInfo)
    | SamplingDynamic(info: SystemInfo)
    | Publishing(info: SystemInfo)

  datatype Event =
    | ClockTicks
    | BackgroundRound(thread: ThreadId)
    | CollectReadsCache(thread: ThreadId)
    | ReadsFlag(thread: ThreadId)
    | StaticSampled(thread: ThreadId, ok: bool)
    | RaisesFlag(thread: ThreadId)
    | DynamicSampled(thread: ThreadId, reading: Option<DynamicInfo>)
    | Publishes(thread: ThreadId)

  /** `host` is what every successful static sampling finds. */
  datatype State = State(
    host: StaticInfo,
    clock: nat,
    cacheDuration: int,
    cachedInfo: SystemInfo,
    cachedTime: Option<nat>,
    staticInfoLoaded: bool,
    threads: map<ThreadId, Pc>,
    served: seq<SystemInfo>)  // history: what cache hits returned and collections published
  {
    function Pc(t: ThreadId): Pc {
      if t in threads then threads[t] else Idle
    }

    function At(t: ThreadId, pc: Pc): State {
      this.(threads := threads[t := pc])
    }

    predicate CacheValid() {
      cachedTime.Some? && clock - cachedTime.value < cacheDuration
    }

    function Step(e: Event): Option<State> {
      match e
      case ClockTicks => Some(this.(clock := clock + 1))
      case BackgroundRound(t) => if Pc(t).Idle? then Some(At(t, ReadingFlag)) else None
      case CollectReadsCache(t) =>
        if !Pc(t).Idle? then None
        else if CacheValid() then Some(this.(served := served + [cachedInfo]))
        else Some(At(t, ReadingFlag))
      case ReadsFlag(t) =>
        if !Pc(t).ReadingFlag? then None
        else Some(At(t, if staticInfoLoaded then SamplingDynamic(cachedInfo) else SamplingStatic))
      case StaticSampled(t, ok) =>
        if !Pc(t).SamplingStatic? then None
        else Some(At(t, if ok then RaisingFlag(NO_INFO.(fixed := host)) else Idle))
      case RaisesFlag(t) =>
        if !Pc(t).RaisingFlag? then None else Some(At(t, SamplingDynamic(Pc(t).info)).(staticInfoLoaded := true))
      case DynamicSampled(t, reading) =>
        if !Pc(t).SamplingDynamic? then None
        else Some(At(t, if reading.Some? then Publishing(Pc(t).info.(varying := reading.value)) else Idle))
      case Publishes(t) =>
        if !Pc(t).Publishing? then None
        else Some(At(t, Idle).(cachedInfo := Pc(t).info, cachedTime := Some(clock), served := served + [Pc(t).info]))
    }

    function Run(events: seq<Event>): Option<State>
      decreases |events|
    {
      if events == [] then Some(this)
      else
        match Run(events[..|events| - 1])
        case None => None
        case Some(before) => before.Step(events[|events| - 1])
    }

    /** The flag is up, and the cache and everything that can still reach it carry these static fields. */
    ghost predicate Settled(fixed: StaticInfo) {
      staticInfoLoaded && cachedInfo.fixed == fixed && forall t :: Carries(t, fixed)
    }

    ghost predicate Carries(t: ThreadId, fixed: StaticInfo) {
      match Pc(t)
      case Idle => true
      case ReadingFlag => true
      case SamplingStatic => fixed == host
      case RaisingFlag(info) => info.fixed == fixed
      case SamplingDynamic(info) => info.fixed == fixed
      case Publishing(info) => info.fixed == fixed
    }

    ghost predicate Quiet() {
      forall t :: Pc(t).Idle?
    }

    ghost predicate ThreadInv(t: ThreadId) {
      match Pc(t)
      case Idle => true
      case ReadingFlag => true
      case SamplingStatic => true
      case RaisingFlag(info) => info.fixed == host
      case SamplingDynamic(info) => staticInfoLoaded && (info.fixed == host || info.fixed == BLANK)
      case Publishing(info) => staticInfoLoaded && (info.fixed == host || info.fixed == BLANK)
    }

    ghost predicate Inv() {
      && (forall t :: ThreadInv(t))
      && (cachedInfo.fixed == host || cachedInfo.fixed == BLANK)
      && (!staticInfoLoaded ==> cachedInfo == NO_INFO && cachedTime.None?)
    }
  }

  function NewCollector(host: StaticInfo, cacheDuration: int): State {
    State(host, 0, cacheDuration, NO_INFO, None, false, map[], [])
  }

  lemma StepKeepsInv(s: State, e: Event)
    requires s.Inv() && s.Step(e).Some?
    ensures s.Step(e).value.Inv()
  {
    var next := s.Step(e).value;
    if !e.ClockTicks? {
      assert s.ThreadInv(e.thread);
    }
    forall t ensures next.ThreadInv(t) {
      assert s.ThreadInv(t);
      assert e.ClockTicks? || t != e.thread ==> next.Pc(t) == s.Pc(t);
    }
  }

  lemma {:induction false} RunKeepsInv(s: State, events: seq<Event>)
    requires s.Inv() && s.Run(events).Some?
    ensures s.Run(events).value.Inv() && s.Run(events).value.host == s.host
    decreases |events|
  {
    if events == [] {
    } else {
      RunKeepsInv(s, events[..|events| - 1]);
      StepKeepsInv(s.Run(events[..|events| - 1]).value, events[|events| - 1]);
    }
  }

  /** `now` has served what `s` had served, and since then only infos with these static fields. */
  ghost predicate ServedSince(s: State, now: State, fixed: StaticInfo) {
    s.served <= now.served && forall k :: |s.served| <= k < |now.served| ==> now.served[k].fixed == fixed
  }

  lemma StaysSettled(s: State, e: Event, fixed: StaticInfo)
    requires s.Settled(fixed) && s.Step(e).Some?
    ensures s.Step(e).value.Settled(fixed) && ServedSince(s, s.Step(e).value, fixed)
    ensures s.Step(e).value.host == s.host
  {
    var next := s.Step(e).value;
    if !e.ClockTicks? {
      assert s.Carries(e.thread, fixed);
    }
    forall t ensures next.Carries(t, fixed) {
      assert s.Carries(t, fixed);
      assert e.ClockTicks? || t != e.thread ==> next.Pc(t) == s.Pc(t);
    }
  }

  /** Blank or not: once settled, every continuation keeps the static fields and serves only them. */
  lemma {:induction false} SettledForGood(s: State, events: seq<Event>, fixed: StaticInfo)
    requires s.Settled(fixed) && s.Run(events).Some?
    ensures s.Run(events).value.Settled(fixed) && ServedSince(s, s.Run(events).value, fixed)
    decreases |events|
  {
    if events == [] {
    } else {
      SettledForGood(s, events[..|events| - 1], fixed);
      StaysSettled(s.Run(events[..|events| - 1]).value, events[|events| - 1], fixed);
    }
  }

  /**
   When no collection is under way and the flag is up, the future is decided by the cache alone: every
   continuation serves the host's static fields if they are in the cache now, and blank ones otherwise.
   */
  lemma QuietStatesAreDecided(host: StaticInfo, cacheDuration: int, events: seq<Event>, more: seq<Event>)
    requires NewCollector(host, cacheDuration).Run(events).Some?
    requires var s := NewCollector(host, cacheDuration).Run(events).value;
             s.Quiet() && s.staticInfoLoaded && s.Run(more).Some?
    ensures var s := NewCollector(host, cacheDuration).Run(events).value;
            && (s.cachedInfo.fixed == host || s.cachedInfo.fixed == BLANK)
            && s.Run(more).value.cachedInfo.fixed == s.cachedInfo.fixed
            && ServedSince(s, s.Run(more).value, s.cachedInfo.fixed)
  {
    RunKeepsInv(NewCollector(host, cacheDuration), events);
    var s := NewCollector(host, cacheDuration).Run(events).value;
    assert s.Settled(s.cachedInfo.fixed);
    SettledForGood(s, more, s.cachedInfo.fixed);
  }

  // ---- What is served, and when ----

  /** What the clock reads after `events`. */
  function Ticks(events: seq<Event>): nat {
    if events == [] then 0
    else Ticks(events[..|events| - 1]) + (if events[|events| - 1].ClockTicks? then 1 else 0)
  }

  /** When the last of the publications in `events` was made. */
  function LastPublished(events: seq<Event>): Option<nat> {
    if events == [] then None
    else if events[|events| - 1].Publishes? then Some(Ticks(events[..|events| - 1]))
    else LastPublished(events[..|events| - 1])
  }

  /** The results of the dynamic samplings in `events` that succeeded. */
  function Sampled(events: seq<Event>): set<DynamicInfo> {
    if events == [] then {}
    else
      var before, last := events[..|events| - 1], events[|events| - 1];
      if last.DynamicSampled? && last.reading.Some? then Sampled(before) + {last.reading.value} else Sampled(before)
  }

  ghost predicate Records(s: State, events: seq<Event>) {
    && s.clock == Ticks(events)
    && s.cachedTime == LastPublished(events)
    && (s.cachedTime.Some? ==> s.cachedInfo in s.served)
    && (forall k :: 0 <= k < |s.served| ==> s.served[k].varying in Sampled(events))
    && (forall t :: s.Pc(t).Publishing? ==> s.Pc(t).info.varying in Sampled(events))
  }

  lemma StepRecords(s: State, next: State, events: seq<Event>)
    requires events != [] && Records(s, events[..|events| - 1]) && s.Step(events[|events| - 1]) == Some(next)
    ensures Records(next, events)
  {
    var e := events[|events| - 1];
    forall t | next.Pc(t).Publishing? ensures next.Pc(t).info.varying in Sampled(events) {
      assert e.ClockTicks? || t != e.thread ==> next.Pc(t) == s.Pc(t);
    }
    assert e.Publishes? ==> next.cachedInfo == next.served[|s.served|];
    assert e.CollectReadsCache? && s.cachedTime.Some? ==> s.cachedInfo in s.served;
  }

  lemma {:induction false} RunRecords(host: StaticInfo, cacheDuration: int, events: seq<Event>)
    requires NewCollector(host, cacheDuration).Run(events).Some?
    ensures Records(NewCollector(host, cacheDuration).Run(events).value, events)
    ensures NewCollector(host, cacheDuration).Run(events).value.cacheDuration == cacheDuration
    decreases |events|
  {
    if events == [] {
    } else {
      var start, before := NewCollector(host, cacheDuration), events[..|events| - 1];
      RunRecords(host, cacheDuration, before);
      StepRecords(start.Run(before).value, start.Run(events).value, events);
    }
  }

  /** The dynamic fields of everything served are those of one successful sampling. */
  lemma ServedWereSampled(host: StaticInfo, cacheDuration: int, events: seq<Event>, k: nat)
    requires NewCollector(host, cacheDuration).Run(events).Some?
    requires k < |NewCollector(host, cacheDuration).Run(events).value.served|
    ensures NewCollector(host, cacheDuration).Run(events).value.served[k].varying in Sampled(events)
  {
    RunRecords(host, cacheDuration, events);
  }

  /**
   From the events alone: an idle caller is served from the cache exactly if the last publication is less than the
   cache duration ago; otherwise it goes on to collect.
   */
  lemma HitExactly(host: StaticInfo, cacheDuration: int, events: seq<Event>, t: ThreadId)
    requires NewCollector(host, cacheDuration).Run(events).Some?
    requires NewCollector(host, cacheDuration).Run(events).value.Pc(t).Idle?
    ensures var s := NewCollector(host, cacheDuration).Run(events).value;
            var next := s.Step(CollectReadsCache(t));
            if LastPublished(events).Some? && Ticks(events) - LastPublished(events).value < cacheDuration
            then next == Some(s.(served := s.served + [s.cachedInfo])) && s.cachedInfo in s.served
            else next == Some(s.At(t, ReadingFlag))
  {
    RunRecords(host, cacheDuration, events);
  }

  // ---- Two ways to lose the static fields ----

  lemma OthersStand(s: State, t: ThreadId, u: ThreadId)
    requires s.Pc(t).Publishing? && u != t
    ensures s.Step(Publishes(t)).Some? && s.Step(Publishes(t)).value.Pc(u) == s.Pc(u)
  {
  }

  lemma Extend(start: State, events: seq<Event>, s: State, e: Event) returns (next: State)
    requires start.Run(events) == Some(s) && s.Step(e).Some?
    ensures start.Run(events + [e]) == Some(next) && Some(next) == s.Step(e)
  {
    next := s.Step(e).value;
    assert (events + [e])[..|events + [e]| - 1] == events;
  }

  function FirstSteps(): seq<Event> {
    [BackgroundRound(0)] + [ReadsFlag(0)] + [StaticSampled(0, true)] + [RaisesFlag(0)]
  }

  /** The flag is up and nothing has been published. */
  lemma FlagBeforeData(host: StaticInfo, cacheDuration: int) returns (s: State)
    ensures NewCollector(host, cacheDuration).Run(FirstSteps()) == Some(s)
    ensures s == NewCollector(host, cacheDuration).(
                   staticInfoLoaded := true, threads := map[0 := SamplingDynamic(NO_INFO.(fixed := host))])
  {
    var start := NewCollector(host, cacheDuration);
    s := Extend(start, [], start, BackgroundRound(0));
    assert [] + [BackgroundRound(0)] == [BackgroundRound(0)];
    s := Extend(start, [BackgroundRound(0)], s, ReadsFlag(0));
    s := Extend(start, [BackgroundRound(0)] + [ReadsFlag(0)], s, StaticSampled(0, true));
    s := Extend(start, [BackgroundRound(0)] + [ReadsFlag(0)] + [StaticSampled(0, true)], s, RaisesFlag(0));
  }

  /** One thread is enough: the static sampling succeeds, the dynamic one after it fails. */
  lemma FailureLosesStaticInfo(host: StaticInfo, cacheDuration: int)
    ensures var events := FirstSteps() + [DynamicSampled(0, None)];
            && NewCollector(host, cacheDuration).Run(events).Some?
            && NewCollector(host, cacheDuration).Run(events).value.Quiet()
            && NewCollector(host, cacheDuration).Run(events).value.Settled(BLANK)
  {
    var s := FlagBeforeData(host, cacheDuration);
    s := Extend(NewCollector(host, cacheDuration), FirstSteps(), s, DynamicSampled(0, None));
  }

  /** A second collection starts before the first has published. */
  function Overlap(reading: DynamicInfo): seq<Event> {
    FirstSteps() + [CollectReadsCache(1)] + [ReadsFlag(1)]
    + [DynamicSampled(0, Some(reading))] + [DynamicSampled(1, Some(reading))]
  }

  lemma BothReadyToPublish(host: StaticInfo, cacheDuration: int, reading: DynamicInfo) returns (s: State)
    ensures NewCollector(host, cacheDuration).Run(Overlap(reading)) == Some(s)
    ensures s.Pc(0) == Publishing(SystemInfo(host, reading)) && s.Pc(1) == Publishing(SystemInfo(BLANK, reading))
    ensures (forall t :: t != 0 && t != 1 ==> s.Pc(t).Idle?) && s.staticInfoLoaded && s.served == []
  {
    var start, schedule := NewCollector(host, cacheDuration), FirstSteps();
    s := FlagBeforeData(host, cacheDuration);
    s := Extend(start, schedule, s, CollectReadsCache(1));
    s := Extend(start, schedule + [CollectReadsCache(1)], s, ReadsFlag(1));
    s := Extend(start, schedule + [CollectReadsCache(1)] + [ReadsFlag(1)], s, DynamicSampled(0, Some(reading)));
    s := Extend(start, schedule + [CollectReadsCache(1)] + [ReadsFlag(1)] + [DynamicSampled(0, Some(reading))], s,
                DynamicSampled(1, Some(reading)));
  }

  /** Nothing fails, but the collection that copied the empty cache publishes last. */
  lemma RaceLosesStaticInfo(host: StaticInfo, cacheDuration: int, reading: DynamicInfo)
    ensures var events := Overlap(reading) + [Publishes(0)] + [Publishes(1)];
            && NewCollector(host, cacheDuration).Run(events).Some?
            && var s := NewCollector(host, cacheDuration).Run(events).value;
            s.Quiet() && s.Settled(BLANK) && s.served == [SystemInfo(host, reading), SystemInfo(BLANK, reading)]
  {
    var start := NewCollector(host, cacheDuration);
    var s := BothReadyToPublish(host, cacheDuration, reading);
    forall t ensures t == 0 || t == 1 || (s.Pc(t).Idle? && s.Step(Publishes(0)).value.Pc(t).Idle?) {
      if t != 0 {
        OthersStand(s, 0, t);
      }
    }
    OthersStand(s, 0, 1);
    s := Extend(start, Overlap(reading), s, Publishes(0));
    forall t ensures t == 1 || s.Step(Publishes(1)).value.Pc(t).Idle? {
      if t != 1 {
        OthersStand(s, 1, t);
      }
    }
    s := Extend(start, Overlap(reading) + [Publishes(0)], s, Publishes(1));
    assert s.Settled(BLANK);
  }

  // ---- Settled is the exact condition ----

  ghost predicate OnlyServes(s: State, fixed: StaticInfo) {
    forall more :: s.Run(more).Some? ==> ServedSince(s, s.Run(more).value, fixed)
  }

  /** One event more than `events` from `start`. */
  lemma Continue(start: State, events: seq<Event>, s: State, e: Event) returns (more: seq<Event>, next: State)
    requires start.Run(events) == Some(s) && s.Step(e).Some?
    ensures more == events + [e] && start.Run(more) == Some(next) && Some(next) == s.Step(e)
  {
    next := Extend(start, events, s, e);
    more := events + [e];
  }

  /** From where a thread is about to sample or publish it can be let run, and what it carries is served. */
  lemma CarriedCanBeServed(start: State, events: seq<Event>, s: State, t: ThreadId, reading: DynamicInfo)
    returns (more: seq<Event>)
    requires start.Run(events) == Some(s) && start.served == s.served
    requires s.Pc(t).SamplingDynamic? || s.Pc(t).Publishing?
    ensures start.Run(more).Some?
    ensures var served := start.Run(more).value.served;
            |served| == |start.served| + 1 && served[|start.served|].fixed == s.Pc(t).info.fixed
  {
    more := events;
    var now := s;
    if s.Pc(t).SamplingDynamic? {
      more, now := Continue(start, more, now, DynamicSampled(t, Some(reading)));
    }
    more, now := Continue(start, more, now, Publishes(t));
  }

  /** What is in the cache can be copied by another collection and published again. */
  lemma CachedCanBeServed(s: State, reading: DynamicInfo) returns (more: seq<Event>)
    requires s.staticInfoLoaded
    ensures s.Run(more).Some?
    ensures var served := s.Run(more).value.served;
            |served| == |s.served| + 1 && served[|s.served|].fixed == s.cachedInfo.fixed
  {
    var t := FreshThread(s.threads.Keys);
    var now := s;
    more := [];
    more, now := Continue(s, more, now, BackgroundRound(t));
    more, now := Continue(s, more, now, ReadsFlag(t));
    more := CarriedCanBeServed(s, more, now, t, reading);
  }

  /** A collection that carries something else can be the next to be served. */
  lemma OtherCanBeServed(s: State, t: ThreadId, fixed: StaticInfo, reading: DynamicInfo) returns (more: seq<Event>)
    requires s.Inv() && !s.Carries(t, fixed)
    ensures s.Run(more).Some?
    ensures var served := s.Run(more).value.served;
            |served| == |s.served| + 1 && served[|s.served|].fixed != fixed
  {
    assert s.ThreadInv(t);
    var now := s;
    more := [];
    if now.Pc(t).SamplingStatic? {
      more, now := Continue(s, more, now, StaticSampled(t, true));
    }
    if now.Pc(t).RaisingFlag? {
      more, now := Continue(s, more, now, RaisesFlag(t));
    }
    more := CarriedCanBeServed(s, more, now, t, reading);
  }

  /**
   In every reachable state with the flag up, quiet or not: every continuation serves nothing but these static
   fields exactly if the cache and everything that can still reach it carry them.
   */
  lemma SettledExactly(host: StaticInfo, cacheDuration: int, events: seq<Event>, s: State, fixed: StaticInfo)
    requires NewCollector(host, cacheDuration).Run(events) == Some(s) && s.staticInfoLoaded
    ensures s.Settled(fixed) <==> OnlyServes(s, fixed)
  {
    RunKeepsInv(NewCollector(host, cacheDuration), events);
    if s.Settled(fixed) {
      forall more | s.Run(more).Some? ensures ServedSince(s, s.Run(more).value, fixed) {
        SettledForGood(s, more, fixed);
      }
    } else {
      var reading, more := s.cachedInfo.varying, [];
      if s.cachedInfo.fixed != fixed {
        more := CachedCanBeServed(s, reading);
      } else {
        var t :| !s.Carries(t, fixed);
        more := OtherCanBeServed(s, t, fixed, reading);
      }
      assert !ServedSince(s, s.Run(more).value, fixed);
    }
  }
}
