/** What the rates of concurrent disk collections add up to. */
module DiskRates {
  import opened Counters
  import opened DiskCollector
  import opened DiskMetrics
  import opened GoStrings
  import opened Goroutines
  import opened Wrappers

  // ---- The chain of previous and current readings ----

  /**
   However the collections interleave, their swaps form one chain: each takes out what the one before
   it put in, at that one's time, and no sample is put in twice, so none is ever used twice as predecessor.
   */
  lemma SwapsFormOneChain(cacheDuration: int, events: seq<Event>, s: State)
    requires NewCollector(cacheDuration).Run(events) == Some(s)
    ensures && (forall k :: 0 < k < |s.links| ==>
                  && s.links[k].previous == s.links[k - 1].current
                  && s.links[k].previousTime == Some(s.links[k - 1].at)
                  && s.links[k - 1].at <= s.links[k].at)
            && (forall j, k :: 0 <= j < k < |s.links| ==> s.links[j].sample != s.links[k].sample)
            && (forall k :: 0 <= k < |s.links| ==>
                  s.links[k].sample < |s.samples| && s.links[k].current == s.samples[s.links[k].sample].readings)
  {
    Reachable(cacheDuration, events);
    forall k | 0 < k < |s.links|
      ensures s.links[k].previous == s.links[k - 1].current && s.links[k].previousTime == Some(s.links[k - 1].at)
      ensures s.links[k - 1].at <= s.links[k].at
    {
      assert s.LinkInv(k);
    }
    forall j, k | 0 <= j < k < |s.links| ensures s.links[j].sample != s.links[k].sample {
      assert s.UsedOnce(j, k);
    }
    forall k | 0 <= k < |s.links|
      ensures s.links[k].sample < |s.samples| && s.links[k].current == s.samples[s.links[k].sample].readings
    {
      assert s.LinkInv(k);
    }
  }

  ghost predicate Present(s: State, key: string, lo: nat, hi: nat) {
    lo <= hi < |s.links| && forall k :: lo <= k <= hi ==> key in s.links[k].current
  }

  /** What the collections of the chain read for one counter. */
  ghost function Chain(s: State, key: string, flow: Flow, lo: nat, hi: nat): (r: seq<Uint64>)
    requires Present(s, key, lo, hi)
    ensures |r| == hi - lo + 1 && forall i :: 0 <= i < |r| ==> r[i] == s.links[lo + i].current[key].Of(flow)
  {
    seq<Uint64>(hi - lo + 1, i requires 0 <= i < hi - lo + 1 => s.links[lo + i].current[key].Of(flow))
  }

  /** The report has a row that takes its counters from `key`, and that row shows `rate`. */
  ghost predicate Displays(r: Report, key: string, flow: Flow, rate: real)
    requires |r.answers| == |r.partitions|
  {
    exists i :: 0 <= i < |r.partitions| && RowDisplays(r, i, key, flow, rate)
  }

  ghost predicate RowDisplays(r: Report, i: nat, key: string, flow: Flow, rate: real)
    requires i < |r.partitions| == |r.answers|
  {
    && !Ignored(r.partitions[i].fsType)
    && IoKey(Base(r.partitions[i].device), r.answers[i].block, r.comparison.current) == Some(key)
    && Position(r.partitions, i) < |r.metrics|
    && r.metrics[Position(r.partitions, i)].io.PerSec(flow) == rate
  }

  /** `shown[k]` is what collection `lo + 1 + k` displays; all of them have been computed. */
  ghost predicate Shown(s: State, key: string, flow: Flow, lo: nat, shown: seq<real>) {
    forall k :: 0 <= k < |shown| ==> ShownAt(s, key, flow, lo + 1 + k, shown[k])
  }

  ghost predicate ShownAt(s: State, key: string, flow: Flow, link: nat, rate: real) {
    link in s.reports && |s.reports[link].answers| == |s.reports[link].partitions|
        && Displays(s.reports[link], key, flow, rate)
  }

  /** The displayed rates, each times the seconds it was computed with. */
  ghost function Amounts(s: State, lo: nat, shown: seq<real>): (r: seq<real>)
    ensures |r| == |shown| && forall k :: 0 <= k < |r| ==> r[k] == shown[k] * s.SecondsOf(lo + 1 + k)
  {
    seq(|shown|, k requires 0 <= k < |shown| => shown[k] * s.SecondsOf(lo + 1 + k))
  }

  ghost function Transferred(s: State, lo: nat, shown: seq<real>): real {
    Sum(Amounts(s, lo, shown))
  }

  /** A report computed as the collector does: whatever of its rows displays `key` displays the rate of `key`. */
  ghost predicate Computed(r: Report) {
    && |r.answers| == |r.partitions| && r.comparison.seconds > 0.0
    && r.metrics == RowsOf(r.partitions, r.answers, r.comparison)
  }

  lemma RowRate(r: Report, i: nat, key: string, flow: Flow, rate: real)
    requires Computed(r) && i < |r.partitions| && RowDisplays(r, i, key, flow, rate)
    ensures key in r.comparison.current && rate == r.comparison.Rate(key, flow)
  {
    RowsInOrder(r.partitions, r.answers, r.comparison, i);
    RowShowsRate(r.partitions[i], r.answers[i], r.comparison, flow);
  }

  lemma DisplayedRate(r: Report, key: string, flow: Flow, rate: real)
    requires Computed(r) && Displays(r, key, flow, rate)
    ensures key in r.comparison.current && rate == r.comparison.Rate(key, flow)
  {
    var i: nat :| i < |r.partitions| && RowDisplays(r, i, key, flow, rate);
    RowRate(r, i, key, flow, rate);
  }

  /** A later collection compares neighbours of the chain. */
  lemma ComparesNeighbours(s: State, k: nat)
    requires s.LinkInv(k) && s.ReportInv(k) && k > 0 && k in s.reports
    ensures k < |s.links| && Computed(s.reports[k])
    ensures var c := s.reports[k].comparison;
            && c.previous == s.links[k - 1].current && c.current == s.links[k].current && !c.first
            && c.seconds == s.SecondsOf(k)
  {
  }

  /** A report of neighbours shows the rate of what they read. */
  lemma ShownRate(s: State, key: string, flow: Flow, k: nat, rate: real)
    requires s.LinkInv(k) && s.ReportInv(k) && k > 0 && ShownAt(s, key, flow, k, rate)
    ensures k < |s.links| && s.SecondsOf(k) > 0.0 && key in s.links[k].current
    ensures rate == Comparison(s.links[k - 1].current, s.links[k].current, false, s.SecondsOf(k)).Rate(key, flow)
  {
    ComparesNeighbours(s, k);
    DisplayedRate(s.reports[k], key, flow, rate);
  }

  /** One displayed rate, multiplied back, is the difference of two neighbours in the chain. */
  lemma DisplayedDelta(s: State, key: string, flow: Flow, k: nat, rate: real)
    requires s.LinkInv(k) && s.ReportInv(k) && 0 < k < |s.links|
    requires key in s.links[k - 1].current && key in s.links[k].current
    requires ShownAt(s, key, flow, k, rate)
    ensures rate * s.SecondsOf(k) ==
            Delta(s.links[k - 1].current[key].Of(flow), s.links[k].current[key].Of(flow)) as real
  {
    ShownRate(s, key, flow, k, rate);
    var c := Comparison(s.links[k - 1].current, s.links[k].current, false, s.SecondsOf(k));
    RateTimesSeconds(c, key, flow, rate);
  }

  lemma AmountIsDelta(s: State, key: string, flow: Flow, lo: nat, shown: seq<real>, k: nat)
    requires k < |shown| && Present(s, key, lo, lo + |shown|) && ShownAt(s, key, flow, lo + 1 + k, shown[k])
    requires s.LinkInv(lo + 1 + k) && s.ReportInv(lo + 1 + k)
    ensures IsDelta(Chain(s, key, flow, lo, lo + |shown|), Amounts(s, lo, shown), k)
  {
    DisplayedDelta(s, key, flow, lo + 1 + k, shown[k]);
  }

  lemma AmountsAreDeltas(s: State, key: string, flow: Flow, lo: nat, shown: seq<real>)
    requires (forall k: nat :: s.LinkInv(k)) && (forall k: nat :: s.ReportInv(k))
    requires Present(s, key, lo, lo + |shown|) && Shown(s, key, flow, lo, shown)
    ensures AreDeltas(Chain(s, key, flow, lo, lo + |shown|), Amounts(s, lo, shown))
  {
    var chain, parts := Chain(s, key, flow, lo, lo + |shown|), Amounts(s, lo, shown);
    forall k: nat ensures IsDelta(chain, parts, k) {
      if k < |shown| {
        AmountIsDelta(s, key, flow, lo, shown, k);
      }
    }
  }

  lemma AmountsSum(s: State, key: string, flow: Flow, lo: nat, shown: seq<real>)
    requires (forall k: nat :: s.LinkInv(k)) && (forall k: nat :: s.ReportInv(k))
    requires Present(s, key, lo, lo + |shown|) && Shown(s, key, flow, lo, shown)
    ensures Transferred(s, lo, shown) == DeltaSum(Chain(s, key, flow, lo, lo + |shown|)) as real
  {
    AmountsAreDeltas(s, key, flow, lo, shown);
    DeltasAddUp(Chain(s, key, flow, lo, lo + |shown|), Amounts(s, lo, shown));
  }

  /**
   In every interleaving, for a device present throughout, the displayed rates times their durations add
   up to last minus first reading mod 2^64, and to exactly that number just when the readings ascend in swap order.
   */
  lemma RatesAddUp(cacheDuration: int, events: seq<Event>, s: State, key: string, flow: Flow, lo: nat, shown: seq<real>)
    requires NewCollector(cacheDuration).Run(events) == Some(s)
    requires Present(s, key, lo, lo + |shown|) && Shown(s, key, flow, lo, shown)
    ensures var chain := Chain(s, key, flow, lo, lo + |shown|);
            && Transferred(s, lo, shown) == DeltaSum(chain) as real
            && DeltaSum(chain) % WRAP == Delta(chain[0], chain[|shown|])
            && (chain[0] as real + Transferred(s, lo, shown) == chain[|shown|] as real <==> Ascending(chain))
  {
    Reachable(cacheDuration, events);
    AmountsSum(s, key, flow, lo, shown);
    ChainSum(Chain(s, key, flow, lo, lo + |shown|));
  }

  /** The swaps come in the order in which the samples were taken. */
  ghost predicate Serialised(s: State) {
    forall i, j :: 0 <= i < j < |s.links| ==> s.links[i].sample < s.links[j].sample
  }

  // ---- The true counter behind the readings ----

  /** Between swaps `lo` and `hi` the reading of each sample is the low 64 bits of where the counter stood. */
  ghost predicate ReadsCounter(s: State, key: string, flow: Flow, lo: nat, hi: nat, stand: nat -> int)
    requires Present(s, key, lo, hi)
  {
    forall k :: lo <= k <= hi ==> ReadsCounterAt(s, key, flow, k, stand)
  }

  ghost predicate ReadsCounterAt(s: State, key: string, flow: Flow, k: nat, stand: nat -> int)
    requires k < |s.links| && key in s.links[k].current
  {
    s.links[k].current[key].Of(flow) == stand(s.links[k].sample) % WRAP
  }

  /** Where the counter stood, in swap order. */
  ghost function Stands(s: State, lo: nat, hi: nat, stand: nat -> int): (t: seq<int>)
    requires lo <= hi < |s.links|
    ensures |t| == hi - lo + 1 && forall i :: 0 <= i < |t| ==> t[i] == stand(s.links[lo + i].sample)
  {
    seq<int>(hi - lo + 1, i requires 0 <= i < hi - lo + 1 => stand(s.links[lo + i].sample))
  }

  /** The swaps from `lo` to `hi` come in the order in which their samples were taken. */
  ghost predicate SerialisedWithin(s: State, lo: nat, hi: nat)
    requires hi < |s.links|
  {
    forall i, j :: lo <= i < j <= hi ==> s.links[i].sample < s.links[j].sample
  }

  /** Over the samples swapped in from `lo` to `hi`, the counter has not gone back. */
  ghost predicate NeverBack(s: State, lo: nat, hi: nat, stand: nat -> int)
    requires hi < |s.links|
  {
    forall i, j :: lo <= i <= hi && lo <= j <= hi ==> InCounterOrder(s.links[i].sample, s.links[j].sample, stand)
  }

  predicate InCounterOrder(a: nat, b: nat, stand: nat -> int) {
    a <= b ==> stand(a) <= stand(b)
  }

  lemma StandsAreRead(s: State, key: string, flow: Flow, lo: nat, hi: nat, stand: nat -> int)
    requires Present(s, key, lo, hi) && ReadsCounter(s, key, flow, lo, hi, stand)
    ensures AreReadingsOf(Chain(s, key, flow, lo, hi), Stands(s, lo, hi, stand))
  {
    var chain, t := Chain(s, key, flow, lo, hi), Stands(s, lo, hi, stand);
    forall i | 0 <= i < |t| ensures chain[i] == t[i] % WRAP {
      assert ReadsCounterAt(s, key, flow, lo + i, stand);
    }
  }

  lemma SerialisedStandsGrow(s: State, lo: nat, hi: nat, stand: nat -> int)
    requires lo <= hi < |s.links| && SerialisedWithin(s, lo, hi) && NeverBack(s, lo, hi, stand)
    ensures Grows(Stands(s, lo, hi, stand))
  {
    var t := Stands(s, lo, hi, stand);
    forall i, j | 0 <= i <= j < |t| ensures t[i] <= t[j] {
      assert i < j ==> s.links[lo + i].sample < s.links[lo + j].sample;
      assert InCounterOrder(s.links[lo + i].sample, s.links[lo + j].sample, stand);
    }
  }

  lemma StateAgainstCounter(s: State, key: string, flow: Flow, lo: nat, shown: seq<real>, stand: nat -> int)
    requires (forall k: nat :: s.LinkInv(k)) && (forall k: nat :: s.ReportInv(k))
    requires Present(s, key, lo, lo + |shown|) && Shown(s, key, flow, lo, shown)
    requires ReadsCounter(s, key, flow, lo, lo + |shown|, stand)
    ensures var t := Stands(s, lo, lo + |shown|, stand);
            && Transferred(s, lo, shown) == (t[|shown|] - t[0] - WRAP * Turns(t)) as real
            && (Turns(t) == 0 <==> Transferred(s, lo, shown) == (t[|shown|] - t[0]) as real)
            && (Grows(t) ==> (Turns(t) == 0 <==> ShortSteps(t)))
            && (ShortSteps(t) ==> (Turns(t) == 0 <==> Grows(t)))
            && (Grows(t) && t[|shown|] - t[0] < WRAP ==> Turns(t) == 0)
  {
    var t, chain := Stands(s, lo, lo + |shown|, stand), Chain(s, key, flow, lo, lo + |shown|);
    StandsAreRead(s, key, flow, lo, lo + |shown|, stand);
    AmountsSum(s, key, flow, lo, shown);
    SumOfSteps(chain, t);
    TrueGrowth(chain, t);
    TurnsVanish(DeltaSum(chain), t[|shown|] - t[0], Turns(t));
  }

  /**
   Whatever the interleaving and however often the counter wraps: the displayed amounts differ from its true
   growth by whole turns. If no two neighbours of the chain are a turn apart, they show the true growth exactly
   when no swap goes against the counter.
   */
  lemma AmountsAgainstCounter(cacheDuration: int, events: seq<Event>, s: State, key: string, flow: Flow, lo: nat,
                              shown: seq<real>, stand: nat -> int)
    requires NewCollector(cacheDuration).Run(events) == Some(s)
    requires && Present(s, key, lo, lo + |shown|) && Shown(s, key, flow, lo, shown)
             && ReadsCounter(s, key, flow, lo, lo + |shown|, stand)
    ensures var t := Stands(s, lo, lo + |shown|, stand);
            && Transferred(s, lo, shown) == (t[|shown|] - t[0] - WRAP * Turns(t)) as real
            && (ShortSteps(t) ==> (Transferred(s, lo, shown) == (t[|shown|] - t[0]) as real <==> Grows(t)))
  {
    Reachable(cacheDuration, events);
    StateAgainstCounter(s, key, flow, lo, shown, stand);
  }

  /**
   Swaps in sampling order, over a counter that has not gone back between them but may have passed 2^64 any number
   of times: the displayed amounts add up to its true growth exactly when no two neighbouring samples are a whole
   turn apart. A total growth below 2^64 is enough.
   */
  lemma SerialisedSamplingIsExact(cacheDuration: int, events: seq<Event>, s: State, key: string, flow: Flow, lo: nat,
                                  shown: seq<real>, stand: nat -> int)
    requires NewCollector(cacheDuration).Run(events) == Some(s)
    requires var hi := lo + |shown|;
             && Present(s, key, lo, hi) && Shown(s, key, flow, lo, shown)
             && ReadsCounter(s, key, flow, lo, hi, stand)
             && SerialisedWithin(s, lo, hi) && NeverBack(s, lo, hi, stand)
    ensures var t := Stands(s, lo, lo + |shown|, stand);
            && (Transferred(s, lo, shown) == (t[|shown|] - t[0]) as real <==> ShortSteps(t))
            && (t[|shown|] - t[0] < WRAP ==> Transferred(s, lo, shown) == (t[|shown|] - t[0]) as real)
  {
    Reachable(cacheDuration, events);
    SerialisedStandsGrow(s, lo, lo + |shown|, stand);
    StateAgainstCounter(s, key, flow, lo, shown, stand);
  }

  predicate Only(t: ThreadId, e: Event) {
    e.ClockTicks? || e.thread == t
  }

  ghost predicate AllBefore(s: State, sample: nat) {
    forall k :: 0 <= k < |s.links| ==> s.links[k].sample < sample
  }

  ghost predicate InTurn(s: State, t: ThreadId) {
    Serialised(s) && AllBefore(s, if s.Pc(t).Swapping? then s.Pc(t).sample else |s.samples|)
  }

  lemma StaysInTurn(s: State, e: Event, t: ThreadId)
    requires s.Inv() && InTurn(s, t) && Only(t, e) && s.Step(e).Some?
    ensures InTurn(s.Step(e).value, t)
  {
    assert s.ThreadInv(t);
    Touches(s, e);
  }

  /** While only one thread collects, sampling is serialised. */
  lemma {:induction false} OneCollectorSerialises(cacheDuration: int, events: seq<Event>, t: ThreadId)
    requires NewCollector(cacheDuration).Run(events).Some?
    requires forall k :: 0 <= k < |events| ==> Only(t, events[k])
    ensures InTurn(NewCollector(cacheDuration).Run(events).value, t)
    decreases |events|
  {
    if events == [] {
    } else {
      var n := |events| - 1;
      OneCollectorSerialises(cacheDuration, events[..n], t);
      Reachable(cacheDuration, events[..n]);
      StaysInTurn(NewCollector(cacheDuration).Run(events[..n]).value, events[n], t);
    }
  }

  // ---- Why serialised sampling is needed ----

  function Reading(key: string, n: Uint64): Readings {
    map[key := IoCounters(n, n, n, n, 0, 0, 0, 0)]
  }

  lemma Extend(cacheDuration: int, events: seq<Event>, s: State, e: Event) returns (more: seq<Event>, next: State)
    requires NewCollector(cacheDuration).Run(events) == Some(s) && s.Step(e).Some?
    ensures NewCollector(cacheDuration).Run(more) == Some(next) && Some(next) == s.Step(e)
  {
    more, next := events + [e], s.Step(e).value;
    assert more[..|more| - 1] == events;
  }

  /** A collection up to the point where it holds a reading it has not swapped in. */
  lemma TakeSample(cacheDuration: int, before: seq<Event>, start: State, t: ThreadId, p: Partition, readings: Readings)
    returns (events: seq<Event>, s: State)
    requires NewCollector(cacheDuration).Run(before) == Some(start) && start.Pc(t).Idle?
    ensures NewCollector(cacheDuration).Run(events) == Some(s)
    ensures s.samples == start.samples + [Sample(readings, t)] && s.links == start.links && s.reports == start.reports
    ensures s.publications == start.publications && s.clock == start.clock
    ensures s.Pc(t).Swapping? && s.Pc(t).partitions == [p] && s.Pc(t).sample == |start.samples|
    ensures forall u :: u != t ==> s.Pc(u) == start.Pc(u)
  {
    events, s := Extend(cacheDuration, before, start, BackgroundRound(t));
    events, s := Extend(cacheDuration, events, s, Lists(t, Some([p])));
    events, s := Extend(cacheDuration, events, s, Samples(t, Some(readings)));
  }

  /** The rest of that collection, up to its rows. */
  lemma SwapAndBuild(cacheDuration: int, before: seq<Event>, start: State, t: ThreadId, p: Partition, answer: Answer)
    returns (events: seq<Event>, s: State)
    requires NewCollector(cacheDuration).Run(before) == Some(start)
    requires start.Pc(t).Swapping? && start.Pc(t).partitions == [p] && start.Pc(t).sample < |start.samples|
    ensures NewCollector(cacheDuration).Run(events) == Some(s) && s.samples == start.samples
    ensures |s.links| == |start.links| + 1 && start.links <= s.links
    ensures s.links[|start.links|].current == start.samples[start.Pc(t).sample].readings
    ensures s.links[|start.links|].sample == start.Pc(t).sample
    ensures |start.links| in s.reports
    ensures var r := s.reports[|start.links|];
            r.partitions == [p] && r.answers == [answer] && s.reports == start.reports[|start.links| := r]
    ensures s.publications == start.publications && s.clock == start.clock
    ensures s.links[|start.links|].at == start.clock
    ensures s.Pc(t).Publishing? && s.Pc(t).link == |start.links| && s.Pc(t).metrics == s.reports[|start.links|].metrics
    ensures forall u :: u != t ==> s.Pc(u) == start.Pc(u)
  {
    events, s := Extend(cacheDuration, before, start, Swaps(t));
    events, s := Extend(cacheDuration, events, s, Measures(t));
    events, s := Extend(cacheDuration, events, s, Builds(t, [answer]));
  }

  /** A partition whose device has counters is displayed. */
  lemma DisplaysOwnDevice(s: State, k: nat, p: Partition, answer: Answer, flow: Flow)
    requires s.ReportInv(k) && k in s.reports && s.reports[k].partitions == [p] && s.reports[k].answers == [answer]
    requires k < |s.links| && Base(p.device) in s.links[k].current && answer.block == Base(p.device)
             && !Ignored(p.fsType)
    ensures ShownAt(s, answer.block, flow, k, s.reports[k].comparison.Rate(answer.block, flow))
  {
    var r := s.reports[k];
    RowsInOrder(r.partitions, r.answers, r.comparison, 0);
    RowShowsRate(p, answer, r.comparison, flow);
    assert RowDisplays(r, 0, answer.block, flow, r.comparison.Rate(answer.block, flow));
  }

  ghost predicate Built(s: State, k: nat, p: Partition, answer: Answer) {
    k in s.reports && s.reports[k].partitions == [p] && s.reports[k].answers == [answer]
  }

  /** One collection, then two that overlap: the one that samples first swaps last. */
  lemma OverlappingRun(cacheDuration: int, p: Partition, answer: Answer, first: Readings, second: Readings,
      third: Readings)
    returns (events: seq<Event>, s: State)
    ensures NewCollector(cacheDuration).Run(events) == Some(s)
    ensures s.samples == [Sample(first, 0), Sample(second, 1), Sample(third, 2)]
    ensures |s.links| == 3
    ensures s.links[0].current == first && s.links[1].current == third && s.links[2].current == second
    ensures s.links[0].sample == 0 && s.links[1].sample == 2 && s.links[2].sample == 1
    ensures Built(s, 1, p, answer) && Built(s, 2, p, answer)
  {
    events, s := [], NewCollector(cacheDuration);
    events, s := TakeSample(cacheDuration, events, s, 0, p, first);
    events, s := SwapAndBuild(cacheDuration, events, s, 0, p, answer);
    events, s := TakeSample(cacheDuration, events, s, 1, p, second);
    events, s := TakeSample(cacheDuration, events, s, 2, p, third);
    events, s := SwapAndBuild(cacheDuration, events, s, 2, p, answer);
    events, s := SwapAndBuild(cacheDuration, events, s, 1, p, answer);
  }

  lemma OutOfOrderSum(chain: seq<Uint64>)
    requires chain == [0, 200, 100]
    ensures DeltaSum(chain) == 100 + WRAP
  {
    var two: seq<Uint64>, one: seq<Uint64> := [0, 200], [0];
    assert chain[..2] == two && two[..1] == one;
    assert DeltaSum(two) == DeltaSum(one) + Delta(0, 200);
    DeltaCases(0, 200);
    DeltaCases(200, 100);
  }

  lemma OverlapChain(s: State, key: string, flow: Flow)
    requires s.samples == [Sample(Reading(key, 0), 0), Sample(Reading(key, 100), 1), Sample(Reading(key, 200), 2)]
    requires |s.links| == 3 && s.links[0].current == Reading(key, 0)
    requires s.links[1].current == Reading(key, 200) && s.links[2].current == Reading(key, 100)
    requires s.links[0].sample == 0 && s.links[1].sample == 2 && s.links[2].sample == 1
    ensures Present(s, key, 0, 2) && Chain(s, key, flow, 0, 2) == [0, 200, 100]
    ensures ReadsCounter(s, key, flow, 0, 2, Hundreds) && NeverBack(s, 0, 2, Hundreds)
  {
    assert Hundreds(0) == 0 && Hundreds(1) == 100 && Hundreds(2) == 200;
  }

  /** A counter that grows by 100 from sample to sample. */
  function Hundreds(sample: nat): int {
    100 * sample
  }

  /**
   Two overlapping collections can swap in the order opposite to their sampling. The counter reads 0, 100 and
   200, is swapped in as 0, 200, 100, and the displayed rates add up to 2^64 more than the 100 between the ends.
   */
  lemma OverlappingCollectionsOvercount(cacheDuration: int, p: Partition, flow: Flow)
    returns (events: seq<Event>, shown: seq<real>)
    requires !Ignored(p.fsType)
    ensures NewCollector(cacheDuration).Run(events).Some?
    ensures var s, key := NewCollector(cacheDuration).Run(events).value, Base(p.device);
            && |shown| == 2 && Present(s, key, 0, 2) && Shown(s, key, flow, 0, shown)
            && ReadsCounter(s, key, flow, 0, 2, Hundreds) && NeverBack(s, 0, 2, Hundreds)
            && Chain(s, key, flow, 0, 2) == [0, 200, 100]
            && Transferred(s, 0, shown) == (100 + WRAP) as real
  {
    var key := Base(p.device);
    var answer, s := Answer(None, key, "", ""), NewCollector(cacheDuration);
    events, s := OverlappingRun(cacheDuration, p, answer, Reading(key, 0), Reading(key, 100), Reading(key, 200));
    Reachable(cacheDuration, events);
    OverlapChain(s, key, flow);
    shown := RatesOfRun(s, p, answer, flow);
    RatesAddUp(cacheDuration, events, s, key, flow, 0, shown);
    OutOfOrderSum(Chain(s, key, flow, 0, 2));
  }

  lemma RatesOfRun(s: State, p: Partition, answer: Answer, flow: Flow) returns (shown: seq<real>)
    requires (forall k: nat :: s.ReportInv(k)) && Built(s, 1, p, answer) && Built(s, 2, p, answer)
    requires answer.block == Base(p.device) && !Ignored(p.fsType) && Present(s, answer.block, 0, 2)
    ensures |shown| == 2 && Shown(s, answer.block, flow, 0, shown)
  {
    assert s.ReportInv(1) && s.ReportInv(2);
    DisplaysOwnDevice(s, 1, p, answer, flow);
    DisplaysOwnDevice(s, 2, p, answer, flow);
    shown := [s.reports[1].comparison.Rate(answer.block, flow), s.reports[2].comparison.Rate(answer.block, flow)];
  }

  // ---- A slow collection can publish last ----

  /** Collection `k` by thread `t` has computed its rows from `current` and is about to publish them. */
  ghost predicate Ready(s: State, t: ThreadId, k: nat, current: Readings) {
    && k < |s.links| && s.links[k].current == current && k in s.reports
    && s.Pc(t).Publishing? && s.Pc(t).link == k && s.Pc(t).metrics == s.reports[k].metrics
  }

  lemma CollectAlone(cacheDuration: int, before: seq<Event>, start: State, t: ThreadId, p: Partition, answer: Answer,
                     readings: Readings)
    returns (events: seq<Event>, s: State)
    requires NewCollector(cacheDuration).Run(before) == Some(start) && start.Pc(t).Idle?
    ensures NewCollector(cacheDuration).Run(events) == Some(s)
    ensures Ready(s, t, |start.links|, readings) && |s.links| == |start.links| + 1 && start.links <= s.links
    ensures s.links[|start.links|].at == start.clock && s.clock == start.clock && s.publications == start.publications
    ensures forall k :: k in start.reports && k != |start.links| ==> k in s.reports && s.reports[k] == start.reports[k]
    ensures forall u :: u != t ==> s.Pc(u) == start.Pc(u)
  {
    events, s := TakeSample(cacheDuration, before, start, t, p, readings);
    events, s := SwapAndBuild(cacheDuration, events, s, t, p, answer);
  }

  lemma Tick(cacheDuration: int, before: seq<Event>, start: State) returns (events: seq<Event>, s: State)
    requires NewCollector(cacheDuration).Run(before) == Some(start)
    ensures NewCollector(cacheDuration).Run(events) == Some(s) && s.clock == start.clock + 1
    ensures s.links == start.links && s.reports == start.reports && s.publications == start.publications
    ensures s.threads == start.threads
  {
    events, s := Extend(cacheDuration, before, start, ClockTicks);
  }

  /** Two collections that have computed their rows, the second one later than the first. */
  lemma BothBuilt(cacheDuration: int, p: Partition, answer: Answer, first: Readings, second: Readings)
    returns (events: seq<Event>, s: State)
    ensures NewCollector(cacheDuration).Run(events) == Some(s)
    ensures |s.links| == 2 && s.links[0].at < s.links[1].at && s.publications == []
    ensures Ready(s, 0, 0, first) && Ready(s, 1, 1, second)
  {
    var ticked;
    events, ticked := OneBuilt(cacheDuration, p, answer, first);
    events, s := CollectAlone(cacheDuration, events, ticked, 1, p, answer, second);
    ReadyStays(ticked, s, 0, 0, first);
  }

  lemma OneBuilt(cacheDuration: int, p: Partition, answer: Answer, first: Readings)
    returns (events: seq<Event>, s: State)
    ensures NewCollector(cacheDuration).Run(events) == Some(s) && Ready(s, 0, 0, first) && s.Pc(1).Idle?
    ensures |s.links| == 1 && s.links[0].at < s.clock && s.publications == []
  {
    var built;
    var start := NewCollector(cacheDuration);
    assert start.Pc(0).Idle? && start.Run([]) == Some(start);
    events, built := CollectAlone(cacheDuration, [], start, 0, p, answer, first);
    assert Ready(built, 0, 0, first) && built.Pc(1).Idle? && built.publications == [];
    events, s := Tick(cacheDuration, events, built);
    assert s.Pc(1) == built.Pc(1) && s.Pc(0) == built.Pc(0);
    ReadyStays(built, s, 0, 0, first);
  }

  lemma ReadyStays(s: State, next: State, t: ThreadId, k: nat, current: Readings)
    requires Ready(s, t, k, current) && s.links <= next.links && next.Pc(t) == s.Pc(t)
    requires k in next.reports && next.reports[k] == s.reports[k]
    ensures Ready(next, t, k, current)
  {
  }

  lemma PublishNow(cacheDuration: int, before: seq<Event>, start: State, t: ThreadId, k: nat, current: Readings)
    returns (events: seq<Event>, s: State)
    requires NewCollector(cacheDuration).Run(before) == Some(start) && Ready(start, t, k, current)
    ensures NewCollector(cacheDuration).Run(events) == Some(s)
    ensures s.links == start.links && s.reports == start.reports && s.cachedMetrics == start.reports[k].metrics
    ensures |s.publications| == |start.publications| + 1 && start.publications <= s.publications
    ensures s.publications[|start.publications|].link == k
    ensures s.cachedTime == Some(s.publications[|start.publications|].at)
    ensures forall u :: u != t ==> s.Pc(u) == start.Pc(u)
  {
    events, s := Extend(cacheDuration, before, start, Publishes(t));
  }

  /** The rows computed from the earlier readings replace those from the later ones, under a later time. */
  lemma SlowCollectionOverwrites(cacheDuration: int, p: Partition, answer: Answer, first: Readings, second: Readings)
    returns (events: seq<Event>, s: State)
    ensures NewCollector(cacheDuration).Run(events) == Some(s)
    ensures |s.links| == 2 && s.links[0].at < s.links[1].at
    ensures s.links[0].current == first && s.links[1].current == second
    ensures |s.publications| == 2 && s.publications[0].link == 1 && s.publications[1].link == 0
    ensures 0 in s.reports && s.cachedMetrics == s.reports[0].metrics && s.cachedTime == Some(s.publications[1].at)
  {
    var built, published;
    events, built := BothBuilt(cacheDuration, p, answer, first, second);
    events, published := PublishNow(cacheDuration, events, built, 1, 1, second);
    events, s := PublishNow(cacheDuration, events, published, 0, 0, first);
  }
}
