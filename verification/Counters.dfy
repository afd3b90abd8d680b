/** Unsigned 64-bit counters and the differences of consecutive readings. */
module Counters {
  const WRAP: int := 0x1_0000_0000_0000_0000

  type Uint64 = n: int | 0 <= n < WRAP

  /** `int64(n)` */
  function AsInt64(n: Uint64): (i: int)
    ensures -0x8000_0000_0000_0000 <= i < 0x8000_0000_0000_0000 && i % 0x1_0000_0000_0000_0000 == n
  {
    if n < WRAP / 2 then n else n - WRAP
  }

  /** `current - previous` on uint64. */
  function Delta(previous: Uint64, current: Uint64): Uint64 {
    (current + WRAP - previous) % WRAP
  }

  lemma DeltaCases(previous: Uint64, current: Uint64)
    ensures Delta(previous, current) == current - previous + (if current < previous then WRAP else 0)
  {
    if current >= previous {
      assert current + WRAP - previous == (current - previous) + WRAP;
    }
  }

  /** The sum of the differences along a chain of readings. */
  function DeltaSum(readings: seq<Uint64>): nat {
    if |readings| <= 1 then 0
    else DeltaSum(readings[..|readings| - 1]) + Delta(readings[|readings| - 2], readings[|readings| - 1])
  }

  /** How often a reading is below the one before it. */
  function Descents(readings: seq<Uint64>): nat {
    if |readings| <= 1 then 0
    else
      Descents(readings[..|readings| - 1])
      + (if readings[|readings| - 1] < readings[|readings| - 2] then 1 else 0)
  }

  /** The chain telescopes; every descent costs one whole wrap. */
  lemma {:induction false} ChainTelescopes(readings: seq<Uint64>)
    requires readings != []
    ensures DeltaSum(readings) == readings[|readings| - 1] - readings[0] + WRAP * Descents(readings)
  {
    if |readings| <= 1 {
    } else {
      ChainTelescopes(readings[..|readings| - 1]);
      DeltaCases(readings[|readings| - 2], readings[|readings| - 1]);
    }
  }

  ghost predicate Ascending(readings: seq<Uint64>) {
    forall i, j :: 0 <= i <= j < |readings| ==> readings[i] <= readings[j]
  }

  lemma {:induction false} NoDescentsExactly(readings: seq<Uint64>)
    ensures Descents(readings) == 0 <==> Ascending(readings)
  {
    if |readings| <= 1 {
    } else {
      var before := readings[..|readings| - 1];
      NoDescentsExactly(before);
      if Ascending(before) && readings[|readings| - 2] <= readings[|readings| - 1] {
        forall i, j | 0 <= i <= j < |readings| ensures readings[i] <= readings[j] {
          assert i < |before| ==> before[i] <= before[|before| - 1];
        }
      }
      if Ascending(readings) {
        forall i, j | 0 <= i <= j < |before| ensures before[i] <= before[j] {
          assert readings[i] <= readings[j];
        }
      }
    }
  }

  /**
   Mod 2^64 the sum is always last minus first. It is that number itself exactly when the readings
   arrive in ascending order.
   */
  lemma ChainSum(readings: seq<Uint64>)
    requires readings != []
    ensures DeltaSum(readings) % WRAP == Delta(readings[0], readings[|readings| - 1])
    ensures readings[0] + DeltaSum(readings) == readings[|readings| - 1] <==> Ascending(readings)
  {
    ChainTelescopes(readings);
    NoDescentsExactly(readings);
    DeltaCases(readings[0], readings[|readings| - 1]);
    var first: int, last: int := readings[0], readings[|readings| - 1];
    ModWraps(last - first, Descents(readings));
  }

  lemma ModWraps(growth: int, wraps: nat)
    requires 0 - WRAP < growth < WRAP
    ensures (growth + WRAP * wraps) % WRAP == if growth < 0 then growth + WRAP else growth
  {
    if wraps > 0 {
      ModWraps(growth, wraps - 1);
      assert growth + WRAP * wraps == (growth + WRAP * (wraps - 1)) + WRAP;
    }
  }

  // ---- Counters that never go back, and the width they are read at ----

  /** `t[k]` is what the counter really stands at when it is read; the reading keeps its low 64 bits. */
  ghost predicate AreReadingsOf(readings: seq<Uint64>, t: seq<int>) {
    |readings| == |t| && forall k :: 0 <= k < |t| ==> readings[k] == t[k] % WRAP
  }

  /** The whole wraps each step makes, those backwards counted negatively. */
  ghost function Turns(t: seq<int>): int {
    if |t| <= 1 then 0 else Turns(t[..|t| - 1]) + (t[|t| - 1] - t[|t| - 2]) / WRAP
  }

  lemma DeltaOfStep(before: int, after: int)
    ensures Delta(before % WRAP, after % WRAP) == (after - before) % WRAP
  {
    var p: Uint64, c: Uint64 := before % WRAP, after % WRAP;
    DeltaCases(p, c);
    var d, step := Delta(p, c), after - before;
    var turns := after / WRAP - before / WRAP - (if c < p then 1 else 0);
    assert step == turns * WRAP + d;
    RemainderIsUnique(step, turns, d);
  }

  lemma RemainderIsUnique(x: int, q: int, r: int)
    requires x == q * WRAP + r && 0 <= r < WRAP
    ensures x / WRAP == q && x % WRAP == r
  {
    var q', r' := x / WRAP, x % WRAP;
    assert x == q' * WRAP + r';
    assert (q - q') * WRAP == r' - r;
  }

  /** The differences sum to the true growth, less the whole turns that no single difference can show. */
  lemma {:induction false} SumOfSteps(readings: seq<Uint64>, t: seq<int>)
    requires AreReadingsOf(readings, t) && t != []
    ensures DeltaSum(readings) == t[|t| - 1] - t[0] - WRAP * Turns(t)
  {
    if |t| == 1 {
    } else {
      var n := |t| - 1;
      SumOfSteps(readings[..n], t[..n]);
      DeltaOfStep(t[n - 1], t[n]);
    }
  }

  ghost predicate Grows(t: seq<int>) {
    forall i, j :: 0 <= i <= j < |t| ==> t[i] <= t[j]
  }

  ghost predicate ShortStep(t: seq<int>, k: nat) {
    0 < k < |t| ==> -WRAP < t[k] - t[k - 1] < WRAP
  }

  /** No two neighbouring readings are a whole turn apart. */
  ghost predicate ShortSteps(t: seq<int>) {
    forall k: nat :: ShortStep(t, k)
  }

  lemma {:induction false} TurnsOfGrowing(t: seq<int>)
    requires Grows(t)
    ensures Turns(t) >= 0 && (Turns(t) == 0 <==> ShortSteps(t))
  {
    if |t| <= 1 {
    } else {
      var n := |t| - 1;
      var before := t[..n];
      TurnsOfGrowing(before);
      assert ShortStep(t, n) <==> (t[n] - t[n - 1]) / WRAP == 0;
      ShortStepsSnoc(t);
    }
  }

  lemma ShortStepsSnoc(t: seq<int>)
    requires |t| > 1
    ensures ShortSteps(t) <==> ShortSteps(t[..|t| - 1]) && ShortStep(t, |t| - 1)
  {
    var before := t[..|t| - 1];
    forall k: nat ensures k < |before| ==> (ShortStep(t, k) <==> ShortStep(before, k)) {
    }
    if ShortSteps(t) {
      forall k: nat ensures ShortStep(before, k) {
        assert ShortStep(t, k);
      }
    }
    if ShortSteps(before) && ShortStep(t, |t| - 1) {
      forall k: nat ensures ShortStep(t, k) {
        assert ShortStep(before, k);
      }
    }
  }

  lemma {:induction false} TurnsOfShortSteps(t: seq<int>)
    requires ShortSteps(t)
    ensures Turns(t) <= 0 && (Turns(t) == 0 <==> Grows(t))
  {
    if |t| <= 1 {
    } else {
      var n := |t| - 1;
      var before := t[..n];
      ShortStepsSnoc(t);
      TurnsOfShortSteps(before);
      assert ShortStep(t, n);
      assert (t[n] - t[n - 1]) / WRAP == if t[n] >= t[n - 1] then 0 else -1;
      GrowsSnoc(t);
    }
  }

  lemma GrowsSnoc(t: seq<int>)
    requires |t| > 1
    ensures Grows(t) <==> Grows(t[..|t| - 1]) && t[|t| - 2] <= t[|t| - 1]
  {
    var before := t[..|t| - 1];
    if Grows(before) && t[|t| - 2] <= t[|t| - 1] {
      forall i, j | 0 <= i <= j < |t| ensures t[i] <= t[j] {
        assert i < |before| ==> before[i] <= before[|before| - 1];
        assert j < |before| ==> before[i] <= before[j];
      }
    }
    if Grows(t) {
      forall i, j | 0 <= i <= j < |before| ensures before[i] <= before[j] {
        assert t[i] <= t[j];
      }
    }
  }

  /**
   The differences of a counter read at 64 bits, however often it wraps in between. If it never goes back, they
   sum to its true growth exactly when no single step is a whole turn; if no step is, exactly when it never goes back.
   */
  lemma TrueGrowth(readings: seq<Uint64>, t: seq<int>)
    requires AreReadingsOf(readings, t) && t != []
    ensures DeltaSum(readings) % WRAP == (t[|t| - 1] - t[0]) % WRAP
    ensures Grows(t) ==> (DeltaSum(readings) == t[|t| - 1] - t[0] <==> ShortSteps(t))
    ensures ShortSteps(t) ==> (DeltaSum(readings) == t[|t| - 1] - t[0] <==> Grows(t))
    ensures Grows(t) && t[|t| - 1] - t[0] < WRAP ==> DeltaSum(readings) == t[|t| - 1] - t[0]
  {
    SumOfSteps(readings, t);
    var growth, sum := t[|t| - 1] - t[0], DeltaSum(readings);
    assert growth == (sum / WRAP + Turns(t)) * WRAP + sum % WRAP;
    RemainderIsUnique(growth, sum / WRAP + Turns(t), sum % WRAP);
    if ShortSteps(t) {
      TurnsOfShortSteps(t);
    }
    if Grows(t) {
      TurnsOfGrowing(t);
      if growth < WRAP {
        forall k: nat ensures ShortStep(t, k) {
          assert 0 < k < |t| ==> t[0] <= t[k - 1] <= t[k] <= t[|t| - 1];
        }
      }
    }
  }

  /** What a per-second figure is computed from, and what multiplying it back gives. */
  function PerSecond(delta: Uint64, seconds: real): real
    requires seconds > 0.0
  {
    delta as real / seconds
  }

  lemma RateTimesDuration(delta: Uint64, seconds: real)
    requires seconds > 0.0
    ensures PerSecond(delta, seconds) * seconds == delta as real
  {
  }

  function Sum(parts: seq<real>): real {
    if parts == [] then 0.0 else Sum(parts[..|parts| - 1]) + parts[|parts| - 1]
  }

  /** Parts that are each the difference of two neighbouring readings. */
  ghost predicate AreDeltas(readings: seq<Uint64>, parts: seq<real>) {
    |readings| == |parts| + 1 && forall k: nat :: IsDelta(readings, parts, k)
  }

  ghost predicate IsDelta(readings: seq<Uint64>, parts: seq<real>, k: nat)
    requires |readings| == |parts| + 1
  {
    k < |parts| ==> parts[k] == Delta(readings[k], readings[k + 1]) as real
  }

  lemma {:induction false} DeltasAddUp(readings: seq<Uint64>, parts: seq<real>)
    requires AreDeltas(readings, parts)
    ensures Sum(parts) == DeltaSum(readings) as real
  {
    if parts == [] {
    } else {
      var readings', parts' := readings[..|parts|], parts[..|parts| - 1];
      forall k: nat ensures IsDelta(readings', parts', k) {
        assert IsDelta(readings, parts, k);
      }
      assert IsDelta(readings, parts, |parts'|);
      DeltasAddUp(readings', parts');
    }
  }

  lemma {:induction false} SumSplits(whole: seq<real>, part: seq<real>, rest: seq<real>)
    requires |whole| == |part| == |rest| && forall k :: 0 <= k < |whole| ==> whole[k] == part[k] + rest[k]
    ensures Sum(whole) == Sum(part) + Sum(rest)
  {
    if whole == [] {
    } else {
      var n := |whole| - 1;
      SumSplits(whole[..n], part[..n], rest[..n]);
    }
  }

  /** A sum of amounts that are not negative vanishes exactly if every one of them does. */
  lemma {:induction false} SumOfNonnegative(parts: seq<real>)
    requires forall k :: 0 <= k < |parts| ==> parts[k] >= 0.0
    ensures Sum(parts) >= 0.0
    ensures Sum(parts) == 0.0 <==> forall k :: 0 <= k < |parts| ==> parts[k] == 0.0
  {
    if parts == [] {
    } else {
      var n := |parts| - 1;
      SumOfNonnegative(parts[..n]);
      if forall k :: 0 <= k < n ==> parts[..n][k] == 0.0 {
        assert forall k :: 0 <= k < n ==> parts[k] == parts[..n][k];
      }
    }
  }

  /** Neither the turns nor the losses can make up for the other. */
  lemma ShortfallVanishes(shown: real, growth: int, turns: int, lost: real)
    requires shown == (growth - WRAP * turns) as real - lost && turns >= 0 && lost >= 0.0
    ensures shown == growth as real <==> turns == 0 && lost == 0.0
  {
    assert shown == growth as real - (WRAP * turns) as real - lost;
  }

  lemma TurnsVanish(sum: int, growth: int, turns: int)
    requires sum == growth - WRAP * turns
    ensures sum as real == (growth - WRAP * turns) as real
    ensures turns == 0 <==> sum as real == growth as real
    ensures turns == 0 <==> sum == growth
  {
  }
}
