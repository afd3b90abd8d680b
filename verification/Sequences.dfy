/** Facts about sequences without repetitions, shared by the goroutine models. */
module Sequences {
  import opened Wrappers

  ghost predicate NoRepeats<T>(s: seq<T>) {
    forall i, j :: 0 <= i < j < |s| ==> s[i] != s[j]
  }

  ghost function Elements<T>(s: seq<T>): set<T> {
    set x | x in s
  }

  lemma ElementsCat<T>(p: seq<T>, q: seq<T>)
    ensures Elements(p + q) == Elements(p) + Elements(q)
  {
  }

  lemma ElementsSnoc<T>(p: seq<T>, x: T)
    ensures Elements(p + [x]) == Elements(p) + {x}
    ensures NoRepeats(p) && x !in Elements(p) ==> NoRepeats(p + [x])
  {
  }

  lemma OnlyEmptyHasNone<T>(p: seq<T>)
    ensures Elements(p) == {} ==> p == []
  {
    if p != [] {
      assert p[0] in Elements(p);
    }
  }

  function Without<T>(s: seq<T>, k: nat): (r: seq<T>)
    requires k < |s|
    ensures |r| == |s| - 1
    ensures forall x :: x in r ==> x in s
  {
    s[..k] + s[k + 1..]
  }

  lemma WithoutSnoc<T>(s: seq<T>, k: nat)
    requires k < |s| - 1
    ensures Without(s, k) == Without(s[..|s| - 1], k) + [s[|s| - 1]]
    ensures Without(s, k)[..|s| - 2] == Without(s[..|s| - 1], k)
  {
  }

  lemma ElementsWithout<T>(s: seq<T>, k: nat)
    requires k < |s| && NoRepeats(s)
    ensures NoRepeats(Without(s, k))
    ensures Elements(Without(s, k)) == Elements(s) - {s[k]}
  {
    var a, b := s[..k], s[k + 1..];
    assert s == a + [s[k]] + b;
    ElementsSnoc(a, s[k]);
    ElementsCat(a + [s[k]], b);
    ElementsCat(a, b);
  }

  lemma ElementsFrom<T>(s: seq<T>, k: nat)
    requires k < |s| && NoRepeats(s)
    ensures Elements(s[k..]) == {s[k]} + Elements(s[k + 1..])
    ensures Elements(s[k..]) - {s[k]} == Elements(s[k + 1..])
  {
    assert s[k..] == [s[k]] + s[k + 1..];
    ElementsCat([s[k]], s[k + 1..]);
  }

  lemma {:induction false} Enumerate<T>(names: set<T>) returns (order: seq<T>)
    ensures NoRepeats(order) && Elements(order) == names
    decreases names
  {
    if names == {} {
      order := [];
    } else {
      var n :| n in names;
      order := Enumerate(names - {n});
      ElementsSnoc(order, n);
      order := order + [n];
    }
  }

  lemma {:induction false} DistinctCount<T>(s: seq<T>)
    requires NoRepeats(s)
    ensures |Elements(s)| == |s|
  {
    if s == [] {
    } else {
      var before, last := s[..|s| - 1], s[|s| - 1];
      DistinctCount(before);
      ElementsSnoc(before, last);
      assert s == before + [last];
    }
  }

  function Below(n: nat): (s: set<nat>)
    ensures |s| == n && forall i :: i in s <==> 0 <= i < n
  {
    if n == 0 then {} else Below(n - 1) + {n - 1}
  }

  /** Pigeonhole: distinct numbers below `n` that miss one are fewer than `n`. */
  lemma RoomForOneMore(s: seq<nat>, n: nat, i: nat)
    requires NoRepeats(s) && (forall k :: 0 <= k < |s| ==> s[k] < n) && i < n && i !in s
    ensures |s| < n
  {
    DistinctCount(s);
    var seen, others := Elements(s), Below(n) - {i};
    assert seen <= others;
    assert others == (others - seen) + seen;
    assert |others| == |others - seen| + |seen|;
  }

  lemma SubsetCount<T>(a: set<T>, b: set<T>)
    requires a <= b
    ensures |a| <= |b|
  {
    assert b == a + (b - a);
    assert |b| == |a| + |b - a|;
  }

  /** Pigeonhole: more elements than the set they are from, so two places hold the same one. */
  lemma Repeats<T>(s: seq<T>, from: set<T>) returns (i: nat, j: nat)
    requires (forall x :: x in s ==> x in from) && |s| > |from|
    ensures i < j < |s| && s[i] == s[j]
  {
    if NoRepeats(s) {
      DistinctCount(s);
      SubsetCount(Elements(s), from);
      assert false;
    }
    i, j :| 0 <= i < j < |s| && s[i] == s[j];
  }

  // ---- Dropping the entries that are missing ----

  function Present<T>(entries: seq<Option<T>>): seq<T> {
    if entries == [] then []
    else
      var last := entries[|entries| - 1];
      Present(entries[..|entries| - 1]) + (if last.Some? then [last.value] else [])
  }

  lemma PresentSnoc<T>(entries: seq<Option<T>>, k: nat)
    requires k < |entries|
    ensures Present(entries[..k + 1]) ==
            Present(entries[..k]) + (if entries[k].Some? then [entries[k].value] else [])
  {
    assert entries[..k + 1][..k] == entries[..k];
  }

  /** How many of the first `k` entries are present. */
  function CountPresent<T>(entries: seq<Option<T>>, k: nat): nat
    requires k <= |entries|
  {
    if k == 0 then 0 else CountPresent(entries, k - 1) + (if entries[k - 1].Some? then 1 else 0)
  }

  lemma {:induction false} CountOfPrefix<T>(entries: seq<Option<T>>, n: nat, k: nat)
    requires k <= n <= |entries|
    ensures CountPresent(entries[..n], k) == CountPresent(entries, k)
  {
    if k == 0 {
    } else {
      CountOfPrefix(entries, n, k - 1);
    }
  }

  /** Every present entry is found at the place its predecessors leave it; there are no others. */
  lemma {:induction false} PresentInOrder<T>(entries: seq<Option<T>>, k: nat)
    ensures |Present(entries)| == CountPresent(entries, |entries|)
    ensures k < |entries| && entries[k].Some? ==>
              && CountPresent(entries, k) < |Present(entries)|
              && Present(entries)[CountPresent(entries, k)] == entries[k].value
  {
    if entries == [] {
    } else {
      var n := |entries| - 1;
      PresentInOrder(entries[..n], k);
      CountOfPrefix(entries, n, n);
      if k < n {
        CountOfPrefix(entries, n, k);
      }
    }
  }
}
