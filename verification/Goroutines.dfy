/** What the goroutine models share: names of threads and the unit of the clock. */
module Goroutines {
  type ThreadId = nat

  const NANOS_PER_SECOND: real := 1000000000.0

  /** There is always a thread that has done nothing yet. */
  lemma FreshThread(threads: set<ThreadId>) returns (t: ThreadId)
    ensures t !in threads
    decreases threads
  {
    if threads == {} {
      t := 0;
    } else {
      var largest := Largest(threads);
      t := largest + 1;
    }
  }

  lemma {:induction false} Largest(threads: set<ThreadId>) returns (largest: ThreadId)
    requires threads != {}
    ensures forall t :: t in threads ==> t <= largest
    decreases threads
  {
    var t :| t in threads;
    var others := threads - {t};
    if others == {} {
      largest := t;
    } else {
      largest := Largest(others);
      largest := if largest < t then t else largest;
    }
    assert threads == others + {t};
  }
}
