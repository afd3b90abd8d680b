/**
 What has become of every metric ever pushed: still queued, evicted, in the sender's hand,
 written to the socket, or discarded.
 */
module DeliveryLedger {
  import opened Wrappers
  import opened BoundedQueue

  datatype Fate = Queued | Evicted | InHand | Written | Discarded

  datatype Ledger<T> = Ledger(queue: QueueState<T>, hand: Option<nat>, written: seq<nat>, discarded: seq<nat>)
  {
    ghost predicate Has(fate: Fate, i: nat) {
      match fate
      case Queued => queue.Head() <= i < |queue.pushed|
      case Evicted => i in queue.evicted
      case InHand => hand == Some(i)
      case Written => i in written
      case Discarded => i in discarded
    }

    ghost predicate HasOneFate(i: nat) {
      && (exists fate :: Has(fate, i))
      && (forall f, g :: Has(f, i) && Has(g, i) ==> f == g)
    }

    /** Position `i` is no longer on its way. */
    ghost predicate Settled(i: nat) {
      Has(Written, i) || Has(Evicted, i) || Has(Discarded, i)
    }

    /** The invariant, in terms of positions of the push history. */
    ghost predicate Balanced() {
      && queue.WellFormed() && queue.Accounted()
      && Increasing(written)
      && Increasing(discarded)
      && (hand.Some? ==> hand.value < queue.Head())
      && (forall k :: 0 <= k < |written| ==> written[k] < (if hand.Some? then hand.value else queue.Head()))
      && (forall k :: 0 <= k < |discarded| ==> discarded[k] < (if hand.Some? then hand.value else queue.Head()))
      && (forall i :: i in queue.popped <==> (i in written || i in discarded || hand == Some(i)))
      && (forall i :: i in written ==> i !in discarded)
      && |queue.popped| == |written| + |discarded| + (if hand.Some? then 1 else 0)
    }

    function Push(item: T): Ledger<T>
      requires queue.WellFormed()
    {
      this.(queue := queue.Apply(Operation.Push(item)).0)
    }

    /** `TryPop`; on success the item is in the sender's hand. */
    function Pop(): Ledger<T>
      requires queue.WellFormed()
    {
      var (q, reply) := queue.Apply(TryPop);
      this.(queue := q, hand := if reply.Popped? then Some(queue.Head()) else hand)
    }

    function Write(): Ledger<T>
      requires hand.Some?
    {
      this.(hand := None, written := written + [hand.value])
    }

    function Discard(): Ledger<T>
      requires hand.Some?
    {
      this.(hand := None, discarded := discarded + [hand.value])
    }
  }

  function EmptyLedger<T>(capacity: nat): Ledger<T> {
    Ledger(EmptyQueue(capacity), None, [], [])
  }

  lemma PushKeepsBalance<T>(l: Ledger<T>, item: T)
    requires l.Balanced()
    ensures l.Push(item).Balanced()
  {
    ApplyKeepsAccounts(l.queue, Operation.Push(item));
  }

  lemma PopKeepsBalance<T>(l: Ledger<T>)
    requires l.Balanced() && l.hand.None?
    ensures l.Pop().Balanced()
  {
    ApplyKeepsAccounts(l.queue, TryPop);
    var next := l.Pop();
    if next.hand.Some? {
      assert forall i :: i in next.queue.popped <==> i in l.queue.popped || i == l.queue.Head();
    }
  }

  lemma SettleKeepsBalance<T>(l: Ledger<T>)
    requires l.Balanced() && l.hand.Some?
    ensures l.Write().Balanced() && l.Discard().Balanced()
  {
    AppendKeepsIncreasing(l.written, l.hand.value);
    AppendKeepsIncreasing(l.discarded, l.hand.value);
    var h := l.hand.value;
    assert h !in l.written && h !in l.discarded;
    assert forall i :: i in l.written + [h] <==> i in l.written || i == h;
    assert forall i :: i in l.discarded + [h] <==> i in l.discarded || i == h;
  }

  /** Every pushed position has one and only one fate, and the fates add up to the pushes. */
  lemma EveryPushHasOneFate<T>(l: Ledger<T>, i: nat)
    requires l.Balanced() && i < |l.queue.pushed|
    ensures l.HasOneFate(i)
    ensures |l.queue.pushed| ==
            |l.queue.Window()| + |l.queue.evicted| + |l.written| + |l.discarded| + (if l.hand.Some? then 1 else 0)
  {
    if i >= l.queue.Head() {
      assert l.Has(Queued, i);
    } else if i in l.queue.evicted {
      assert l.Has(Evicted, i);
    } else if l.hand == Some(i) {
      assert l.Has(InHand, i);
    } else if i in l.written {
      assert l.Has(Written, i);
    } else {
      assert i in l.queue.popped;
      assert l.Has(Discarded, i);
    }
  }

  /** Whatever is older than something written is settled: metrics do not overtake each other. */
  lemma NothingIsOvertaken<T>(l: Ledger<T>, i: nat, k: nat)
    requires l.Balanced() && k < |l.written| && i < l.written[k]
    ensures l.Settled(i)
  {
    EveryPushHasOneFate(l, i);
  }
}
