/**
 The drop-oldest queue between the collector and the sender.

 `QueueState` is the specification: it never forgets a push, and every position of the
 push history that has left the queue is recorded either as handed out or as evicted.
 `ThreadSafeQueue` is the Go representation: a slice (backing array, offset, length) that
 advances on removal and reallocates when an append finds no room.
 */
module BoundedQueue {

  ghost predicate Increasing(s: seq<nat>) {
    forall i, j :: 0 <= i < j < |s| ==> s[i] < s[j]
  }

  datatype Operation<T> = Push(item: T) | TryPop

  datatype Reply<T> = Pushed | Panicked | Popped(item: T) | Empty

  datatype QueueState<T> = QueueState(capacity: int, pushed: seq<T>, popped: seq<nat>, evicted: seq<nat>)
  {
    /** Position of the oldest element still queued. */
    function Head(): nat {
      |popped| + |evicted|
    }

    ghost predicate WellFormed() {
      0 <= capacity && Head() <= |pushed| <= Head() + capacity
    }

    /** Every position that has left the queue left it exactly once, and in order. */
    ghost predicate Accounted() {
      && Increasing(popped)
      && Increasing(evicted)
      && (forall k :: 0 <= k < |popped| ==> popped[k] < Head())
      && (forall k :: 0 <= k < |evicted| ==> evicted[k] < Head())
      && (forall i :: 0 <= i < Head() ==> (i in popped <==> i !in evicted))
    }

    function Window(): seq<T>
      requires Head() <= |pushed|
    {
      pushed[Head()..]
    }

    /** One critical section. Pushing on capacity 0 reslices an empty slice, which panics. */
    function Apply(op: Operation<T>): (r: (QueueState<T>, Reply<T>))
      requires WellFormed()
      ensures r.0.WellFormed()
      ensures r.0.capacity == capacity
    {
      match op
      case Push(item) =>
        if |Window()| >= capacity then
          if Window() == [] then (this, Panicked)
          else (this.(pushed := pushed + [item], evicted := evicted + [Head()]), Pushed)
        else (this.(pushed := pushed + [item]), Pushed)
      case TryPop =>
        if Window() == [] then (this, Empty)
        else (this.(popped := popped + [Head()]), Popped(pushed[Head()]))
    }

    /** The sequential history obtained by performing `ops` one after the other. */
    function Run(ops: seq<Operation<T>>): (r: (QueueState<T>, seq<Reply<T>>))
      requires WellFormed()
      ensures r.0.WellFormed()
      ensures r.0.capacity == capacity
      ensures |r.1| == |ops|
      decreases |ops|
    {
      if ops == [] then (this, [])
      else
        var (mid, replies) := Run(ops[..|ops| - 1]);
        var (end, reply) := mid.Apply(ops[|ops| - 1]);
        (end, replies + [reply])
    }
  }

  function EmptyQueue<T>(capacity: nat): (q: QueueState<T>)
    ensures q.WellFormed()
  {
    QueueState(capacity, [], [], [])
  }

  /** What an iteration over the successful pops of a run hands to its callers. */
  function PoppedItems<T>(replies: seq<Reply<T>>): seq<T> {
    if replies == [] then []
    else
      var last := replies[|replies| - 1];
      PoppedItems(replies[..|replies| - 1]) + (if last.Popped? then [last.item] else [])
  }

  function PushedItems<T>(ops: seq<Operation<T>>): seq<T> {
    if ops == [] then []
    else
      var last := ops[|ops| - 1];
      PushedItems(ops[..|ops| - 1]) + (if last.Push? then [last.item] else [])
  }

  function Select<T>(items: seq<T>, positions: seq<nat>): (r: seq<T>)
    requires forall k :: 0 <= k < |positions| ==> positions[k] < |items|
  {
    seq(|positions|, k requires 0 <= k < |positions| => items[positions[k]])
  }

  lemma AppendKeepsIncreasing(s: seq<nat>, x: nat)
    requires Increasing(s) && (forall k :: 0 <= k < |s| ==> s[k] < x)
    ensures Increasing(s + [x])
  {
  }

  /** No position is both handed out and evicted, and none that left the queue is unaccounted for. */
  lemma ApplyKeepsAccounts<T>(q: QueueState<T>, op: Operation<T>)
    requires q.WellFormed() && q.Accounted()
    ensures q.Apply(op).0.Accounted()
  {
    AppendKeepsIncreasing(q.popped, q.Head());
    AppendKeepsIncreasing(q.evicted, q.Head());
    var next := q.Apply(op).0;
    forall i | 0 <= i < next.Head()
      ensures i in next.popped <==> i !in next.evicted
    {
      assert i in next.popped <==> i in q.popped || (i == q.Head() && next.popped != q.popped);
      assert i in next.evicted <==> i in q.evicted || (i == q.Head() && next.evicted != q.evicted);
    }
  }

  lemma SelectLater<T>(items: seq<T>, more: seq<T>, positions: seq<nat>)
    requires forall k :: 0 <= k < |positions| ==> positions[k] < |items|
    ensures Select(items + more, positions) == Select(items, positions)
  {
  }

  lemma {:induction false} RunKeepsAccounts<T>(q: QueueState<T>, ops: seq<Operation<T>>)
    requires q.WellFormed() && q.Accounted()
    ensures q.Run(ops).0.Accounted()
    ensures q.popped <= q.Run(ops).0.popped && q.evicted <= q.Run(ops).0.evicted
    decreases |ops|
  {
    if ops == [] {
    } else {
      RunKeepsAccounts(q, ops[..|ops| - 1]);
      ApplyKeepsAccounts(q.Run(ops[..|ops| - 1]).0, ops[|ops| - 1]);
    }
  }

  lemma {:induction false} RunAppendsPushes<T>(q: QueueState<T>, ops: seq<Operation<T>>)
    requires q.WellFormed() && q.capacity >= 1
    ensures q.Run(ops).0.pushed == q.pushed + PushedItems(ops)
    ensures Panicked !in q.Run(ops).1
    decreases |ops|
  {
    if ops == [] {
    } else {
      RunAppendsPushes(q, ops[..|ops| - 1]);
    }
  }

  /**
   Every run is explained by the push history: pushes are appended in order, and the items the
   pops return are exactly the pushed items at the recorded positions, which only ever increase.
   */
  lemma {:induction false} RunExplainedByHistory<T>(q: QueueState<T>, ops: seq<Operation<T>>)
    requires q.WellFormed() && q.Accounted() && q.capacity >= 1
    ensures q.Run(ops).0.Accounted()
    ensures var (end, replies) := q.Run(ops);
            && end.pushed == q.pushed + PushedItems(ops)
            && q.popped <= end.popped
            && PoppedItems(replies) == Select(end.pushed, end.popped[|q.popped|..])
    decreases |ops|
  {
    RunKeepsAccounts(q, ops);
    RunAppendsPushes(q, ops);
    if ops == [] {
      assert q.popped[|q.popped|..] == [];
    } else {
      RunExplainedByHistory(q, ops[..|ops| - 1]);
      var (mid, replies) := q.Run(ops[..|ops| - 1]);
      PoppedByApply(mid, ops[|ops| - 1], replies, |q.popped|);
    }
  }

  lemma PoppedByApply<T>(mid: QueueState<T>, op: Operation<T>, replies: seq<Reply<T>>, already: nat)
    requires mid.WellFormed() && mid.Accounted() && already <= |mid.popped|
    requires PoppedItems(replies) == Select(mid.pushed, mid.popped[already..])
    ensures mid.Apply(op).0.Accounted() && already <= |mid.Apply(op).0.popped|
    ensures var (end, reply) := mid.Apply(op);
            PoppedItems(replies + [reply]) == Select(end.pushed, end.popped[already..])
  {
    ApplyKeepsAccounts(mid, op);
    var (end, reply) := mid.Apply(op);
    var earlier := mid.popped[already..];
    assert (replies + [reply])[..|replies|] == replies;
    if op.Push? {
      SelectLater(mid.pushed, [op.item], earlier);
    } else if reply.Popped? {
      assert end.popped[already..] == earlier + [mid.Head()];
    }
  }

  lemma RunSnoc<T>(q: QueueState<T>, ops: seq<Operation<T>>, op: Operation<T>)
    requires q.WellFormed()
    ensures var (mid, replies) := q.Run(ops);
            q.Run(ops + [op]) == (mid.Apply(op).0, replies + [mid.Apply(op).1])
  {
    assert (ops + [op])[..|ops + [op]| - 1] == ops;
  }

  /** A popped item is among the last `capacity` pushes made before that pop. */
  lemma PopsAreRecent<T>(q: QueueState<T>, ops: seq<Operation<T>>, k: nat)
    requires q.WellFormed() && k < |ops|
    requires q.Run(ops).1[k].Popped?
    ensures var before := q.Run(ops[..k]).0;
            && |before.pushed| - q.capacity <= before.Head() < |before.pushed|
            && q.Run(ops).1[k] == Popped(before.pushed[before.Head()])
            && q.Run(ops[..k + 1]).0.popped == before.popped + [before.Head()]
  {
    ReplyAt(q, ops, k);
  }

  /** The k-th reply is that of the k-th operation on the state its predecessors leave. */
  lemma ReplyAt<T>(q: QueueState<T>, ops: seq<Operation<T>>, k: nat)
    requires q.WellFormed() && k < |ops|
    ensures q.Run(ops[..k]).0.Apply(ops[k]) == (q.Run(ops[..k + 1]).0, q.Run(ops).1[k])
  {
    ReplyInPrefix(q, ops, k);
    NextReply(q, ops, k);
  }

  lemma NextReply<T>(q: QueueState<T>, ops: seq<Operation<T>>, k: nat)
    requires q.WellFormed() && k < |ops|
    ensures var (end, replies) := q.Run(ops[..k + 1]);
            end == q.Run(ops[..k]).0.Apply(ops[k]).0 && replies[k] == q.Run(ops[..k]).0.Apply(ops[k]).1
  {
    assert ops[..k + 1][..|ops[..k + 1]| - 1] == ops[..k];
  }

  lemma ReplyInPrefix<T>(q: QueueState<T>, ops: seq<Operation<T>>, k: nat)
    requires q.WellFormed() && k < |ops|
    ensures q.Run(ops).1[k] == q.Run(ops[..k + 1]).1[k]
  {
    RunPrefix(q, ops, k + 1);
    assert q.Run(ops).1[k] == q.Run(ops).1[..k + 1][k];
  }

  lemma {:induction false} RunPrefix<T>(q: QueueState<T>, ops: seq<Operation<T>>, n: nat)
    requires q.WellFormed() && n <= |ops|
    ensures q.Run(ops[..n]).1 == q.Run(ops).1[..n]
    decreases |ops|
  {
    if n < |ops| {
      RunPrefix(q, ops[..|ops| - 1], n);
      assert ops[..|ops| - 1][..n] == ops[..n];
    } else {
      assert ops[..n] == ops;
    }
  }

  /** Conservation, and hence the least number of evictions any schedule can get away with. */
  lemma EvictionBalance<T>(capacity: nat, ops: seq<Operation<T>>)
    requires capacity >= 1
    ensures var (end, replies) := EmptyQueue<T>(capacity).Run(ops);
            && |PushedItems(ops)| == |PoppedItems(replies)| + |end.evicted| + |end.Window()|
            && |end.evicted| >= |PushedItems(ops)| - |PoppedItems(replies)| - capacity
  {
    RunExplainedByHistory(EmptyQueue<T>(capacity), ops);
  }

  // ---- Reference form: a list that keeps its last `capacity` elements ----

  function Last<T>(s: seq<T>, n: nat): seq<T> {
    if |s| <= n then s else s[|s| - n..]
  }

  function KeepLast<T>(contents: seq<T>, capacity: nat, op: Operation<T>): seq<T> {
    match op
    case Push(item) => Last(contents + [item], capacity)
    case TryPop => if contents == [] then [] else contents[1..]
  }

  function KeepLastAll<T>(contents: seq<T>, capacity: nat, ops: seq<Operation<T>>): seq<T> {
    if ops == [] then contents
    else KeepLast(KeepLastAll(contents, capacity, ops[..|ops| - 1]), capacity, ops[|ops| - 1])
  }

  lemma PushWindow<T>(q: QueueState<T>, item: T)
    requires q.WellFormed() && q.capacity >= 1
    ensures q.Apply(Push(item)).0.Window() ==
            (if |q.Window()| >= q.capacity then q.Window()[1..] else q.Window()) + [item]
  {
  }

  lemma PushKeepsLast<T>(q: QueueState<T>, item: T)
    requires q.WellFormed() && q.capacity >= 1
    ensures q.Apply(Push(item)).0.Window() == Last(q.Window() + [item], q.capacity)
  {
    PushWindow(q, item);
  }

  /** Evicting before appending is the same as appending and then truncating to the newest `capacity`. */
  lemma {:induction false} WindowIsLastPushes<T>(q: QueueState<T>, ops: seq<Operation<T>>)
    requires q.WellFormed() && q.capacity >= 1
    ensures q.Run(ops).0.Window() == KeepLastAll(q.Window(), q.capacity, ops)
    decreases |ops|
  {
    if ops == [] {
    } else {
      var before := ops[..|ops| - 1];
      WindowIsLastPushes(q, before);
      var op := ops[|ops| - 1];
      if op.Push? {
        PushKeepsLast(q.Run(before).0, op.item);
      }
    }
  }

  // ---- The representation ----

  class ThreadSafeQueue<T(0)> {
    var buffer: array<T>   // backing array of the slice
    var offset: nat        // where the slice starts in it
    var length: nat        // len(items)
    const size: int
    ghost var history: QueueState<T>

    ghost predicate InBounds()
      reads this
    {
      offset + length <= buffer.Length
    }

    /** The elements of the slice. */
    ghost function Items(): (items: seq<T>)
      requires InBounds()
      reads this, buffer
      ensures |items| == length
    {
      buffer[offset..offset + length]
    }

    ghost predicate Valid()
      reads this, buffer
    {
      && InBounds()
      && history.WellFormed()
      && history.capacity == size
      && Items() == history.Window()
    }

    constructor (capacity: int)
      requires 0 <= capacity
      ensures Valid() && fresh(buffer) && buffer.Length == capacity
      ensures size == capacity && history == EmptyQueue(capacity)
    {
      buffer, offset, length := new T[capacity], 0, 0;
      size := capacity;
      history := EmptyQueue(capacity);
    }

    /** `panicked` is the Go runtime panic of reslicing an empty slice. */
    method Push(item: T) returns (panicked: bool)
      requires Valid()
      modifies this, buffer
      ensures Valid() && (buffer == old(buffer) || fresh(buffer))
      ensures history == old(history).Apply(Operation.Push(item)).0
      ensures panicked <==> size == 0
      ensures !panicked ==> history.Window() == Last(old(history.Window()) + [item], size)
    {
      panicked := MakeRoom();
      if !panicked {
        AppendAndRecord(item);
      }
    }

    /** Once there is room. */
    method AppendAndRecord(item: T)
      requires InBounds() && history.WellFormed() && history.capacity == size >= 1
      requires Items() == var window := history.Window(); if |window| >= size then window[1..] else window
      modifies this, buffer
      ensures Valid() && (buffer == old(buffer) || fresh(buffer))
      ensures history == old(history).Apply(Operation.Push(item)).0
      ensures history.Window() == Last(old(history.Window()) + [item], size)
    {
      Append(item);
      RecordPush(item);
    }

    /** A full queue drops its oldest element; reslicing the empty slice panics. */
    method MakeRoom() returns (panicked: bool)
      requires Valid()
      modifies this`offset, this`length
      ensures InBounds() && (panicked <==> size == 0)
      ensures panicked ==> Valid()
      ensures !panicked ==> Items() == var window := history.Window(); if |window| >= size then window[1..] else window
    {
      if length >= size {
        if length == 0 {
          return true;
        }
        Reslice();
      }
      return false;
    }

    ghost method RecordPush(item: T)
      requires history.WellFormed() && history.capacity == size >= 1
      modifies this`history
      ensures history == old(history).Apply(Operation.Push(item)).0 && history.WellFormed() && history.capacity == size
      ensures history.Window() ==
              (if |old(history.Window())| >= size then old(history.Window())[1..] else old(history.Window())) + [item]
      ensures history.Window() == Last(old(history.Window()) + [item], size)
    {
      PushWindow(history, item);
      PushKeepsLast(history, item);
      history := history.Apply(Operation.Push(item)).0;
    }

    /** `items[1:]` */
    method Reslice()
      requires 0 < length && InBounds()
      modifies this`offset, this`length
      ensures InBounds() && Items() == old(Items())[1..]
    {
      offset, length := offset + 1, length - 1;
    }

    /** Go's `append`: in place while the slice has spare capacity, else into a larger copy. */
    method Append(item: T)
      requires InBounds()
      modifies this`buffer, this`offset, this`length, buffer
      ensures buffer == old(buffer) || fresh(buffer)
      ensures InBounds() && Items() == old(Items()) + [item]
    {
      ghost var items := Items();
      if offset + length == buffer.Length {
        var room: nat :| room > length;
        var grown := new T[room];
        for i := 0 to length
          modifies grown
          invariant grown[..i] == items[..i]
        {
          grown[i] := buffer[offset + i];
        }
        buffer, offset := grown, 0;
      }
      buffer[offset + length] := item;
      assert buffer[offset..offset + length] == items;
      length := length + 1;
    }

    method TryPop() returns (reply: Reply<T>)
      requires Valid()
      modifies this
      ensures Valid() && buffer == old(buffer)
      ensures (history, reply) == old(history).Apply(Operation.TryPop)
      ensures reply.Empty? <==> old(history.Window()) == []
      ensures reply.Popped? ==> [reply.item] + history.Window() == old(history.Window())
    {
      if length == 0 {
        return Empty;
      }
      ghost var window := history.Window();
      reply := Popped(buffer[offset]);
      assert [reply.item] + window[1..] == window;
      Reslice();
      history := history.Apply(Operation.TryPop).0;
    }

    method Size() returns (n: nat)
      requires Valid()
      ensures n == |history.pushed| - |history.popped| - |history.evicted| <= size
    {
      n := length;
    }
  }
}
