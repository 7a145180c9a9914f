/** The earliest-first pool as an abstract queue, and its starvation bounds.

    `order` lists the units in order of first arrival (the unit with priority p is
    order[p - 1]); a unit sits in the heap for its first 32 pushes and in the FIFO
    afterwards; pops alternate between the two by parity. */
module EfirstQueue {
  import opened Common
  import opened Waiting

  const MaxHeapPushes: nat := 32

  datatype Queue = Queue(
    heap: set<nat>,
    fifo: seq<nat>,
    order: seq<nat>,     // units in order of arrival
    cs: seq<nat>,        // cs[u]: how often unit u was pushed into the heap
    pops: nat)

  datatype Op = Push(u: nat) | Pop | TimedPop

  ghost predicate InPool(q: Queue, u: nat) {
    u in q.heap || u in q.fifo
  }

  /** A unit in the heap has been counted at least once, none more than 32 times, and the
      units that never arrived have never been counted. */
  ghost predicate SoundParts(heap: set<nat>, fifo: seq<nat>, order: seq<nat>, cs: seq<nat>) {
    && Distinct(order) && Distinct(fifo)
    && (forall u :: u in heap ==> u in order && u !in fifo)
    && (forall u :: u in fifo ==> u in order)
    && (forall u :: u in order ==> u < |cs|)
    && (forall u :: 0 <= u < |cs| ==> cs[u] <= MaxHeapPushes)
    && (forall u :: 0 <= u < |cs| ==> (cs[u] > 0 <==> u in order))
  }

  ghost predicate Sound(q: Queue) {
    SoundParts(q.heap, q.fifo, q.order, q.cs)
  }

  /** The earliest arrival among the units in `heap`. */
  function Earliest(order: seq<nat>, heap: set<nat>): Option<nat> {
    if order == [] then None
    else if order[0] in heap then Some(order[0])
    else Earliest(order[1..], heap)
  }

  /** The first push numbers the unit. */
  ghost function Arrived(q: Queue, u: nat): Queue {
    if u in q.order then q else q.(order := q.order + [u])
  }

  /** queue_push: into the heap for the first 32 times. */
  function Enqueued(q: Queue, u: nat): Queue
    requires u < |q.cs|
  {
    if q.cs[u] < MaxHeapPushes
    then q.(heap := q.heap + {u}, cs := q.cs[u := q.cs[u] + 1])
    else q.(fifo := q.fifo + [u])
  }

  /** pool_push */
  ghost function Pushed(q: Queue, u: nat): Queue
    requires u < |q.cs|
  {
    Enqueued(Arrived(q, u), u)
  }

  function PopHeap(q: Queue): (Queue, Option<nat>) {
    match Earliest(q.order, q.heap)
    case None => (q, None)
    case Some(u) => (q.(heap := q.heap - {u}), Some(u))
  }

  function PopFifo(q: Queue): (Queue, Option<nat>) {
    if q.fifo == [] then (q, None) else (q.(fifo := q.fifo[1..]), Some(q.fifo[0]))
  }

  function Ticked(q: Queue): Queue {
    q.(pops := q.pops + 1)
  }

  /** An even pop prefers the FIFO, an odd one the heap. */
  predicate TakesHeap(q: Queue) {
    if q.pops % 2 == 0 then q.fifo == [] else q.heap != {}
  }

  /** queue_pop */
  function Popped(q: Queue): (Queue, Option<nat>) {
    if TakesHeap(Ticked(q)) then PopHeap(Ticked(q)) else PopFifo(Ticked(q))
  }

  ghost predicate Allowed(q: Queue, op: Op) {
    op.Push? ==> op.u < |q.cs| && !InPool(q, op.u)
  }

  /** The lock-free test of pool_pop skips the pop when the pool is empty. */
  ghost function Apply(q: Queue, op: Op): Queue
    requires Allowed(q, op)
  {
    match op
    case Push(u) => Pushed(q, u)
    case Pop => if q.heap == {} && q.fifo == [] then q else Popped(q).0
    case TimedPop => Popped(q).0
  }

  function Answer(q: Queue, op: Op): Option<nat>
    requires !op.Push?
  {
    if op.Pop? && q.heap == {} && q.fifo == [] then None else Popped(q).1
  }

  ghost predicate Runs(q: Queue, ops: seq<Op>)
    decreases |ops|
  {
    ops != [] ==> Allowed(q, ops[0]) && Runs(Apply(q, ops[0]), ops[1..])
  }

  /** What the pops of a run return, in order. */
  ghost function Answers(q: Queue, ops: seq<Op>): seq<Option<nat>>
    requires Runs(q, ops)
    decreases |ops|
  {
    if ops == [] then []
    else (if ops[0].Push? then [] else [Answer(q, ops[0])]) + Answers(Apply(q, ops[0]), ops[1..])
  }

  ghost function Final(q: Queue, ops: seq<Op>): Queue
    requires Runs(q, ops)
    decreases |ops|
  {
    if ops == [] then q else Final(Apply(q, ops[0]), ops[1..])
  }

  lemma AnswersUnfold(q: Queue, ops: seq<Op>)
    requires Runs(q, ops) && ops != []
    ensures ops[0].Push? ==> Answers(q, ops) == Answers(Pushed(q, ops[0].u), ops[1..])
    ensures (!ops[0].Push? && (q.heap != {} || q.fifo != [])) ==>
            (Runs(Popped(q).0, ops[1..]) && Answers(q, ops) == [Popped(q).1] + Answers(Popped(q).0, ops[1..]))
  {
  }

  // ---- the invariant --------------------------------------------------------

  lemma {:induction false} EarliestIsIn(order: seq<nat>, heap: set<nat>)
    ensures Earliest(order, heap).Some? ==> Earliest(order, heap).value in heap
    ensures Earliest(order, heap).None? <==> (forall u :: u in order ==> u !in heap)
    decreases |order|
  {
    if order != [] {
      EarliestIsIn(order[1..], heap);
      assert order == [order[0]] + order[1..];
    }
  }

  /** With the unit at index p in the heap, the earliest unit is at index p or before. */
  lemma {:induction false} EarliestIndex(order: seq<nat>, heap: set<nat>, p: nat) returns (i: nat)
    requires p < |order| && order[p] in heap
    ensures i <= p && Earliest(order, heap) == Some(order[i])
    decreases |order|
  {
    if order[0] in heap {
      i := 0;
    } else {
      i := EarliestIndex(order[1..], heap, p - 1);
      i := i + 1;
    }
  }

  lemma {:induction false} EarliestUnique(order: seq<nat>, heap: set<nat>, i: nat)
    requires i < |order| && order[i] in heap
    requires forall j :: 0 <= j < i ==> order[j] !in heap
    ensures Earliest(order, heap) == Some(order[i])
    decreases |order|
  {
    if i > 0 {
      assert order[0] !in heap;
      EarliestUnique(order[1..], heap, i - 1);
    }
  }

  lemma NonEmptyHeapAnswers(q: Queue)
    requires Sound(q) && q.heap != {}
    ensures Earliest(q.order, q.heap).Some? && Earliest(q.order, q.heap).value in q.heap
  {
    EarliestIsIn(q.order, q.heap);
    var u :| u in q.heap;
  }

  lemma PopHeapKeepsSound(q: Queue)
    requires Sound(q)
    ensures Sound(PopHeap(q).0)
  {
  }

  lemma PopFifoKeepsSound(q: Queue)
    requires Sound(q)
    ensures Sound(PopFifo(q).0)
  {
    assert forall u :: u in PopFifo(q).0.fifo ==> u in q.fifo;
  }

  /** Every operation keeps the queue sound. */
  lemma ApplyKeepsSound(q: Queue, op: Op)
    requires Sound(q) && Allowed(q, op)
    ensures Sound(Apply(q, op)) && |Apply(q, op).cs| == |q.cs|
  {
    if op.Push? {
      PushKeepsSound(q, op.u);
    } else {
      PopHeapKeepsSound(Ticked(q));
      PopFifoKeepsSound(Ticked(q));
    }
  }

  lemma PushKeepsSound(q: Queue, u: nat)
    requires Sound(q) && Allowed(q, Push(u))
    ensures Sound(Pushed(q, u))
  {
    var q' := Pushed(q, u);
    assert forall x :: x in q'.order <==> x in q.order || x == u;
  }

  /** A pop answers NULL only when heap and FIFO are both empty; otherwise it takes exactly
      the unit it answers out of the pool. */
  lemma PopTakesOne(q: Queue)
    requires Sound(q)
    ensures Popped(q).1.None? <==> q.heap == {} && q.fifo == []
    ensures forall u: nat :: InPool(Popped(q).0, u) <==> InPool(q, u) && Popped(q).1 != Some(u)
    ensures Popped(q).1.Some? ==> InPool(q, Popped(q).1.value)
    ensures Popped(q).0.order == q.order && Popped(q).0.cs == q.cs
  {
    if q.heap != {} {
      NonEmptyHeapAnswers(q);
    } else {
      EarliestIsIn(q.order, q.heap);
    }
    if q.fifo != [] {
      assert q.fifo == [q.fifo[0]] + q.fifo[1..];
    }
  }

  // ---- starvation bound for the heap ----------------------------------------

  /** How many more times the unit can leave the heap. */
  function Visits(q: Queue, u: nat): nat {
    if u < |q.cs| && q.cs[u] <= MaxHeapPushes
    then MaxHeapPushes - q.cs[u] + (if u in q.heap then 1 else 0)
    else 0
  }

  /** Heap departures that the first p arrivals can still make. */
  function Ahead(q: Queue, p: nat): nat
    requires p <= |q.order|
  {
    if p == 0 then 0 else Ahead(q, p - 1) + Visits(q, q.order[p - 1])
  }

  lemma {:induction false} AheadBound(q: Queue, p: nat)
    requires Sound(q) && p <= |q.order|
    ensures Ahead(q, p) <= MaxHeapPushes * p
  {
    if p > 0 {
      AheadBound(q, p - 1);
      assert q.order[p - 1] in q.order;
    }
  }

  lemma {:induction false} AheadSame(q: Queue, q': Queue, p: nat)
    requires p <= |q.order| && p <= |q'.order| && q'.order[..p] == q.order[..p]
    requires forall i :: 0 <= i < p ==> Visits(q, q.order[i]) == Visits(q', q.order[i])
    ensures Ahead(q', p) == Ahead(q, p)
  {
    if p > 0 {
      assert q'.order[p - 1] == q'.order[..p][p - 1] == q.order[..p][p - 1];
      assert q'.order[..p - 1] == q'.order[..p][..p - 1] == q.order[..p - 1];
      AheadSame(q, q', p - 1);
    }
  }

  /** One departure of an earlier unit pays for itself. */
  lemma {:induction false} AheadDrops(q: Queue, q': Queue, p: nat, i: nat)
    requires i < p <= |q.order| && q'.order == q.order && Distinct(q.order)
    requires Visits(q', q.order[i]) == Visits(q, q.order[i]) - 1
    requires forall j :: 0 <= j < p && j != i ==> Visits(q', q.order[j]) == Visits(q, q.order[j])
    ensures Ahead(q', p) == Ahead(q, p) - 1
    decreases p
  {
    if i == p - 1 {
      AheadSame(q, q', p - 1);
    } else {
      AheadDrops(q, q', p - 1, i);
    }
  }

  /** Pops that may pass before the heap unit of arrival index p is returned. */
  function HeapPatience(q: Queue, p: nat): nat
    requires p <= |q.order|
  {
    2 * Ahead(q, p) + (if q.pops % 2 == 0 then 1 else 2)
  }

  lemma PushKeepsPatience(q: Queue, u: nat, p: nat)
    requires Sound(q) && Allowed(q, Push(u)) && p < |q.order| && q.order[p] in q.heap
    ensures p < |Pushed(q, u).order| && Pushed(q, u).order[p] == q.order[p] && q.order[p] in Pushed(q, u).heap
    ensures HeapPatience(Pushed(q, u), p) == HeapPatience(q, p)
  {
    var q' := Pushed(q, u);
    assert q'.order[..p] == q.order[..p];
    forall i | 0 <= i < p ensures Visits(q, q.order[i]) == Visits(q', q.order[i]) {
      assert q.order[i] in q.order;
    }
    AheadSame(q, q', p);
  }

  lemma PopHeapPays(q: Queue, p: nat)
    requires Sound(q) && p < |q.order| && q.order[p] in q.heap
    requires PopHeap(q).1 != Some(q.order[p])
    ensures q.order[p] in PopHeap(q).0.heap
    ensures Ahead(PopHeap(q).0, p) == Ahead(q, p) - 1
  {
    var i := EarliestIndex(q.order, q.heap, p);
    var q' := PopHeap(q).0;
    EarliestIsIn(q.order, q.heap);
    assert q.order[i] in q.order;
    forall j | 0 <= j < p && j != i ensures Visits(q', q.order[j]) == Visits(q, q.order[j]) {
      assert q.order[j] != q.order[i];
    }
    AheadDrops(q, q', p, i);
  }

  lemma PopPays(q: Queue, p: nat)
    requires Sound(q) && p < |q.order| && q.order[p] in q.heap
    requires Popped(q).1 != Some(q.order[p])
    ensures Popped(q).0.order == q.order && q.order[p] in Popped(q).0.heap
    ensures HeapPatience(Popped(q).0, p) < HeapPatience(q, p)
  {
    var q1 := Ticked(q);
    AheadSame(q, q1, p);
    if q1.pops % 2 == 1 || q.fifo == [] {
      PopHeapPays(q1, p);
    } else {
      AheadSame(q, Popped(q).0, p);
    }
  }

  /** Any run returns the unit among its first HeapPatience pops. */
  lemma {:induction false} HeapUnitWithinPatience(q: Queue, ops: seq<Op>, p: nat)
    requires Sound(q) && Runs(q, ops)
    requires p < |q.order| && q.order[p] in q.heap
    ensures ReturnedWithin(Answers(q, ops), Some(q.order[p]), HeapPatience(q, p))
    decreases |ops|
  {
    if ops != [] {
      var op, u, n := ops[0], q.order[p], HeapPatience(q, p);
      AnswersUnfold(q, ops);
      ApplyKeepsSound(q, op);
      if op.Push? {
        PushKeepsPatience(q, op.u, p);
        HeapUnitWithinPatience(Pushed(q, op.u), ops[1..], p);
      } else if Popped(q).1 == Some(u) {
        ReturnedFirst(Answers(q, ops), Some(u), n);
      } else {
        PopPays(q, p);
        var q' := Popped(q).0;
        HeapUnitWithinPatience(q', ops[1..], p);
        ReturnedLater(Popped(q).1, Answers(q', ops[1..]), Some(u), HeapPatience(q', p), n);
      }
    }
  }

  /** Starvation bound for the heap: the unit of priority p is returned within
      2 * (32 * (p - 1) + 1) pops, whatever is pushed meanwhile. */
  lemma HeapUnitReturned(q: Queue, ops: seq<Op>, p: nat)
    requires Sound(q) && Runs(q, ops)
    requires 1 <= p <= |q.order| && q.order[p - 1] in q.heap
    ensures ReturnedWithin(Answers(q, ops), Some(q.order[p - 1]), 2 * (MaxHeapPushes * (p - 1) + 1))
  {
    AheadBound(q, p - 1);
    HeapUnitWithinPatience(q, ops, p - 1);
    ReturnedWider(Answers(q, ops), Some(q.order[p - 1]), HeapPatience(q, p - 1), 2 * (MaxHeapPushes * (p - 1) + 1));
  }

  // ---- starvation bound for the FIFO ----------------------------------------

  function FifoPatience(q: Queue, k: nat): nat {
    2 * k + (if q.pops % 2 == 0 then 2 else 1)
  }

  lemma FifoPopPays(q: Queue, k: nat)
    requires Sound(q) && k < |q.fifo| && Popped(q).1 != Some(q.fifo[k])
    ensures var q' := Popped(q).0;
      || (k < |q'.fifo| && q'.fifo[k] == q.fifo[k] && FifoPatience(q', k) < FifoPatience(q, k))
      || (k > 0 && k - 1 < |q'.fifo| && q'.fifo[k - 1] == q.fifo[k] && FifoPatience(q', k - 1) < FifoPatience(q, k))
  {
  }

  lemma {:induction false} FifoUnitWithinPatience(q: Queue, ops: seq<Op>, k: nat)
    requires Sound(q) && Runs(q, ops) && k < |q.fifo|
    ensures ReturnedWithin(Answers(q, ops), Some(q.fifo[k]), FifoPatience(q, k))
    decreases |ops|
  {
    if ops != [] {
      var op, u, n := ops[0], q.fifo[k], FifoPatience(q, k);
      AnswersUnfold(q, ops);
      ApplyKeepsSound(q, op);
      if op.Push? {
        FifoUnitWithinPatience(Pushed(q, op.u), ops[1..], k);
      } else if Popped(q).1 == Some(u) {
        ReturnedFirst(Answers(q, ops), Some(u), n);
      } else {
        FifoPopPays(q, k);
        var q' := Popped(q).0;
        var k' := if k < |q'.fifo| && q'.fifo[k] == u && FifoPatience(q', k) < n then k else k - 1;
        FifoUnitWithinPatience(q', ops[1..], k');
        ReturnedLater(Popped(q).1, Answers(q', ops[1..]), Some(u), FifoPatience(q', k'), n);
      }
    }
  }

  /** Starvation bound for the FIFO: a unit with k ahead of it is returned within
      2 * (k + 1) pops. */
  lemma FifoUnitReturned(q: Queue, ops: seq<Op>, k: nat)
    requires Sound(q) && Runs(q, ops) && k < |q.fifo|
    ensures ReturnedWithin(Answers(q, ops), Some(q.fifo[k]), 2 * (k + 1))
  {
    FifoUnitWithinPatience(q, ops, k);
    ReturnedWider(Answers(q, ops), Some(q.fifo[k]), FifoPatience(q, k), 2 * (k + 1));
  }
}
