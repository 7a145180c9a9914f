/** The earliest-first pool as the program keeps it: an array heap that doubles when full, a
    singly linked FIFO threaded through the units, and the counters, all refining
    EfirstQueue.  Units are numbered from 1 and 0 is NULL; every method runs under the
    pool's mutex. */
module EfirstPool {
  import opened Common
  import opened EfirstQueue
  import opened EfirstHeap

  datatype Fifo = Fifo(first: nat, last: nat, size: nat)

  predicate LinkAt(next: seq<nat>, q: seq<nat>, i: int) {
    && 0 <= i < |q| && 0 < q[i] < |next|
    && next[q[i]] == (if i + 1 < |q| then q[i + 1] else 0)
  }

  /** The links spell out q. */
  ghost predicate Chained(f: Fifo, next: seq<nat>, q: seq<nat>) {
    && f.size == |q|
    && f.first == (if q == [] then 0 else q[0])
    && f.last == (if q == [] then 0 else q[|q| - 1])
    && (forall i :: 0 <= i < |q| ==> LinkAt(next, q, i))
  }

  lemma ChainPush(f: Fifo, next: seq<nat>, q: seq<nat>, u: nat, f': Fifo, next': seq<nat>)
    requires Chained(f, next, q) && Distinct(q) && 0 < u < |next| && u !in q
    requires f' == Fifo(if f.size == 0 then u else f.first, u, f.size + 1)
    requires next' == (if f.size == 0 then next[u := 0]
                       else if f.last < |next| then next[u := 0][f.last := u] else next)
    ensures Chained(f', next', q + [u]) && Distinct(q + [u])
  {
    if q != [] {
      assert LinkAt(next, q, |q| - 1);
    }
    forall i | 0 <= i < |q| + 1 ensures LinkAt(next', q + [u], i) {
      if i < |q| {
        assert LinkAt(next, q, i);
        assert i < |q| - 1 ==> q[i] != q[|q| - 1];
      }
    }
  }

  lemma ChainPop(f: Fifo, next: seq<nat>, q: seq<nat>)
    requires Chained(f, next, q) && Distinct(q) && q != []
    ensures LinkAt(next, q, 0)
    ensures Chained(Fifo(next[q[0]], if f.size == 1 then 0 else f.last, f.size - 1), next[q[0] := 0], q[1..])
    ensures Distinct(q[1..]) && q[0] !in q[1..]
  {
    assert LinkAt(next, q, 0);
    var next', q' := next[q[0] := 0], q[1..];
    forall i | 0 <= i < |q'| ensures LinkAt(next', q', i) {
      assert LinkAt(next, q, i + 1);
      assert q[0] != q[i + 1];
    }
  }

  predicate NumberedAt(order: seq<nat>, priority: seq<nat>, k: int) {
    && 0 <= k < |order|
    && order[k] < |priority| && priority[order[k]] == k + 1
  }

  predicate KnownUnit(order: seq<nat>, priority: seq<nat>, u: nat) {
    && u < |priority| && priority[u] <= |order|
    && (priority[u] > 0 ==> order[priority[u] - 1] == u)
  }

  /** Priorities are the positions in the order of arrival. */
  ghost predicate Numbered(order: seq<nat>, priority: seq<nat>) {
    && 0 < |priority| && priority[0] == 0
    && (forall k :: 0 <= k < |order| ==> NumberedAt(order, priority, k))
    && (forall u: nat :: u < |priority| ==> KnownUnit(order, priority, u))
  }

  lemma NumberedMembers(order: seq<nat>, priority: seq<nat>, u: nat)
    requires Numbered(order, priority) && u < |priority|
    ensures u in order <==> priority[u] > 0
  {
    assert KnownUnit(order, priority, u);
    if priority[u] > 0 {
      assert order[priority[u] - 1] == u;
    }
    if u in order {
      var k :| 0 <= k < |order| && order[k] == u;
      assert NumberedAt(order, priority, k);
    }
  }

  lemma NumberNew(order: seq<nat>, priority: seq<nat>, u: nat)
    requires Numbered(order, priority) && 0 < u < |priority| && priority[u] == 0
    ensures u !in order && Numbered(order + [u], priority[u := |order| + 1])
  {
    NumberedMembers(order, priority, u);
    var order', priority' := order + [u], priority[u := |order| + 1];
    forall k | 0 <= k < |order'| ensures NumberedAt(order', priority', k) {
      assert k < |order| ==> NumberedAt(order, priority, k);
    }
    forall x: nat | x < |priority| ensures KnownUnit(order', priority', x) {
      assert KnownUnit(order, priority, x);
    }
  }

  /** The unit with the least priority is the earliest one. */
  lemma LeastIsEarliest(order: seq<nat>, priority: seq<nat>, heap: set<nat>, m: nat)
    requires Numbered(order, priority) && m in heap
    requires forall u :: u in heap ==> u in order && Key(priority, m) <= Key(priority, u)
    ensures Earliest(order, heap) == Some(m)
  {
    assert m in order;
    var i :| 0 <= i < |order| && order[i] == m;
    assert NumberedAt(order, priority, i);
    forall j | 0 <= j < i ensures order[j] !in heap {
      assert NumberedAt(order, priority, j);
    }
    EarliestUnique(order, heap, i);
  }

  /** v is a heap that holds exactly the units of the set, once each. */
  ghost predicate HeapIs(v: seq<nat>, priority: seq<nat>, heap: set<nat>) {
    HeapOrder(v, priority) && multiset(v) == multiset(heap)
  }

  lemma HeapMembers(v: seq<nat>, priority: seq<nat>, heap: set<nat>)
    requires HeapIs(v, priority, heap)
    ensures forall u :: u in v <==> u in heap
    ensures |v| == |heap|
  {
    assert forall u :: u in v <==> u in multiset(v);
    assert |multiset(v)| == |v|;
  }

  lemma HeapSize(v: seq<nat>, priority: seq<nat>, heap: set<nat>)
    requires HeapIs(v, priority, heap)
    ensures |v| == |heap|
    ensures |v| == 0 <==> heap == {}
  {
    HeapMembers(v, priority, heap);
  }

  /** The keys of the entries are all that matters. */
  lemma HeapFrame(v: seq<nat>, priority: seq<nat>, heap: set<nat>, priority': seq<nat>)
    requires HeapIs(v, priority, heap)
    requires forall u: nat :: u in heap ==> Key(priority', u) == Key(priority, u)
    ensures HeapIs(v, priority', heap)
  {
    HeapMembers(v, priority, heap);
    forall i ensures OrderedAt(v, priority', i) {
      assert OrderedAt(v, priority, i);
    }
  }

  lemma AddToSet(v: seq<nat>, w: seq<nat>, heap: set<nat>, u: nat)
    requires multiset(v) == multiset(heap) && u !in heap
    requires multiset(w) == multiset(v) + multiset{u}
    ensures multiset(w) == multiset(heap + {u})
  {
  }

  lemma TakeFromSet(v: seq<nat>, w: seq<nat>, heap: set<nat>, u: nat)
    requires multiset(v) == multiset(heap)
    requires multiset(w) + multiset{u} == multiset(v)
    ensures u in heap && multiset(w) == multiset(heap - {u})
  {
    assert u in multiset(v);
    forall x ensures multiset(w)[x] == multiset(heap - {u})[x] {
      assert multiset(v)[x] == multiset(w)[x] + multiset{u}[x];
    }
  }

  /** realloc: the old contents are kept. */
  method Realloc(a: array<nat>, length: nat) returns (b: array<nat>)
    requires a.Length <= length
    ensures fresh(b) && b.Length == length && b[..a.Length] == a[..]
  {
    b := new nat[length](_ => 0);
    for i := 0 to a.Length
      invariant b[..i] == a[..i]
    {
      b[i] := a[i];
    }
  }

  /** queue_push_prio on the array: doubles the capacity of a full array. */
  method PushEntry(entries: array<nat>, capacity: nat, size: nat, u: nat, priority: seq<nat>, ghost heap: set<nat>)
    returns (entries': array<nat>, capacity': nat, ghost v': seq<nat>)
    requires 1 <= capacity && size <= capacity && entries.Length == capacity + 1
    requires HeapIs(entries[1..size + 1], priority, heap) && u !in heap
    modifies entries
    ensures entries' == entries || fresh(entries')
    ensures capacity' == (if size < capacity then capacity else 2 * capacity)
    ensures size + 1 <= capacity' && entries'.Length == capacity' + 1
    ensures v' == entries'[1..size + 2] && HeapIs(v', priority, heap + {u})
  {
    entries', capacity' := entries, capacity;
    ghost var v := entries[1..size + 1];
    if size >= capacity {
      capacity' := capacity * 2;
      entries' := Realloc(entries, capacity' + 1);
      assert v == entries'[..entries.Length][1..size + 1];
    }
    assert entries'[1..size + 1] == v;
    SiftUp(entries', size, u, priority);
    v' := entries'[1..size + 2];
    AddToSet(v, v', heap, u);
  }

  /** queue_pop_prio on the array. */
  method PopEntry(entries: array<nat>, size: nat, priority: seq<nat>, ghost heap: set<nat>)
    returns (m: nat, ghost v': seq<nat>)
    requires 1 <= size < entries.Length
    requires HeapIs(entries[1..size + 1], priority, heap)
    modifies entries
    ensures v' == entries[1..size] && m in heap && HeapIs(v', priority, heap - {m})
    ensures forall u :: u in heap ==> Key(priority, m) <= Key(priority, u)
  {
    ghost var v := entries[1..size + 1];
    HeapMembers(v, priority, heap);
    m := SiftDown(entries, size - 1, priority);
    v' := entries[1..size];
    TakeFromSet(v, v', heap, m);
  }

  // ---- the units ------------------------------------------------------------

  /** The fields of the units, indexed by unit. */
  datatype Units = Units(priority: seq<nat>, cs: seq<nat>, inPool: seq<bool>, next: seq<nat>)

  ghost predicate Flagged(inPool: seq<bool>, heap: set<nat>, fifo: seq<nat>) {
    forall u: nat :: u < |inPool| ==> (inPool[u] <==> u in heap || u in fifo)
  }

  ghost predicate UnitsOk(us: Units, fifo: Fifo, num: nat, q: Queue) {
    && |us.priority| == |us.cs| == |us.inPool| == |us.next|
    && us.cs == q.cs
    && Numbered(q.order, us.priority) && num == |q.order|
    && Chained(fifo, us.next, q.fifo)
    && Flagged(us.inPool, q.heap, q.fifo)
  }

  /** A pooled unit is a unit and flagged. */
  lemma PooledIsFlagged(us: Units, fifo: Fifo, num: nat, q: Queue, u: nat)
    requires UnitsOk(us, fifo, num, q) && Sound(q) && InPool(q, u)
    ensures 0 < u < |us.inPool| && us.inPool[u]
  {
    assert u in q.order;
    NumberedMembers(q.order, us.priority, 0);
  }

  lemma CreateKeepsUnits(us: Units, fifo: Fifo, num: nat, q: Queue)
    requires UnitsOk(us, fifo, num, q) && Sound(q)
    ensures var q' := q.(cs := q.cs + [0]);
      && Sound(q') && !InPool(q', |q.cs|)
      && UnitsOk(Units(us.priority + [0], us.cs + [0], us.inPool + [false], us.next + [0]), fifo, num, q')
  {
    var u := |q.cs|;
    assert u !in q.order && u !in q.heap && u !in q.fifo;
    forall k | 0 <= k < |q.order| ensures NumberedAt(q.order, us.priority + [0], k) {
      assert NumberedAt(q.order, us.priority, k);
    }
    forall x: nat | x <= |us.priority| ensures KnownUnit(q.order, us.priority + [0], x) {
      assert x < |us.priority| ==> KnownUnit(q.order, us.priority, x);
    }
    forall i | 0 <= i < |q.fifo| ensures LinkAt(us.next + [0], q.fifo, i) {
      assert LinkAt(us.next, q.fifo, i);
    }
  }

  lemma PushHeapKeepsUnits(us: Units, fifo: Fifo, num: nat, q: Queue, u: nat)
    requires UnitsOk(us, fifo, num, q) && u < |us.cs|
    ensures UnitsOk(us.(inPool := us.inPool[u := true], cs := us.cs[u := us.cs[u] + 1]), fifo, num,
                    q.(heap := q.heap + {u}, cs := q.cs[u := q.cs[u] + 1]))
  {
  }

  lemma PushFifoKeepsFlags(inPool: seq<bool>, q: Queue, u: nat)
    requires Flagged(inPool, q.heap, q.fifo) && u < |inPool|
    ensures Flagged(inPool[u := true], q.heap, q.fifo + [u])
  {
  }

  lemma PopKeepsFlags(inPool: seq<bool>, q: Queue, q': Queue, u: nat)
    requires Flagged(inPool, q.heap, q.fifo) && u < |inPool|
    requires forall x: nat :: InPool(q', x) <==> InPool(q, x) && x != u
    ensures Flagged(inPool[u := false], q'.heap, q'.fifo)
  {
    forall x: nat | x < |inPool| ensures inPool[u := false][x] <==> x in q'.heap || x in q'.fifo {
      assert InPool(q', x) <==> InPool(q, x) && x != u;
    }
  }

  lemma PopFifoKeepsUnits(us: Units, fifo: Fifo, num: nat, q: Queue)
    requires UnitsOk(us, fifo, num, q) && Sound(q) && q.fifo != []
    ensures fifo.size > 0 && fifo.first == q.fifo[0] && 0 < fifo.first < |us.next| && us.inPool[fifo.first]
    ensures UnitsOk(us.(next := us.next[fifo.first := 0], inPool := us.inPool[fifo.first := false]),
                    Fifo(us.next[fifo.first], if fifo.size == 1 then 0 else fifo.last, fifo.size - 1), num,
                    q.(fifo := q.fifo[1..]))
  {
    ChainPop(fifo, us.next, q.fifo);
    PooledIsFlagged(us, fifo, num, q, q.fifo[0]);
    PopKeepsFlags(us.inPool, q, q.(fifo := q.fifo[1..]), q.fifo[0]);
  }

  lemma PopHeapKeepsUnits(us: Units, fifo: Fifo, num: nat, q: Queue, m: nat)
    requires UnitsOk(us, fifo, num, q) && Sound(q) && m in q.heap
    ensures 0 < m < |us.inPool| && us.inPool[m]
    ensures UnitsOk(us.(inPool := us.inPool[m := false]), fifo, num, q.(heap := q.heap - {m}))
  {
    PooledIsFlagged(us, fifo, num, q, m);
    PopKeepsFlags(us.inPool, q, q.(heap := q.heap - {m}), m);
  }

  /** A heap unit of least priority is what the abstract queue pops. */
  lemma HeapPopped(us: Units, fifo: Fifo, num: nat, q: Queue, m: nat)
    requires UnitsOk(us, fifo, num, q) && Sound(q) && m in q.heap
    requires forall u :: u in q.heap ==> Key(us.priority, m) <= Key(us.priority, u)
    ensures PopHeap(q) == (q.(heap := q.heap - {m}), Some(m)) && Sound(PopHeap(q).0)
    ensures 0 < m < |us.inPool| && us.inPool[m]
    ensures UnitsOk(us.(inPool := us.inPool[m := false]), fifo, num, q.(heap := q.heap - {m}))
  {
    LeastIsEarliest(q.order, us.priority, q.heap, m);
    PopHeapKeepsUnits(us, fifo, num, q, m);
    PopHeapKeepsSound(q);
  }

  lemma EmptyHeapPopped(q: Queue)
    requires q.heap == {}
    ensures PopHeap(q) == (q, None)
  {
    EarliestIsIn(q.order, q.heap);
  }

  class Pool {
    var pops: nat
    var entries: array<nat>
    var capacity: nat
    var prioSize: nat
    var fifo: Fifo
    var num: nat
    var units: Units
    ghost var queue: Queue         // the abstract value
    ghost var content: seq<nat>    // the heap's entries

    /** The array and its size fit together. */
    ghost predicate HeapShape()
      reads this, entries
    {
      && 1 <= capacity && prioSize <= capacity && entries.Length == capacity + 1
      && content == entries[1..prioSize + 1]
    }

    /** The concrete state represents `queue`. */
    ghost predicate Represents()
      reads this, entries
    {
      && HeapShape()
      && HeapIs(content, units.priority, queue.heap)
      && UnitsOk(units, fifo, num, queue)
      && queue.pops == pops
    }

    ghost predicate Valid()
      reads this, entries
    {
      Represents() && Sound(queue)
    }

    /** pool_init: create_queue(32) */
    constructor ()
      ensures Valid() && fresh(entries)
      ensures queue == Queue({}, [], [], [0], 0) && capacity == 32
    {
      pops, capacity, prioSize, num := 0, 32, 0, 0;
      fifo := Fifo(0, 0, 0);
      units := Units([0], [0], [false], [0]);
      queue, content := Queue({}, [], [], [0], 0), [];
      entries := new nat[33](_ => 0);
      new;
      assert entries[1..1] == [];
    }

    /** pool_unit_create_from_thread, pool_unit_create_from_task */
    method CreateUnit() returns (u: nat)
      requires Valid()
      modifies this
      ensures Valid() && entries == old(entries)
      ensures 0 < u == old(|units.cs|) && !InPool(queue, u)
      ensures queue == old(queue).(cs := old(queue.cs) + [0])
    {
      u := |units.priority|;
      CreateKeepsUnits(units, fifo, num, queue);
      HeapFrame(content, units.priority, queue.heap, units.priority + [0]);
      units := Units(units.priority + [0], units.cs + [0], units.inPool + [false], units.next + [0]);
      queue := queue.(cs := queue.cs + [0]);
    }

    /** The first push of a unit numbers it. */
    method Number(u: nat)
      requires Represents() && 0 < u < |units.priority| && u !in queue.heap
      modifies this`num, this`units, this`queue
      ensures Represents() && queue == Arrived(old(queue), u)
    {
      NumberedMembers(queue.order, units.priority, u);
      if units.priority[u] == 0 {
        num := num + 1;
        NumberNew(queue.order, units.priority, u);
        HeapFrame(content, units.priority, queue.heap, units.priority[u := num]);
        units := units.(priority := units.priority[u := num]);
        queue := Arrived(queue, u);
      }
    }

    /** queue_push_prio, on the array */
    method HeapPush(u: nat)
      requires HeapShape() && HeapIs(content, units.priority, queue.heap) && u !in queue.heap
      modifies this`entries, this`capacity, this`prioSize, this`content, entries
      ensures HeapShape() && (entries == old(entries) || fresh(entries))
      ensures HeapIs(content, units.priority, queue.heap + {u})
    {
      entries, capacity, content := PushEntry(entries, capacity, prioSize, u, units.priority, queue.heap);
      prioSize := prioSize + 1;
    }

    /** queue_pop_prio, on the array */
    method HeapPop() returns (m: nat)
      requires HeapShape() && HeapIs(content, units.priority, queue.heap) && prioSize > 0
      modifies this`prioSize, this`content, entries
      ensures HeapShape() && m in queue.heap && HeapIs(content, units.priority, queue.heap - {m})
      ensures forall u :: u in queue.heap ==> Key(units.priority, m) <= Key(units.priority, u)
    {
      m, content := PopEntry(entries, prioSize, units.priority, queue.heap);
      prioSize := prioSize - 1;
    }

    /** queue_push_prio, and the count kept by queue_push */
    method PushPrio(u: nat)
      requires Represents() && u < |units.cs| && u !in queue.heap
      modifies this, entries
      ensures Represents() && (entries == old(entries) || fresh(entries))
      ensures queue == old(queue).(heap := old(queue.heap) + {u}, cs := old(queue.cs)[u := old(queue.cs)[u] + 1])
    {
      PushHeapKeepsUnits(units, fifo, num, queue, u);
      HeapPush(u);
      units := units.(inPool := units.inPool[u := true], cs := units.cs[u := units.cs[u] + 1]);
      queue := queue.(heap := queue.heap + {u}, cs := queue.cs[u := queue.cs[u] + 1]);
    }

    /** queue_push_fifo */
    method PushFifo(u: nat)
      requires Represents() && Distinct(queue.fifo) && 0 < u < |units.cs| && u !in queue.fifo
      modifies this`fifo, this`units, this`queue
      ensures Represents() && queue == old(queue).(fifo := old(queue.fifo) + [u])
    {
      if queue.fifo != [] {
        assert LinkAt(units.next, queue.fifo, |queue.fifo| - 1);
      }
      units := units.(next := units.next[u := 0]);
      if fifo.size == 0 {
        fifo := fifo.(first := u);
      } else {
        units := units.(next := units.next[fifo.last := u]);
      }
      fifo := fifo.(last := u);
      fifo := fifo.(size := fifo.size + 1);
      units := units.(inPool := units.inPool[u := true]);
      ChainPush(old(fifo), old(units.next), queue.fifo, u, fifo, units.next);
      PushFifoKeepsFlags(old(units.inPool), queue, u);
      queue := queue.(fifo := queue.fifo + [u]);
    }

    /** queue_push */
    method QueuePush(u: nat)
      requires Represents() && Distinct(queue.fifo) && 0 < u < |units.cs| && !InPool(queue, u)
      modifies this, entries
      ensures Represents() && (entries == old(entries) || fresh(entries))
      ensures queue == Enqueued(old(queue), u)
    {
      if units.cs[u] < MaxHeapPushes {
        PushPrio(u);
      } else {
        PushFifo(u);
      }
    }

    /** pool_push: the caller hands in a unit that is not in the pool. */
    method Push(u: nat)
      requires Valid() && 0 < u < |units.inPool| && !units.inPool[u]
      modifies this, entries
      ensures Valid() && (entries == old(entries) || fresh(entries))
      ensures Allowed(old(queue), Op.Push(u)) && queue == Apply(old(queue), Op.Push(u))
    {
      PushKeepsSound(queue, u);
      Number(u);
      QueuePush(u);
    }

    /** queue_pop_prio; 0 stands for NULL */
    method PopPrio() returns (m: nat)
      requires Valid()
      modifies this, entries
      ensures Valid() && entries == old(entries)
      ensures (queue, if m == 0 then None else Some(m)) == PopHeap(old(queue))
    {
      HeapSize(content, units.priority, queue.heap);
      if prioSize == 0 {
        EmptyHeapPopped(queue);
        return 0;
      }
      m := HeapPop();
      HeapPopped(units, fifo, num, queue, m);
      units := units.(inPool := units.inPool[m := !units.inPool[m]]);
      queue := queue.(heap := queue.heap - {m});
    }

    /** queue_pop_fifo; 0 stands for NULL */
    method PopFifo() returns (u: nat)
      requires Valid()
      modifies this`fifo, this`units, this`queue
      ensures Valid()
      ensures (queue, if u == 0 then None else Some(u)) == EfirstQueue.PopFifo(old(queue))
    {
      if fifo.size == 0 {
        return 0;
      }
      PopFifoKeepsUnits(units, fifo, num, queue);
      PopFifoKeepsSound(queue);
      u := fifo.first;
      fifo := Fifo(units.next[u], if fifo.size == 1 then 0 else fifo.last, fifo.size - 1);
      units := units.(next := units.next[u := 0], inPool := units.inPool[u := !units.inPool[u]]);
      queue := queue.(fifo := queue.fifo[1..]);
    }

    /** Counts the pop and decides by parity which half it prefers. */
    method Turn() returns (usePrio: bool)
      requires Valid()
      modifies this`pops, this`queue
      ensures Valid() && queue == Ticked(old(queue)) && usePrio == TakesHeap(queue)
    {
      HeapSize(content, units.priority, queue.heap);
      assert prioSize == 0 <==> queue.heap == {};
      pops := pops + 1;
      queue := Ticked(queue);
      usePrio := if pops % 2 == 0 then fifo.size == 0 else prioSize > 0;
    }

    /** queue_pop; 0 stands for NULL */
    method QueuePop() returns (u: nat)
      requires Valid()
      modifies this, entries
      ensures Valid() && entries == old(entries)
      ensures (queue, if u == 0 then None else Some(u)) == Popped(old(queue))
    {
      var usePrio := Turn();
      if usePrio {
        u := PopPrio();
      } else {
        u := PopFifo();
      }
    }

    /** pool_pop, with its lock-free test for an empty pool */
    method Pop() returns (u: nat)
      requires Valid()
      modifies this, entries
      ensures Valid() && entries == old(entries)
      ensures queue == Apply(old(queue), Op.Pop)
      ensures (if u == 0 then None else Some(u)) == Answer(old(queue), Op.Pop)
    {
      HeapSize(content, units.priority, queue.heap);
      if prioSize == 0 && fifo.size == 0 {
        return 0;
      }
      u := QueuePop();
    }

    /** pool_get_size */
    method GetSize() returns (n: nat)
      requires Valid()
      ensures n == |queue.heap| + |queue.fifo|
    {
      HeapSize(content, units.priority, queue.heap);
      n := prioSize + fifo.size;
    }
  }
}
