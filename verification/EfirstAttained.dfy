/** The bound of EfirstBound is attained: for every priority there is a run from a new pool in
    which the unit waits for all but the last of ExactBound pops.  For small priorities a
    later unit that used up its heap pushes keeps the FIFO busy while all earlier units come
    back into the heap; for large ones the first arrival turns into that unit. */
module EfirstAttained {
  import opened Common
  import opened EfirstQueue
  import opened EfirstBound

  lemma RunCons(q: Queue, op: Op, ops: seq<Op>)
    requires Allowed(q, op) && Runs(Apply(q, op), ops)
    ensures Runs(q, [op] + ops) && Final(q, [op] + ops) == Final(Apply(q, op), ops)
    ensures Answers(q, [op] + ops) ==
      (if op.Push? then [] else [Answer(q, op)]) + Answers(Apply(q, op), ops)
  {
    assert ([op] + ops)[1..] == ops;
  }

  predicate Spent(q: Queue, u: nat) {
    u < |q.cs| && q.cs[u] == MaxHeapPushes
  }

  /** The situation that makes the unit at arrival index p wait longest: the unit f keeps
      the FIFO busy, an even pop comes next, and every earlier unit that may still use the
      heap is in it. */
  ghost predicate Contended(q: Queue, p: nat, f: nat) {
    && p < |q.order| && q.order[p] in q.heap
    && q.fifo == [f] && Spent(q, f)
    && q.pops % 2 == 1
    && (forall i :: 0 <= i < p ==> q.order[i] in q.heap || Spent(q, q.order[i]))
  }

  function Tick(q: Queue, n: nat): Queue {
    q.(pops := q.pops + n)
  }

  function Taken(q: Queue, m: nat): Queue {
    q.(heap := q.heap - {m}, pops := q.pops + 2)
  }

  /** An even pop takes f, and pushing f again restores the FIFO. */
  lemma FifoHalf(q: Queue, p: nat, f: nat)
    requires Sound(q) && Contended(q, p, f)
    ensures Popped(q).1 == Some(f)
    ensures Allowed(Popped(q).0, Push(f)) && Pushed(Popped(q).0, f) == Tick(q, 1)
    ensures f != q.order[p]
  {
    assert q.fifo[0] in q.fifo;
    assert Pushed(Popped(q).0, f).fifo == [f];
  }

  /** The odd pop then takes the earliest unit of the heap. */
  lemma HeapHalf(q: Queue, p: nat, f: nat, m: nat)
    requires Contended(q, p, f) && Earliest(q.order, q.heap) == Some(m)
    ensures Popped(Tick(q, 1)) == (Taken(q, m), Some(m))
  {
  }

  lemma TakenKeeps(q: Queue, p: nat, f: nat, i: nat)
    requires Sound(q) && p < |q.order| && i < p && q.order[i] in q.heap
    ensures Sound(Taken(q, q.order[i])) && !InPool(Taken(q, q.order[i]), q.order[i])
    ensures Ahead(Taken(q, q.order[i]), p) == Ahead(q, p) - 1
  {
    var m := q.order[i];
    var q3 := Taken(q, m);
    assert m in q.order;
    forall j | 0 <= j < p && j != i ensures Visits(q3, q.order[j]) == Visits(q, q.order[j]) {
      assert q.order[j] != m;
    }
    AheadDrops(q, q3, p, i);
  }

  /** The state after a round: m goes back into the heap while it may. */
  ghost function AfterRound(q: Queue, m: nat): Queue
    requires m < |q.cs|
  {
    if q.cs[m] < MaxHeapPushes then Pushed(Taken(q, m), m) else Taken(q, m)
  }

  lemma RoundStep(q: Queue, p: nat, f: nat, i: nat)
    requires Sound(q) && Contended(q, p, f) && i < p && q.order[i] in q.heap
    ensures q.order[i] < |q.cs| && !InPool(Taken(q, q.order[i]), q.order[i])
    ensures var q' := AfterRound(q, q.order[i]);
      && Sound(q') && Contended(q', p, f) && Ahead(q', p) == Ahead(q, p) - 1 && q'.order == q.order
  {
    var m := q.order[i];
    assert m in q.order;
    TakenKeeps(q, p, f, i);
    assert q.order[p] != m;
    var q3 := Taken(q, m);
    var q' := AfterRound(q, m);
    assert q.fifo[0] == f;
    if q.cs[m] < MaxHeapPushes {
      PushKeepsSound(q3, m);
      PushKeepsPatience(q3, m, p);
    }
    forall j | 0 <= j < p ensures q'.order[j] in q'.heap || Spent(q', q'.order[j]) {
      assert q.order[j] in q.heap || Spent(q, q.order[j]);
    }
  }

  lemma {:induction false} AheadWitness(q: Queue, p: nat) returns (i: nat)
    requires p <= |q.order| && Ahead(q, p) > 0
    ensures i < p && Visits(q, q.order[i]) > 0
  {
    if Visits(q, q.order[p - 1]) > 0 {
      i := p - 1;
    } else {
      i := AheadWitness(q, p - 1);
    }
  }

  lemma PrependHeapHalf(q: Queue, p: nat, f: nat, m: nat, rest: seq<Op>) returns (ops: seq<Op>)
    requires Contended(q, p, f) && Earliest(q.order, q.heap) == Some(m)
    requires m < |q.cs| && !InPool(Taken(q, m), m) && Runs(AfterRound(q, m), rest)
    ensures Runs(Tick(q, 1), ops)
    ensures Answers(Tick(q, 1), ops) == [Some(m)] + Answers(AfterRound(q, m), rest)
  {
    HeapHalf(q, p, f, m);
    ops := rest;
    if q.cs[m] < MaxHeapPushes {
      RunCons(Taken(q, m), Push(m), ops);
      ops := [Push(m)] + ops;
    }
    RunCons(Tick(q, 1), TimedPop, ops);
    ops := [TimedPop] + ops;
  }

  lemma PrependFifoHalf(q: Queue, p: nat, f: nat, rest: seq<Op>) returns (ops: seq<Op>)
    requires Sound(q) && Contended(q, p, f) && Runs(Tick(q, 1), rest)
    ensures Runs(q, ops) && Answers(q, ops) == [Some(f)] + Answers(Tick(q, 1), rest)
  {
    FifoHalf(q, p, f);
    RunCons(Popped(q).0, Push(f), rest);
    RunCons(q, TimedPop, [Push(f)] + rest);
    ops := [TimedPop] + ([Push(f)] + rest);
  }

  /** From every contended situation some run keeps the unit waiting for all but the last
      of its HeapPatience pops. */
  lemma {:induction false} LongestWait(q: Queue, p: nat, f: nat) returns (ops: seq<Op>)
    requires Sound(q) && Contended(q, p, f)
    ensures Runs(q, ops) && |Answers(q, ops)| == 2 * Ahead(q, p) + 1 == HeapPatience(q, p) - 1
    ensures Some(q.order[p]) !in Answers(q, ops)
    decreases Ahead(q, p)
  {
    FifoHalf(q, p, f);
    if Ahead(q, p) == 0 {
      RunCons(q, TimedPop, []);
      ops := [TimedPop];
    } else {
      var j := AheadWitness(q, p);
      assert q.order[j] in q.heap || Spent(q, q.order[j]);
      var i := EarliestIndex(q.order, q.heap, j);
      EarliestIsIn(q.order, q.heap);
      RoundStep(q, p, f, i);
      var rest := LongestWait(AfterRound(q, q.order[i]), p, f);
      ops := PrependHeapHalf(q, p, f, q.order[i], rest);
      ops := PrependFifoHalf(q, p, f, ops);
      assert q.order[i] != q.order[p];
    }
  }

  // ---- runs, step by step ---------------------------------------------------

  /** ops leads from q to q', answering n pops and never with x. */
  ghost predicate Leads(q: Queue, ops: seq<Op>, q': Queue, n: nat, x: nat) {
    && Runs(q, ops) && Final(q, ops) == q'
    && |Answers(q, ops)| == n && Some(x) !in Answers(q, ops)
  }

  lemma {:induction false} LeadsOn(q: Queue, a: seq<Op>, q1: Queue, m: nat, b: seq<Op>, q2: Queue, n: nat, x: nat)
    requires Leads(q, a, q1, m, x) && Leads(q1, b, q2, n, x)
    ensures Leads(q, a + b, q2, m + n, x)
    decreases |a|
  {
    if a == [] {
      assert a + b == b;
    } else {
      var r := Apply(q, a[0]);
      var k := if a[0].Push? then m else m - 1;
      assert Leads(r, a[1..], q1, k, x);
      LeadsOn(r, a[1..], q1, k, b, q2, n, x);
      assert a + b == [a[0]] + (a[1..] + b);
      RunCons(q, a[0], a[1..] + b);
    }
  }

  lemma LeadsNowhere(q: Queue, x: nat)
    ensures Leads(q, [], q, 0, x)
  {
  }

  lemma LeadsPush(q: Queue, u: nat, x: nat)
    requires Allowed(q, Push(u))
    ensures Leads(q, [Push(u)], Pushed(q, u), 0, x)
  {
    RunCons(q, Push(u), []);
  }

  lemma LeadsPop(q: Queue, x: nat)
    requires Popped(q).1 != Some(x)
    ensures Leads(q, [TimedPop], Popped(q).0, 1, x)
  {
    RunCons(q, TimedPop, []);
  }

  /** One more step at the end of a run. */
  lemma PushOn(q: Queue, ops: seq<Op>, q1: Queue, n: nat, x: nat, u: nat)
    requires Leads(q, ops, q1, n, x) && Allowed(q1, Push(u))
    ensures Leads(q, ops + [Push(u)], Pushed(q1, u), n, x)
  {
    LeadsPush(q1, u, x);
    LeadsOn(q, ops, q1, n, [Push(u)], Pushed(q1, u), 0, x);
  }

  lemma PopOn(q: Queue, ops: seq<Op>, q1: Queue, n: nat, x: nat)
    requires Leads(q, ops, q1, n, x) && Popped(q1).1 != Some(x)
    ensures Leads(q, ops + [TimedPop], Popped(q1).0, n + 1, x)
  {
    LeadsPop(q1, x);
    LeadsOn(q, ops, q1, n, [TimedPop], Popped(q1).0, 1, x);
  }

  // ---- the units ------------------------------------------------------------

  /** The first n arrivals: units 1 to n. */
  function Arrivals(n: nat): (s: seq<nat>)
    ensures |s| == n && (forall i :: 0 <= i < n ==> s[i] == i + 1)
    ensures forall u: nat :: u in s <==> 1 <= u <= n
  {
    if n == 0 then [] else Arrivals(n - 1) + [n]
  }

  function Units(n: nat): (s: set<nat>)
    ensures forall u: nat :: u in s <==> 1 <= u <= n
  {
    if n == 0 then {} else Units(n - 1) + {n}
  }

  function PushesInScene(n: nat, again: nat, pushes: nat, u: int): nat {
    if u <= 0 || u > n then 0 else if u == n then pushes else if u <= again then 2 else 1
  }

  /** The first n arrivals have come; the units below `again` were pushed again and are in
      the heap, and the last arrival was pushed `pushes` times. */
  ghost predicate Scene(q: Queue, size: nat, n: nat, again: nat, pushes: nat) {
    && 1 <= n < size == |q.cs| && again < n && 1 <= pushes <= MaxHeapPushes
    && q.fifo == [] && q.order == Arrivals(n) && q.heap == Units(again)
    && (forall u :: 0 <= u < size ==> q.cs[u] == PushesInScene(n, again, pushes, u))
  }

  /** A unit that is pushed into the empty pool and popped at once. */
  lemma InAndOut(q: Queue, u: nat)
    requires Allowed(q, Push(u)) && q.heap == {} && q.fifo == [] && q.cs[u] < MaxHeapPushes
    ensures Popped(Pushed(q, u)) == (Arrived(q, u).(cs := q.cs[u := q.cs[u] + 1], pops := q.pops + 1), Some(u))
  {
    var q1 := Pushed(q, u);
    assert q1.heap == {u};
    assert u in q1.order;
    EarliestIsIn(q1.order, q1.heap);
    assert q1.heap - {u} == {};
  }

  /** The first n units come and go one after the other. */
  lemma {:induction false} Visitors(size: nat, n: nat) returns (ops: seq<Op>, q: Queue)
    requires 1 <= n < size
    ensures Leads(NewPool(size), ops, q, n, 0) && Scene(q, size, n, 0, 1)
    decreases n
  {
    var q0 := NewPool(size);
    if n == 1 {
      LeadsNowhere(q0, 0);
      ops, q := [], q0;
    } else {
      ops, q := Visitors(size, n - 1);
    }
    InAndOut(q, n);
    PushOn(NewPool(size), ops, q, n - 1, 0, n);
    PopOn(NewPool(size), ops + [Push(n)], Pushed(q, n), n - 1, 0);
    ops, q := ops + [Push(n)] + [TimedPop], Popped(Pushed(q, n)).0;
  }

  /** The last arrival goes on coming and going. */
  lemma {:induction false} Regular(size: nat, n: nat, pushes: nat) returns (ops: seq<Op>, q: Queue, answered: nat)
    requires 1 <= n < size && 1 <= pushes <= MaxHeapPushes
    ensures Leads(NewPool(size), ops, q, answered, 0) && Scene(q, size, n, 0, pushes)
    decreases pushes
  {
    if pushes == 1 {
      ops, q := Visitors(size, n);
      answered := n;
    } else {
      ops, q, answered := Regular(size, n, pushes - 1);
      InAndOut(q, n);
      PushOn(NewPool(size), ops, q, answered, 0, n);
      PopOn(NewPool(size), ops + [Push(n)], Pushed(q, n), answered, 0);
      ops, q, answered := ops + [Push(n)] + [TimedPop], Popped(Pushed(q, n)).0, answered + 1;
    }
  }

  /** A pop of the empty pool adjusts the parity. */
  lemma OddRegular(size: nat, n: nat) returns (ops: seq<Op>, q: Queue, answered: nat)
    requires 1 <= n < size
    ensures Leads(NewPool(size), ops, q, answered, 0) && Scene(q, size, n, 0, MaxHeapPushes) && q.pops % 2 == 1
  {
    ops, q, answered := Regular(size, n, MaxHeapPushes);
    if q.pops % 2 == 0 {
      EarliestIsIn(q.order, q.heap);
      PopOn(NewPool(size), ops, q, answered, 0);
      ops, q, answered := ops + [TimedPop], Popped(q).0, answered + 1;
    }
  }

  /** The earlier units come back, one after the other. */
  lemma {:induction false} Returners(size: nat, n: nat, again: nat) returns (ops: seq<Op>, q: Queue, answered: nat)
    requires 1 <= n < size && again < n
    ensures Leads(NewPool(size), ops, q, answered, 0) && Scene(q, size, n, again, MaxHeapPushes) && q.pops % 2 == 1
    decreases again
  {
    if again == 0 {
      ops, q, answered := OddRegular(size, n);
    } else {
      ops, q, answered := Returners(size, n, again - 1);
      PushOn(NewPool(size), ops, q, answered, 0, again);
      ops, q := ops + [Push(again)], Pushed(q, again);
    }
  }

  lemma {:induction false} ReturnersAhead(q: Queue, size: nat, n: nat, k: nat)
    requires k < n < size == |q.cs| && q.order == Arrivals(n)
    requires forall u :: 1 <= u <= k ==> q.cs[u] == 2 && u in q.heap
    ensures Ahead(q, k) == 31 * k
    decreases k
  {
    if k > 0 {
      ReturnersAhead(q, size, n, k - 1);
      assert q.order[k - 1] == k;
    }
  }

  lemma SceneIsContended(q: Queue, k: nat, q': Queue)
    requires Scene(q, k + 3, k + 2, k + 1, MaxHeapPushes) && q.pops % 2 == 1 && q' == q.(fifo := [k + 2])
    ensures Contended(q', k, k + 2) && Ahead(q', k) == 31 * k && q'.order[k] == k + 1
  {
    ReturnersAhead(q', k + 3, k + 2, k);
    forall i | 0 <= i < k ensures q'.order[i] in q'.heap {
      assert q'.order[i] == i + 1;
    }
    assert q'.order[k] == k + 1;
  }

  /** All units up to priority k + 1 are in the heap for the second time, and a later one
      keeps the FIFO busy. */
  lemma BusyFifo(k: nat) returns (ops: seq<Op>, q: Queue)
    ensures Runs(NewPool(k + 3), ops) && Final(NewPool(k + 3), ops) == q && Sound(q)
    ensures Contended(q, k, k + 2) && Ahead(q, k) == 31 * k && q.order[k] == k + 1
  {
    var answered;
    ops, q, answered := Returners(k + 3, k + 2, k + 1);
    PushOn(NewPool(k + 3), ops, q, answered, 0, k + 2);
    SceneIsContended(q, k, Pushed(q, k + 2));
    ops, q := ops + [Push(k + 2)], Pushed(q, k + 2);
    NewPoolIsGrown(k + 3);
    RunKeepsGrown(NewPool(k + 3), ops);
  }

  // ---- all units fresh ------------------------------------------------------

  /** The first n arrivals are in the heap; the first of them was pushed `pushes` times, the
      others once. */
  ghost predicate Full(q: Queue, size: nat, n: nat, pushes: nat) {
    && 1 <= n < size == |q.cs| && 1 <= pushes <= MaxHeapPushes
    && q.fifo == [] && q.order == Arrivals(n) && q.heap == Units(n)
    && (forall u :: 0 <= u < size ==> q.cs[u] == (if u == 0 || u > n then 0 else if u == 1 then pushes else 1))
  }

  lemma {:induction false} FillUp(size: nat, n: nat) returns (ops: seq<Op>, q: Queue)
    requires 1 <= n < size
    ensures Leads(NewPool(size), ops, q, 1, 0) && Full(q, size, n, 1) && q.pops % 2 == 1
    decreases n
  {
    if n == 1 {
      LeadsPop(NewPool(size), 0);
      ops, q := [TimedPop], Popped(NewPool(size)).0;
    } else {
      ops, q := FillUp(size, n - 1);
    }
    PushOn(NewPool(size), ops, q, 1, 0, n);
    ops, q := ops + [Push(n)], Pushed(q, n);
  }

  /** With an empty FIFO every pop takes the first arrival. */
  lemma FirstPops(q: Queue, size: nat, n: nat, pushes: nat)
    requires Full(q, size, n, pushes)
    ensures Popped(q) == (q.(heap := q.heap - {1}, pops := q.pops + 1), Some(1))
    ensures Allowed(Popped(q).0, Push(1))
  {
    assert q.order[0] == 1;
    EarliestUnique(q.order, q.heap, 0);
  }

  /** The first arrival comes and goes until it is spent. */
  lemma {:induction false} WearOut(q: Queue, size: nat, n: nat, pushes: nat) returns (ops: seq<Op>, q': Queue)
    requires Full(q, size, n, pushes) && n >= 2
    ensures Leads(q, ops, q', MaxHeapPushes + 1 - pushes, n)
    ensures q' == q.(heap := q.heap - {1}, fifo := [1], cs := q.cs[1 := MaxHeapPushes],
            pops := q.pops + MaxHeapPushes + 1 - pushes)
    decreases MaxHeapPushes - pushes
  {
    FirstPops(q, size, n, pushes);
    LeadsPop(q, n);
    var q1 := Popped(q).0;
    PushOn(q, [TimedPop], q1, 1, n, 1);
    var q2 := Pushed(q1, 1);
    if pushes == MaxHeapPushes {
      ops, q' := [TimedPop] + [Push(1)], q2;
      assert q.cs[1 := MaxHeapPushes] == q.cs;
    } else {
      assert q2.heap == q.heap;
      var rest;
      rest, q' := WearOut(q2, size, n, pushes + 1);
      LeadsOn(q, [TimedPop] + [Push(1)], q2, 1, rest, q', MaxHeapPushes - pushes, n);
      ops := [TimedPop] + [Push(1)] + rest;
      assert q2.cs[1 := MaxHeapPushes] == q.cs[1 := MaxHeapPushes];
    }
  }

  lemma {:induction false} FreshAhead(q: Queue, size: nat, n: nat, k: nat)
    requires 1 <= k < n < size == |q.cs| && q.order == Arrivals(n)
    requires q.cs[1] == MaxHeapPushes && 1 !in q.heap
    requires forall u :: 2 <= u <= k ==> q.cs[u] == 1 && u in q.heap
    ensures Ahead(q, k) == 32 * (k - 1)
    decreases k
  {
    assert q.order[k - 1] == k;
    if k > 1 {
      FreshAhead(q, size, n, k - 1);
    } else {
      assert Ahead(q, 0) == 0;
    }
  }

  lemma WornOutIsContended(q: Queue, size: nat, k: nat, q': Queue)
    requires Full(q, size, k + 1, 1) && k >= 1 && q.pops % 2 == 1
    requires q' == q.(heap := q.heap - {1}, fifo := [1], cs := q.cs[1 := MaxHeapPushes], pops := q.pops + MaxHeapPushes)
    ensures Contended(q', k, 1) && Ahead(q', k) == 32 * (k - 1) && q'.order[k] == k + 1
  {
    FreshAhead(q', size, k + 1, k);
    forall i | 0 <= i < k ensures q'.order[i] in q'.heap || Spent(q', q'.order[i]) {
      assert q'.order[i] == i + 1;
    }
    assert q'.order[k] == k + 1;
  }

  /** From the full heap the last unit waits for 64 * k - 31 pops. */
  lemma WaitWhenFull(q: Queue, k: nat) returns (after: seq<Op>)
    requires k >= 1 && Grown(q) && Full(q, k + 2, k + 1, 1) && q.pops % 2 == 1
    ensures Runs(q, after) && |Answers(q, after)| == 64 * k - 31 && Some(k + 1) !in Answers(q, after)
  {
    var ops, q' := WearOut(q, k + 2, k + 1, 1);
    WornOutIsContended(q, k + 2, k, q');
    RunKeepsGrown(q, ops);
    var rest := LongestWait(q', k, 1);
    LeadsOn(q, ops, q', MaxHeapPushes, rest, Final(q', rest), 64 * k - 63, k + 1);
    after := ops + rest;
  }

  lemma FullHeapWait(k: nat) returns (before: seq<Op>, after: seq<Op>, q: Queue)
    requires k >= 1
    ensures Runs(NewPool(k + 2), before) && Final(NewPool(k + 2), before) == q
    ensures k < |q.order| && q.order[k] in q.heap && Runs(q, after)
    ensures |Answers(q, after)| == 64 * k - 31 && Some(q.order[k]) !in Answers(q, after)
  {
    before, q := FillUp(k + 2, k + 1);
    NewPoolIsGrown(k + 2);
    RunKeepsGrown(NewPool(k + 2), before);
    assert q.order[k] == k + 1;
    after := WaitWhenFull(q, k);
  }

  /** No smaller bound holds: for every p some run from a new pool has the unit of priority p
      in the heap and then answers ExactBound(p) - 1 pops without returning it. */
  lemma HeapBoundAttained(p: nat) returns (n: nat, before: seq<Op>, after: seq<Op>)
    requires p >= 1
    ensures Runs(NewPool(n), before)
    ensures var q := Final(NewPool(n), before);
      && p <= |q.order| && q.order[p - 1] in q.heap && Runs(q, after)
      && |Answers(q, after)| == ExactBound(p) - 1 && Some(q.order[p - 1]) !in Answers(q, after)
  {
    var q;
    if p <= 17 {
      n := p + 2;
      before, q := BusyFifo(p - 1);
      after := LongestWait(q, p - 1, p + 1);
    } else {
      n := p + 1;
      before, after, q := FullHeapWait(p - 1);
    }
  }
}
