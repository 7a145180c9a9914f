/** The exact starvation bound for the heap of the earliest-first pool.  A unit of priority p
    is returned within ExactBound(p) pops of every run that starts from a new pool, and for
    every p some such run keeps it waiting for all of them. */
module EfirstBound {
  import opened Common
  import opened EfirstQueue
  import opened Waiting

  /** 2 * (max(31 * (p - 1), 32 * (p - 1) - 16) + 1) */
  function ExactBound(p: nat): nat
    requires p >= 1
  {
    if p <= 17 then 62 * (p - 1) + 2 else 64 * (p - 1) - 30
  }

  /** n units, none of which has arrived. */
  function NewPool(n: nat): Queue {
    Queue({}, [], [], seq(n, _ => 0), 0)
  }

  // ---- what every run from a new pool keeps ---------------------------------

  /** The unit has been pushed once and is still there. */
  predicate Fresh(q: Queue, u: nat) {
    u in q.heap && u < |q.cs| && q.cs[u] == 1
  }

  ghost predicate FreshFrom(q: Queue, i: int, j: int) {
    0 <= i < j < |q.order| && Fresh(q, q.order[i]) ==> Fresh(q, q.order[j])
  }

  /** Since the heap gives out the earliest unit, a unit that never left it keeps all later
      ones in it; and only units that used up their heap pushes are in the FIFO. */
  ghost predicate Grown(q: Queue) {
    && Sound(q)
    && (forall i, j :: FreshFrom(q, i, j))
    && (forall u :: u in q.fifo ==> u < |q.cs| && q.cs[u] == MaxHeapPushes)
  }

  lemma PopHeapKeepsGrown(q: Queue)
    requires Grown(q)
    ensures Grown(PopHeap(q).0)
  {
    var q' := PopHeap(q).0;
    PopHeapKeepsSound(q);
    forall i, j ensures FreshFrom(q', i, j) {
      assert FreshFrom(q, i, j);
      if 0 <= i < j < |q.order| && Fresh(q', q.order[i]) {
        var e := EarliestIndex(q.order, q.heap, i);
        assert q.order[e] != q.order[i] && q.order[e] != q.order[j];
      }
    }
  }

  lemma PopKeepsGrown(q: Queue)
    requires Grown(q)
    ensures Grown(Popped(q).0)
  {
    var q1 := Ticked(q);
    forall i, j ensures FreshFrom(q1, i, j) {
      assert FreshFrom(q, i, j);
    }
    if TakesHeap(q1) {
      PopHeapKeepsGrown(q1);
    } else {
      PopFifoKeepsSound(q1);
      var q' := PopFifo(q1).0;
      forall i, j ensures FreshFrom(q', i, j) {
        assert FreshFrom(q1, i, j);
      }
      assert forall u :: u in q'.fifo ==> u in q1.fifo;
    }
  }

  lemma PushKeepsGrown(q: Queue, u: nat)
    requires Grown(q) && Allowed(q, Push(u))
    ensures Grown(Pushed(q, u))
  {
    var q' := Pushed(q, u);
    PushKeepsSound(q, u);
    forall i, j ensures FreshFrom(q', i, j) {
      if 0 <= i < j < |q'.order| && Fresh(q', q'.order[i]) {
        assert u in q.order ==> !Fresh(q', u);
        if j < |q.order| {
          assert FreshFrom(q, i, j);
          assert q.order[i] in q.order && q.order[j] in q.order;
        }
      }
    }
  }

  lemma ApplyKeepsGrown(q: Queue, op: Op)
    requires Grown(q) && Allowed(q, op)
    ensures Grown(Apply(q, op))
  {
    if op.Push? {
      PushKeepsGrown(q, op.u);
    } else {
      PopKeepsGrown(q);
    }
  }

  lemma {:induction false} RunKeepsGrown(q: Queue, ops: seq<Op>)
    requires Grown(q) && Runs(q, ops)
    ensures Grown(Final(q, ops))
    decreases |ops|
  {
    if ops != [] {
      ApplyKeepsGrown(q, ops[0]);
      RunKeepsGrown(Apply(q, ops[0]), ops[1..]);
    }
  }

  // ---- the bound ------------------------------------------------------------

  /** Some unit has used up its heap pushes and left the heap. */
  ghost predicate SomeoneSpent(q: Queue) {
    exists m :: 0 <= m < |q.order| && Visits(q, q.order[m]) == 0
  }

  /** The least number of visits that one of the first k arrivals has left. */
  function LeastVisits(q: Queue, k: nat): nat
    requires 1 <= k <= |q.order|
  {
    var v := Visits(q, q.order[k - 1]);
    if k == 1 then v else if LeastVisits(q, k - 1) < v then LeastVisits(q, k - 1) else v
  }

  /** Pops that may pass before the heap unit of arrival index k is returned.  While no unit
      is spent the FIFO is empty, so every pop takes from the heap until one is. */
  ghost function Patience(q: Queue, k: nat): int
    requires k <= |q.order|
  {
    if k == 0 || SomeoneSpent(q) then HeapPatience(q, k) else 2 * Ahead(q, k) - LeastVisits(q, k) + 2
  }

  lemma {:induction false} LeastIsBelow(q: Queue, k: nat, i: nat)
    requires i < k <= |q.order|
    ensures LeastVisits(q, k) <= Visits(q, q.order[i])
    decreases k
  {
    if i < k - 1 {
      LeastIsBelow(q, k - 1, i);
    }
  }

  lemma {:induction false} LeastDrops(q: Queue, q': Queue, k: nat)
    requires 1 <= k <= |q.order| && k <= |q'.order| && q'.order[..k] == q.order[..k]
    requires forall i :: 0 <= i < k ==> Visits(q', q.order[i]) >= Visits(q, q.order[i]) - 1
    ensures LeastVisits(q', k) >= LeastVisits(q, k) - 1
    decreases k
  {
    assert q'.order[k - 1] == q'.order[..k][k - 1] == q.order[..k][k - 1];
    if k > 1 {
      assert q'.order[..k - 1] == q'.order[..k][..k - 1] == q.order[..k - 1];
      LeastDrops(q, q', k - 1);
    }
  }

  lemma {:induction false} LeastSame(q: Queue, q': Queue, k: nat)
    requires 1 <= k <= |q.order| && k <= |q'.order| && q'.order[..k] == q.order[..k]
    requires forall i :: 0 <= i < k ==> Visits(q', q.order[i]) == Visits(q, q.order[i])
    ensures LeastVisits(q', k) == LeastVisits(q, k)
    decreases k
  {
    assert q'.order[k - 1] == q'.order[..k][k - 1] == q.order[..k][k - 1];
    if k > 1 {
      assert q'.order[..k - 1] == q'.order[..k][..k - 1] == q.order[..k - 1];
      LeastSame(q, q', k - 1);
    }
  }

  /** Pushing gives no unit a visit and takes none away. */
  lemma PushKeepsVisits(q: Queue, u: nat, x: nat)
    requires Sound(q) && Allowed(q, Push(u)) && x in q.order
    ensures Visits(Pushed(q, u), x) == Visits(q, x)
  {
  }

  lemma PushKeepsSpent(q: Queue, u: nat)
    requires Sound(q) && Allowed(q, Push(u))
    ensures SomeoneSpent(Pushed(q, u)) <==> SomeoneSpent(q)
  {
    var q' := Pushed(q, u);
    forall m | 0 <= m < |q.order|
      ensures q'.order[m] == q.order[m] && Visits(q', q'.order[m]) == Visits(q, q.order[m])
    {
      PushKeepsVisits(q, u, q.order[m]);
    }
    if m :| 0 <= m < |q'.order| && Visits(q', q'.order[m]) == 0 {
      assert m < |q.order|;
    }
  }

  lemma PushKeepsTight(q: Queue, u: nat, k: nat)
    requires Sound(q) && Allowed(q, Push(u)) && k < |q.order| && q.order[k] in q.heap
    ensures k < |Pushed(q, u).order| && Pushed(q, u).order[k] == q.order[k] && q.order[k] in Pushed(q, u).heap
    ensures Patience(Pushed(q, u), k) == Patience(q, k)
  {
    var q' := Pushed(q, u);
    PushKeepsPatience(q, u, k);
    PushKeepsSpent(q, u);
    if k > 0 {
      assert q'.order[..k] == q.order[..k];
      forall i | 0 <= i < k ensures Visits(q', q.order[i]) == Visits(q, q.order[i]) {
        PushKeepsVisits(q, u, q.order[i]);
      }
      LeastSame(q, q', k);
    }
  }

  lemma SpentStays(q: Queue)
    requires Sound(q) && SomeoneSpent(q)
    ensures SomeoneSpent(Popped(q).0)
  {
    PopTakesOne(q);
    var m :| 0 <= m < |q.order| && Visits(q, q.order[m]) == 0;
    assert q.order[m] in q.order;
    assert Visits(Popped(q).0, q.order[m]) == 0;
  }

  lemma FifoMeansSpent(q: Queue)
    requires Grown(q) && q.fifo != []
    ensures SomeoneSpent(q)
  {
    assert q.fifo[0] in q.fifo && q.fifo[0] in q.order;
    var m :| 0 <= m < |q.order| && q.order[m] == q.fifo[0];
    assert Visits(q, q.order[m]) == 0;
  }

  /** While no unit is spent a pop takes an earlier unit out of the heap. */
  lemma UnspentPop(q: Queue, k: nat) returns (i: nat)
    requires Grown(q) && !SomeoneSpent(q) && k < |q.order| && q.order[k] in q.heap
    requires Popped(q).1 != Some(q.order[k])
    ensures i < k && Popped(q).0 == Ticked(q).(heap := q.heap - {q.order[i]}) && q.order[i] in q.heap
  {
    if q.fifo != [] {
      FifoMeansSpent(q);
    }
    i := EarliestIndex(q.order, q.heap, k);
    EarliestIsIn(q.order, q.heap);
  }

  lemma TakenVisits(q: Queue, q': Queue, i: nat, j: nat)
    requires Sound(q) && i < |q.order| && j < |q.order| && q.order[i] in q.heap
    requires q'.heap == q.heap - {q.order[i]} && q'.cs == q.cs
    ensures Visits(q', q.order[j]) == Visits(q, q.order[j]) - (if i == j then 1 else 0)
  {
    assert q.order[i] in q.order && q.order[j] in q.order;
  }

  lemma UnspentPopPays(q: Queue, k: nat)
    requires Grown(q) && !SomeoneSpent(q) && 0 < k < |q.order| && q.order[k] in q.heap
    requires Popped(q).1 != Some(q.order[k])
    ensures q.order[k] in Popped(q).0.heap && Popped(q).0.order == q.order
    ensures Patience(Popped(q).0, k) < Patience(q, k)
  {
    var i := UnspentPop(q, k);
    var q' := Popped(q).0;
    assert q.order[i] != q.order[k];
    forall j | 0 <= j < |q.order| ensures Visits(q', q.order[j]) == Visits(q, q.order[j]) - (if i == j then 1 else 0) {
      TakenVisits(q, q', i, j);
    }
    AheadDrops(q, q', k, i);
    LeastIsBelow(q, k, i);
    if SomeoneSpent(q') {
      var m :| 0 <= m < |q'.order| && Visits(q', q'.order[m]) == 0;
      assert m == i && Visits(q, q.order[i]) == 1;
    } else {
      LeastDrops(q, q', k);
    }
  }

  lemma TightPopPays(q: Queue, k: nat)
    requires Grown(q) && k < |q.order| && q.order[k] in q.heap && Popped(q).1 != Some(q.order[k])
    ensures q.order[k] in Popped(q).0.heap && Popped(q).0.order == q.order
    ensures Patience(Popped(q).0, k) < Patience(q, k)
  {
    if k == 0 || SomeoneSpent(q) {
      PopPays(q, k);
      if SomeoneSpent(q) {
        SpentStays(q);
      }
    } else {
      UnspentPopPays(q, k);
    }
  }

  lemma {:induction false} UnspentBound(q: Queue, k: nat)
    requires Sound(q) && 1 <= k <= |q.order|
    ensures LeastVisits(q, k) <= MaxHeapPushes
    ensures 2 * Ahead(q, k) - LeastVisits(q, k) <= 64 * k - 32
    decreases k
  {
    assert q.order[k - 1] in q.order;
    if k > 1 {
      UnspentBound(q, k - 1);
    } else {
      assert Ahead(q, 0) == 0;
    }
  }

  lemma {:induction false} WornBound(q: Queue, k: nat)
    requires Sound(q) && k <= |q.order| && forall i :: 0 <= i < k ==> !Fresh(q, q.order[i])
    ensures Ahead(q, k) <= 31 * k
    decreases k
  {
    if k > 0 {
      WornBound(q, k - 1);
      assert q.order[k - 1] in q.order && !Fresh(q, q.order[k - 1]);
    }
  }

  lemma {:induction false} SkipBound(q: Queue, k: nat, m: nat)
    requires Sound(q) && m < k <= |q.order| && Visits(q, q.order[m]) == 0
    ensures Ahead(q, k) <= 32 * (k - 1)
    decreases k
  {
    if m == k - 1 {
      AheadBound(q, k - 1);
    } else {
      SkipBound(q, k - 1, m);
      assert q.order[k - 1] in q.order;
    }
  }

  /** Before a spent unit no unit is fresh. */
  lemma SpentBound(q: Queue, k: nat)
    requires Grown(q) && SomeoneSpent(q) && k < |q.order| && q.order[k] in q.heap
    ensures 2 * Ahead(q, k) + 2 <= ExactBound(k + 1)
  {
    var m :| 0 <= m < |q.order| && Visits(q, q.order[m]) == 0;
    assert q.order[k] in q.order && m != k;
    if m < k {
      SkipBound(q, k, m);
    } else {
      forall i | 0 <= i < k ensures !Fresh(q, q.order[i]) {
        assert FreshFrom(q, i, m);
      }
      WornBound(q, k);
    }
  }

  lemma PatienceBound(q: Queue, k: nat)
    requires Grown(q) && k < |q.order| && q.order[k] in q.heap
    ensures 0 <= Patience(q, k) <= ExactBound(k + 1)
  {
    if SomeoneSpent(q) {
      SpentBound(q, k);
    } else if k > 0 {
      UnspentBound(q, k);
      LeastBelowAhead(q, k);
    }
  }

  lemma {:induction false} LeastBelowAhead(q: Queue, k: nat)
    requires 1 <= k <= |q.order|
    ensures LeastVisits(q, k) <= Ahead(q, k)
    decreases k
  {
    if k > 1 {
      LeastBelowAhead(q, k - 1);
    } else {
      assert Ahead(q, 0) == 0;
    }
  }

  lemma {:induction false} UnitWithinPatience(q: Queue, ops: seq<Op>, k: nat, n: nat)
    requires Grown(q) && Runs(q, ops) && k < |q.order| && q.order[k] in q.heap && Patience(q, k) <= n
    ensures ReturnedWithin(Answers(q, ops), Some(q.order[k]), n)
    decreases |ops|
  {
    PatienceBound(q, k);
    if ops != [] {
      var op, u := ops[0], q.order[k];
      AnswersUnfold(q, ops);
      ApplyKeepsGrown(q, op);
      if op.Push? {
        PushKeepsTight(q, op.u, k);
        UnitWithinPatience(Pushed(q, op.u), ops[1..], k, n);
      } else if Popped(q).1 == Some(u) {
        PatiencePositive(q, k);
        ReturnedFirst(Answers(q, ops), Some(u), n);
      } else {
        TightPopPays(q, k);
        var q' := Popped(q).0;
        UnitWithinPatience(q', ops[1..], k, n - 1);
        ReturnedLater(Popped(q).1, Answers(q', ops[1..]), Some(u), n - 1, n);
      }
    } else {
      PatiencePositive(q, k);
    }
  }

  lemma PatiencePositive(q: Queue, k: nat)
    requires Grown(q) && k < |q.order|
    ensures Patience(q, k) >= 1
  {
    if k > 0 {
      LeastBelowAhead(q, k);
    }
  }

  lemma NewPoolIsGrown(n: nat)
    ensures Grown(NewPool(n))
  {
  }

  /** In every run from a new pool, a unit of priority p that is in the heap at some point is
      among the next ExactBound(p) pops. */
  lemma HeapUnitReturnedExactly(n: nat, before: seq<Op>, after: seq<Op>, p: nat)
    requires Runs(NewPool(n), before) && Runs(Final(NewPool(n), before), after)
    requires var q := Final(NewPool(n), before); 1 <= p <= |q.order| && q.order[p - 1] in q.heap
    ensures var q := Final(NewPool(n), before);
      ReturnedWithin(Answers(q, after), Some(q.order[p - 1]), ExactBound(p))
  {
    NewPoolIsGrown(n);
    RunKeepsGrown(NewPool(n), before);
    var q := Final(NewPool(n), before);
    PatienceBound(q, p - 1);
    UnitWithinPatience(q, after, p - 1, ExactBound(p));
  }
}
