/** The earliest-first pool told from the operations alone: where a push goes, in what order
    units count as earlier, and which half a pop serves, in every run from a new pool. */
module EfirstHistory {
  import opened Common
  import opened EfirstQueue
  import opened EfirstBound

  /** How often unit u is pushed. */
  function PushCount(ops: seq<Op>, u: nat): nat {
    if ops == [] then 0 else (if ops[0] == Push(u) then 1 else 0) + PushCount(ops[1..], u)
  }

  function AtMost32(n: nat): nat {
    if n < 32 then n else 32
  }

  lemma {:induction false} CountAfter(q: Queue, ops: seq<Op>, u: nat)
    requires Runs(q, ops) && u < |q.cs| && q.cs[u] <= 32
    ensures |Final(q, ops).cs| == |q.cs|
    ensures Final(q, ops).cs[u] == AtMost32(q.cs[u] + PushCount(ops, u))
    decreases |ops|
  {
    if ops != [] {
      CountAfter(Apply(q, ops[0]), ops[1..], u);
    }
  }

  lemma {:induction false} SameUnits(q: Queue, ops: seq<Op>)
    requires Runs(q, ops)
    ensures |Final(q, ops).cs| == |q.cs|
    decreases |ops|
  {
    if ops != [] {
      SameUnits(Apply(q, ops[0]), ops[1..]);
    }
  }

  /** The n-th push of a unit goes into the heap if n is at most 32 and to the end of the FIFO
      otherwise. */
  lemma NthPush(size: nat, ops: seq<Op>, u: nat)
    requires Runs(NewPool(size), ops) && Allowed(Final(NewPool(size), ops), Push(u))
    ensures var q, n := Final(NewPool(size), ops), PushCount(ops, u) + 1;
            var q' := Apply(q, Push(u));
            if n <= 32
            then q'.heap == q.heap + {u} && q'.fifo == q.fifo
            else q'.fifo == q.fifo + [u] && q'.heap == q.heap
  {
    SameUnits(NewPool(size), ops);
    CountAfter(NewPool(size), ops, u);
  }

  /** The units in the order of their first pushes, behind those that arrived before. */
  function Arrivals(before: seq<nat>, ops: seq<Op>): seq<nat>
    decreases |ops|
  {
    if ops == [] then before
    else if ops[0].Push? && ops[0].u !in before then Arrivals(before + [ops[0].u], ops[1..])
    else Arrivals(before, ops[1..])
  }

  lemma {:induction false} OrderAfter(q: Queue, ops: seq<Op>)
    requires Runs(q, ops)
    ensures Final(q, ops).order == Arrivals(q.order, ops)
    decreases |ops|
  {
    if ops != [] {
      OrderAfter(Apply(q, ops[0]), ops[1..]);
    }
  }

  /** How many pops took the lock: the timed ones, and the others that found the pool not
      empty, which is when they answer a unit. */
  function Turns(ops: seq<Op>, answers: seq<Option<nat>>): nat {
    if ops == [] then 0
    else if ops[0].Push? then Turns(ops[1..], answers)
    else if answers == [] then 0
    else (if ops[0].TimedPop? || answers[0].Some? then 1 else 0) + Turns(ops[1..], answers[1..])
  }

  lemma {:induction false} TurnsCounted(q: Queue, ops: seq<Op>)
    requires Sound(q) && Runs(q, ops)
    ensures Final(q, ops).pops == q.pops + Turns(ops, Answers(q, ops))
    decreases |ops|
  {
    if ops != [] {
      ApplyKeepsSound(q, ops[0]);
      TurnsCounted(Apply(q, ops[0]), ops[1..]);
      var rest := Answers(Apply(q, ops[0]), ops[1..]);
      if ops[0].Push? {
        assert Answers(q, ops) == rest;
      } else {
        PopTakesOne(q);
        assert Answers(q, ops) == [Answer(q, ops[0])] + rest;
        assert Answers(q, ops)[1..] == rest;
      }
    }
  }

  /** Unit u is in the heap, and no unit of the heap was pushed for the first time before u. */
  ghost predicate EarliestOf(arrivals: seq<nat>, heap: set<nat>, u: nat) {
    exists i :: 0 <= i < |arrivals| && arrivals[i] == u && u in heap &&
                forall j :: 0 <= j < i ==> arrivals[j] !in heap
  }

  lemma {:induction false} EarliestIsEarliest(order: seq<nat>, heap: set<nat>)
    ensures Earliest(order, heap).Some? ==> EarliestOf(order, heap, Earliest(order, heap).value)
    ensures Earliest(order, heap).None? ==> forall u :: u in order ==> u !in heap
    decreases |order|
  {
    if order != [] {
      assert order == [order[0]] + order[1..];
      if order[0] in heap {
        assert EarliestOf(order, heap, order[0]);
      } else {
        EarliestIsEarliest(order[1..], heap);
        if Earliest(order, heap).Some? {
          var u := Earliest(order, heap).value;
          var i :| 0 <= i < |order[1..]| && order[1..][i] == u && forall j :: 0 <= j < i ==> order[1..][j] !in heap;
          assert order[i + 1] == u;
          forall j | 0 <= j < i + 1 ensures order[j] !in heap {
            assert j > 0 ==> order[j] == order[1..][j - 1];
          }
        }
      }
    }
  }

  /** The pop serves this half: it takes the unit of the heap that was pushed for the first
      time before all others of the heap, or the unit that has been in the FIFO longest. */
  ghost predicate Serves(arrivals: seq<nat>, q: Queue, fromHeap: bool, answer: Option<nat>) {
    && answer.Some?
    && if fromHeap then EarliestOf(arrivals, q.heap, answer.value) else q.fifo != [] && answer.value == q.fifo[0]
  }

  /** Odd turns serve the heap, even turns the FIFO, and either the other half if its own is
      empty; only an empty pool answers nothing. */
  lemma TurnServes(size: nat, ops: seq<Op>)
    requires Runs(NewPool(size), ops)
    ensures var q, turn := Final(NewPool(size), ops), Turns(ops, Answers(NewPool(size), ops)) + 1;
            if q.heap == {} && q.fifo == [] then Popped(q).1.None?
            else Serves(Arrivals([], ops), q, if turn % 2 == 1 then q.heap != {} else q.fifo == [], Popped(q).1)
  {
    NewPoolSound(size);
    FinalSound(NewPool(size), ops);
    TurnsCounted(NewPool(size), ops);
    OrderAfter(NewPool(size), ops);
    PopServes(Final(NewPool(size), ops));
  }

  /** The same for the pop after q.pops turns. */
  lemma PopServes(q: Queue)
    requires Sound(q)
    ensures if q.heap == {} && q.fifo == [] then Popped(q).1.None?
            else Serves(q.order, q, if (q.pops + 1) % 2 == 1 then q.heap != {} else q.fifo == [], Popped(q).1)
  {
    EarliestIsEarliest(q.order, q.heap);
    if q.heap != {} {
      var u :| u in q.heap;
      assert u in q.order;
    }
  }

  lemma NewPoolSound(size: nat)
    ensures Sound(NewPool(size))
  {
  }

  lemma {:induction false} FinalSound(q: Queue, ops: seq<Op>)
    requires Sound(q) && Runs(q, ops)
    ensures Sound(Final(q, ops))
    decreases |ops|
  {
    if ops != [] {
      ApplyKeepsSound(q, ops[0]);
      FinalSound(Apply(q, ops[0]), ops[1..]);
    }
  }
}
