/** The two-level pool told from the operations alone: which queue a push goes to, and which
    queue a pop serves, in every run from a new pool. */
module PrioHistory {
  import opened Common
  import opened PrioQueue
  import opened PrioAttained

  /** How often unit u is pushed. */
  function PushCount(ops: seq<Op>, u: nat): nat {
    if ops == [] then 0 else (if ops[0] == Push(u) then 1 else 0) + PushCount(ops[1..], u)
  }

  function AtMost25(n: nat): nat {
    if n < 25 then n else 25
  }

  lemma {:induction false} CounterAfter(q: Queue, ops: seq<Op>, u: nat)
    requires Runs(q, ops) && u < |q.counter| && q.counter[u] <= 25
    ensures |Final(q, ops).counter| == |q.counter|
    ensures Final(q, ops).counter[u] == AtMost25(q.counter[u] + PushCount(ops, u))
    decreases |ops|
  {
    if ops != [] {
      CounterAfter(Apply(q, ops[0]), ops[1..], u);
    }
  }

  /** The n-th push of a unit goes to the low-priority queue if it is the first one or one
      after the 25th, and to the high-priority queue otherwise. */
  lemma NthPush(size: nat, ops: seq<Op>, u: nat)
    requires Runs(New(size), ops) && Allowed(Final(New(size), ops), Push(u))
    ensures var q, n := Final(New(size), ops), PushCount(ops, u) + 1;
            var q' := Apply(q, Push(u));
            if n == 1 || n > 25
            then q'.low == q.low + [u] && q'.high == q.high
            else q'.high == q.high + [u] && q'.low == q.low
  {
    SameUnits(New(size), ops);
    CounterAfter(New(size), ops, u);
  }

  lemma {:induction false} SameUnits(q: Queue, ops: seq<Op>)
    requires Runs(q, ops)
    ensures |Final(q, ops).counter| == |q.counter|
    decreases |ops|
  {
    if ops != [] {
      SameUnits(Apply(q, ops[0]), ops[1..]);
    }
  }

  /** How many pops took the lock: the timed ones, and the others that found the pool not
      empty, which is when they answer a unit. */
  function Turns(ops: seq<Op>, answers: seq<Option<nat>>): nat {
    if ops == [] then 0
    else if ops[0].Push? then Turns(ops[1..], answers)
    else if answers == [] then 0
    else (if ops[0].TimedPop? || answers[0].Some? then 1 else 0) + Turns(ops[1..], answers[1..])
  }

  lemma {:induction false} TurnsCounted(q: Queue, ops: seq<Op>)
    requires Runs(q, ops)
    ensures Final(q, ops).cnt == q.cnt + Turns(ops, Answers(q, ops))
    decreases |ops|
  {
    if ops != [] {
      TurnsCounted(Apply(q, ops[0]), ops[1..]);
      var rest := Answers(Apply(q, ops[0]), ops[1..]);
      if ops[0].Push? {
        assert Answers(q, ops) == rest;
      } else {
        assert Answers(q, ops) == [Popped(q).1] + rest;
        assert Answers(q, ops)[1..] == rest;
      }
    }
  }

  ghost function First(a: seq<nat>, b: seq<nat>): Option<nat> {
    if a != [] then Some(a[0]) else if b != [] then Some(b[0]) else None
  }

  /** A pop answers the first unit of the low-priority queue if 256 divides the number of
      turns so far, of the high-priority queue otherwise, and of the other one if that is
      empty. */
  lemma TurnServes(size: nat, ops: seq<Op>)
    requires Runs(New(size), ops)
    ensures var q := Final(New(size), ops);
            Popped(q).1 == if Turns(ops, Answers(New(size), ops)) % 256 == 0
                           then First(q.low, q.high) else First(q.high, q.low)
  {
    TurnsCounted(New(size), ops);
  }
}
