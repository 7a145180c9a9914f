/** The two-level pool as an abstract pair of FIFO sequences, and its starvation bounds. */
module PrioQueue {
  import opened Common
  import opened Waiting

  const PriorityLimit: nat := 25

  datatype Queue = Queue(
    high: seq<nat>,
    low: seq<nat>,
    counter: seq<nat>,   // counter[u]: pushes of unit u so far, up to the limit
    cnt: nat)            // pops so far

  datatype Op = Push(u: nat) | Pop | TimedPop

  /** A pooled unit is in exactly one of the two queues, at exactly one place. */
  ghost predicate Sound(q: Queue) {
    && Distinct(q.high) && Distinct(q.low)
    && (forall u :: u in q.high ==> u < |q.counter| && u !in q.low)
    && (forall u :: u in q.low ==> u < |q.counter|)
    && (forall u :: 0 <= u < |q.counter| ==> q.counter[u] <= PriorityLimit)
  }

  /** First pushes and long-running units go to the low-priority queue. */
  predicate GoesLow(q: Queue, u: nat)
    requires u < |q.counter|
  {
    q.counter[u] == 0 || q.counter[u] >= PriorityLimit
  }

  function Counted(q: Queue, u: nat): seq<nat>
    requires u < |q.counter|
  {
    if q.counter[u] < PriorityLimit then q.counter[u := q.counter[u] + 1] else q.counter
  }

  /** pool_push */
  function Pushed(q: Queue, u: nat): Queue
    requires u < |q.counter|
  {
    if GoesLow(q, u)
    then q.(low := q.low + [u], counter := Counted(q, u))
    else q.(high := q.high + [u], counter := Counted(q, u))
  }

  /** One pop in 256 tries the low-priority queue first. */
  predicate LowTurn(q: Queue) {
    q.cnt % 256 == 0
  }

  predicate TakesLow(q: Queue) {
    if LowTurn(q) then q.low != [] else q.high == []
  }

  /** The locked part of pool_pop */
  function Popped(q: Queue): (Queue, Option<nat>) {
    var q' := q.(cnt := q.cnt + 1);
    if q.high == [] && q.low == [] then (q', None)
    else if TakesLow(q) then (q'.(low := q.low[1..]), Some(q.low[0]))
    else (q'.(high := q.high[1..]), Some(q.high[0]))
  }

  ghost predicate InPool(q: Queue, u: nat) {
    u in q.high || u in q.low
  }

  ghost predicate Allowed(q: Queue, op: Op) {
    op.Push? ==> op.u < |q.counter| && !InPool(q, op.u)
  }

  /** The lock-free test of pool_pop skips the pop when the pool is empty. */
  function Apply(q: Queue, op: Op): Queue
    requires op.Push? ==> op.u < |q.counter|
  {
    match op
    case Push(u) => Pushed(q, u)
    case Pop => if q.high == [] && q.low == [] then q else Popped(q).0
    case TimedPop => Popped(q).0
  }

  ghost predicate Runs(q: Queue, ops: seq<Op>)
    decreases |ops|
  {
    ops != [] ==> Allowed(q, ops[0]) && Runs(Apply(q, ops[0]), ops[1..])
  }

  /** What the pops of a run return, in order. */
  ghost function Answers(q: Queue, ops: seq<Op>): seq<Option<nat>>
    requires Runs(q, ops)
    decreases |ops|
  {
    if ops == [] then []
    else (if ops[0].Push? then [] else [Popped(q).1]) + Answers(Apply(q, ops[0]), ops[1..])
  }

  lemma AnswersUnfold(q: Queue, ops: seq<Op>)
    requires Runs(q, ops) && ops != []
    ensures ops[0].Push? ==> Answers(q, ops) == Answers(Pushed(q, ops[0].u), ops[1..])
    ensures (!ops[0].Push? && (q.high != [] || q.low != [])) ==>
            (Runs(Popped(q).0, ops[1..]) && Answers(q, ops) == [Popped(q).1] + Answers(Popped(q).0, ops[1..]))
  {
  }

  // ---- the invariant --------------------------------------------------------

  lemma PushKeepsSound(q: Queue, u: nat)
    requires Sound(q) && u < |q.counter| && !InPool(q, u)
    ensures Sound(Pushed(q, u))
  {
  }

  lemma TailMembers(s: seq<nat>)
    requires Distinct(s) && s != []
    ensures Distinct(s[1..])
    ensures forall u :: u in s[1..] <==> u in s && u != s[0]
  {
    assert s == [s[0]] + s[1..];
  }

  /** A pop answers NULL only on an empty pool, and otherwise removes exactly the unit it
      answers. */
  lemma PopKeepsSound(q: Queue)
    requires Sound(q)
    ensures Sound(Popped(q).0)
    ensures Popped(q).1.None? <==> q.high == [] && q.low == []
    ensures forall u: nat :: InPool(Popped(q).0, u) <==> InPool(q, u) && Popped(q).1 != Some(u)
    ensures Popped(q).1.Some? ==> InPool(q, Popped(q).1.value)
  {
    if q.high == [] && q.low == [] {
    } else if TakesLow(q) {
      TailMembers(q.low);
    } else {
      TailMembers(q.high);
    }
  }

  lemma ApplyKeepsSound(q: Queue, op: Op)
    requires Sound(q) && Allowed(q, op)
    ensures Sound(Apply(q, op))
  {
    if op.Push? {
      PushKeepsSound(q, op.u);
    } else {
      PopKeepsSound(q);
    }
  }

  // ---- starvation bounds ----------------------------------------------------

  /** Pops up to and including the next one that tries the low-priority queue first. */
  function UntilLowTurn(cnt: nat): (d: nat)
    ensures 1 <= d <= 256
  {
    if cnt % 256 == 0 then 1 else 257 - cnt % 256
  }

  lemma LowTurnNears(cnt: nat)
    ensures UntilLowTurn(cnt + 1) == if cnt % 256 == 0 then 256 else UntilLowTurn(cnt) - 1
  {
  }

  function LowPatience(q: Queue, k: nat): nat {
    256 * k + UntilLowTurn(q.cnt)
  }

  lemma LowPopPays(q: Queue, k: nat)
    requires k < |q.low| && Popped(q).1 != Some(q.low[k])
    ensures var q' := Popped(q).0;
      || (k < |q'.low| && q'.low[k] == q.low[k] && LowPatience(q', k) < LowPatience(q, k))
      || (k > 0 && k - 1 < |q'.low| && q'.low[k - 1] == q.low[k] && LowPatience(q', k - 1) < LowPatience(q, k))
  {
    LowTurnNears(q.cnt);
  }

  lemma {:induction false} LowUnitWithinPatience(q: Queue, ops: seq<Op>, k: nat)
    requires Runs(q, ops) && k < |q.low|
    ensures ReturnedWithin(Answers(q, ops), Some(q.low[k]), LowPatience(q, k))
    decreases |ops|
  {
    if ops != [] {
      var op, u, n := ops[0], q.low[k], LowPatience(q, k);
      AnswersUnfold(q, ops);
      if op.Push? {
        LowUnitWithinPatience(Pushed(q, op.u), ops[1..], k);
      } else if Popped(q).1 == Some(u) {
        ReturnedFirst(Answers(q, ops), Some(u), n);
      } else {
        LowPopPays(q, k);
        var q' := Popped(q).0;
        var k' := if k < |q'.low| && q'.low[k] == u && LowPatience(q', k) < n then k else k - 1;
        LowUnitWithinPatience(q', ops[1..], k');
        ReturnedLater(Popped(q).1, Answers(q', ops[1..]), Some(u), LowPatience(q', k'), n);
      }
    }
  }

  /** A low-priority unit with k ahead of it is returned within 256 * (k + 1) pops,
      whatever is pushed meanwhile. */
  lemma LowUnitReturned(q: Queue, ops: seq<Op>, k: nat)
    requires Runs(q, ops) && k < |q.low|
    ensures ReturnedWithin(Answers(q, ops), Some(q.low[k]), 256 * (k + 1))
  {
    LowUnitWithinPatience(q, ops, k);
    ReturnedWider(Answers(q, ops), Some(q.low[k]), LowPatience(q, k), 256 * (k + 1));
  }

  /** The pops that serve k + 1 high-priority units, with a low turn after every 255. */
  function HighPatience(q: Queue, k: nat): nat {
    var d := UntilLowTurn(q.cnt);
    k + 1 + (if k + 1 < d then 0 else 1 + (k + 1 - d) / 255)
  }

  lemma HighPopPays(q: Queue, k: nat)
    requires k < |q.high| && Popped(q).1 != Some(q.high[k])
    ensures var q' := Popped(q).0;
      || (k < |q'.high| && q'.high[k] == q.high[k] && HighPatience(q', k) < HighPatience(q, k))
      || (k > 0 && k - 1 < |q'.high| && q'.high[k - 1] == q.high[k] && HighPatience(q', k - 1) < HighPatience(q, k))
  {
    LowTurnNears(q.cnt);
  }

  lemma {:induction false} HighUnitWithinPatience(q: Queue, ops: seq<Op>, k: nat)
    requires Runs(q, ops) && k < |q.high|
    ensures ReturnedWithin(Answers(q, ops), Some(q.high[k]), HighPatience(q, k))
    decreases |ops|
  {
    if ops != [] {
      var op, u, n := ops[0], q.high[k], HighPatience(q, k);
      AnswersUnfold(q, ops);
      if op.Push? {
        HighUnitWithinPatience(Pushed(q, op.u), ops[1..], k);
      } else if Popped(q).1 == Some(u) {
        ReturnedFirst(Answers(q, ops), Some(u), n);
      } else {
        HighPopPays(q, k);
        var q' := Popped(q).0;
        var k' := if k < |q'.high| && q'.high[k] == u && HighPatience(q', k) < n then k else k - 1;
        HighUnitWithinPatience(q', ops[1..], k');
        ReturnedLater(Popped(q).1, Answers(q', ops[1..]), Some(u), HighPatience(q', k'), n);
      }
    }
  }

  /** A high-priority unit with k ahead of it is returned within k + 2 + k / 255 pops. */
  lemma HighUnitReturned(q: Queue, ops: seq<Op>, k: nat)
    requires Runs(q, ops) && k < |q.high|
    ensures ReturnedWithin(Answers(q, ops), Some(q.high[k]), k + 2 + k / 255)
  {
    HighUnitWithinPatience(q, ops, k);
    ReturnedWider(Answers(q, ops), Some(q.high[k]), HighPatience(q, k), k + 2 + k / 255);
  }

  /** The low-priority bound is exact: while the high-priority queue lasts, n pops fewer
      than LowPatience do not reach the unit. */
  lemma {:induction false} LowUnitWaits(q: Queue, k: nat, n: nat) returns (ops: seq<Op>)
    requires Sound(q) && k < |q.low| && n <= |q.high| && n < LowPatience(q, k)
    ensures Runs(q, ops) && |Answers(q, ops)| == n && Some(q.low[k]) !in Answers(q, ops)
    decreases n
  {
    ops := [];
    if n > 0 {
      var q', u := Popped(q).0, q.low[k];
      LowTurnNears(q.cnt);
      PopKeepsSound(q);
      assert u in q.low && q.high[0] in q.high;
      var rest := LowUnitWaits(q', if LowTurn(q) then k - 1 else k, n - 1);
      ops := [TimedPop] + rest;
      assert ops[1..] == rest;
      assert Answers(q, ops) == [Popped(q).1] + Answers(q', rest);
    }
  }
}
