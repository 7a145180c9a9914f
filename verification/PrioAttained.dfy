/** The bounds of PrioQueue are attained from a new pool.  Units that are pushed, popped and
    pushed again fill the high-priority queue, fresh units fill the low-priority one, and the
    number of pops so far sets the distance to the next low turn. */
module PrioAttained {
  import opened Common
  import opened PrioQueue

  ghost function Final(q: Queue, ops: seq<Op>): Queue
    requires Runs(q, ops)
    decreases |ops|
  {
    if ops == [] then q else Final(Apply(q, ops[0]), ops[1..])
  }

  /** Some run leads from q to q'. */
  ghost predicate Reaches(q: Queue, q': Queue) {
    exists ops :: Runs(q, ops) && Final(q, ops) == q'
  }

  lemma {:induction false} RunSnoc(q: Queue, ops: seq<Op>, op: Op)
    requires Runs(q, ops) && Allowed(Final(q, ops), op)
    ensures Runs(q, ops + [op]) && Final(q, ops + [op]) == Apply(Final(q, ops), op)
    decreases |ops|
  {
    if ops == [] {
      assert ops + [op] == [op];
      assert Runs(Apply(q, op), []);
    } else {
      RunSnoc(Apply(q, ops[0]), ops[1..], op);
      assert (ops + [op])[1..] == ops[1..] + [op];
    }
  }

  lemma ReachesOn(q: Queue, q1: Queue, op: Op, q2: Queue)
    requires Reaches(q, q1) && Allowed(q1, op) && q2 == Apply(q1, op)
    ensures Reaches(q, q2)
  {
    var ops :| Runs(q, ops) && Final(q, ops) == q1;
    RunSnoc(q, ops, op);
  }

  // ---- filling both queues --------------------------------------------------

  /** The units a, a + 1, ..., a + n - 1. */
  function Range(a: nat, n: nat): (r: seq<nat>)
    ensures |r| == n && forall i :: 0 <= i < n ==> r[i] == a + i
  {
    seq(n, i requires 0 <= i < n => a + i)
  }

  lemma RangeGrows(a: nat, n: nat)
    ensures Range(a, n + 1) == Range(a, n) + [a + n]
    ensures Range(a, n + 1)[1..] == Range(a + 1, n)
  {
  }

  /** Of n units, the first a were pushed twice and the next b once. */
  function Pushes(a: nat, b: nat, n: nat): (r: seq<nat>)
    ensures |r| == n && forall i :: 0 <= i < n ==> r[i] == (if i < a then 2 else if i < a + b then 1 else 0)
  {
    seq(n, i requires 0 <= i < n => if i < a then 2 else if i < a + b then 1 else 0)
  }

  function New(n: nat): Queue {
    Queue([], [], Pushes(0, 0, n), 0)
  }

  /** The first pushes go to the low-priority queue. */
  lemma {:induction false} FirstPushes(n: nat, i: nat)
    requires i <= n
    ensures Reaches(New(n), Queue([], Range(0, i), Pushes(0, i, n), 0))
  {
    if i == 0 {
      assert Runs(New(n), []) && Final(New(n), []) == New(n);
      assert Range(0, 0) == [];
    } else {
      var q1, q2 := Queue([], Range(0, i - 1), Pushes(0, i - 1, n), 0), Queue([], Range(0, i), Pushes(0, i, n), 0);
      FirstPushes(n, i - 1);
      RangeGrows(0, i - 1);
      assert Pushes(0, i, n) == Pushes(0, i - 1, n)[i - 1 := 1];
      ReachesOn(New(n), q1, Push(i - 1), q2);
    }
  }

  /** Then i of m units are popped, all from the low-priority queue. */
  lemma {:induction false} FirstPops(n: nat, m: nat, i: nat)
    requires i <= m <= n
    ensures Reaches(New(n), Queue([], Range(i, m - i), Pushes(0, m, n), i))
  {
    if i == 0 {
      FirstPushes(n, m);
    } else {
      FirstPops(n, m, i - 1);
      RangeGrows(i - 1, m - i);
      ReachesOn(New(n), Queue([], Range(i - 1, m - i + 1), Pushes(0, m, n), i - 1), Pop,
                Queue([], Range(i, m - i), Pushes(0, m, n), i));
    }
  }

  /** Pushed again, they go to the high-priority queue. */
  lemma {:induction false} SecondPushes(n: nat, m: nat, i: nat)
    requires i <= m <= n
    ensures Reaches(New(n), Queue(Range(0, i), [], Pushes(i, m - i, n), m))
  {
    if i == 0 {
      FirstPops(n, m, m);
      assert Range(m, 0) == [] == Range(0, 0);
    } else {
      SecondPushes(n, m, i - 1);
      RangeGrows(0, i - 1);
      assert Pushes(i, m - i, n) == Pushes(i - 1, m - i + 1, n)[i - 1 := 2];
      ReachesOn(New(n), Queue(Range(0, i - 1), [], Pushes(i - 1, m - i + 1, n), m), Push(i - 1),
                Queue(Range(0, i), [], Pushes(i, m - i, n), m));
    }
  }

  /** m units with high priority, i with low priority, m pops so far. */
  function Filled(n: nat, m: nat, i: nat): Queue {
    Queue(Range(0, m), Range(m, i), Pushes(m, i, n), m)
  }

  lemma {:induction false} FreshPushes(n: nat, m: nat, i: nat)
    requires m + i <= n
    ensures Reaches(New(n), Filled(n, m, i))
  {
    if i == 0 {
      SecondPushes(n, m, m);
      assert Range(m, 0) == [];
    } else {
      FreshPushes(n, m, i - 1);
      RangeGrows(m, i - 1);
      assert Pushes(m, i, n) == Pushes(m, i - 1, n)[m + i - 1 := 1];
      ReachesOn(New(n), Filled(n, m, i - 1), Push(m + i - 1), Filled(n, m, i));
    }
  }

  lemma FilledIsSound(n: nat, m: nat, i: nat)
    requires m + i <= n
    ensures Sound(Filled(n, m, i))
  {
  }

  // ---- the longest waits ----------------------------------------------------

  /** For every k there is a run from a new pool to a state with k units ahead in the low
      queue from which the unit is not among the next 256 * (k + 1) - 1 answers. */
  lemma LowBoundAttained(k: nat) returns (n: nat, before: seq<Op>, ops: seq<Op>)
    ensures Runs(New(n), before)
    ensures var q := Final(New(n), before);
      && k < |q.low| && Runs(q, ops)
      && |Answers(q, ops)| == 256 * (k + 1) - 1 && Some(q.low[k]) !in Answers(q, ops)
  {
    var m := 256 * (k + 1) + 1;
    n := m + k + 1;
    FreshPushes(n, m, k + 1);
    FilledIsSound(n, m, k + 1);
    before :| Runs(New(n), before) && Final(New(n), before) == Filled(n, m, k + 1);
    ops := LowUnitWaits(Filled(n, m, k + 1), k, 256 * (k + 1) - 1);
  }

  lemma HighPatienceDrops(q: Queue, k: nat)
    ensures LowTurn(q) ==> HighPatience(q.(cnt := q.cnt + 1), k) == HighPatience(q, k) - 1
    ensures !LowTurn(q) && k > 0 ==> HighPatience(q.(cnt := q.cnt + 1), k - 1) == HighPatience(q, k) - 1
  {
    LowTurnNears(q.cnt);
  }

  /** While the low-priority queue lasts, n pops fewer than HighPatience do not reach the
      unit with k ahead of it in the high-priority queue. */
  lemma {:induction false} HighUnitWaits(q: Queue, k: nat, n: nat) returns (ops: seq<Op>)
    requires Sound(q) && k < |q.high| && n <= |q.low| && n < HighPatience(q, k)
    ensures Runs(q, ops) && |Answers(q, ops)| == n && Some(q.high[k]) !in Answers(q, ops)
    decreases n
  {
    ops := [];
    if n > 0 {
      var q', u := Popped(q).0, q.high[k];
      HighPatienceDrops(q, k);
      PopKeepsSound(q);
      assert u in q.high && q.low[0] in q.low;
      var rest := HighUnitWaits(q', if LowTurn(q) then k else k - 1, n - 1);
      ops := [TimedPop] + rest;
      assert ops[1..] == rest;
      assert Answers(q, ops) == [Popped(q).1] + Answers(q', rest);
    }
  }

  /** For every k there is a run from a new pool to a state with k units ahead in the high
      queue from which the unit is not among the next k + 1 + k / 255 answers. */
  lemma HighBoundAttained(k: nat) returns (n: nat, before: seq<Op>, ops: seq<Op>)
    ensures Runs(New(n), before)
    ensures var q := Final(New(n), before);
      && k < |q.high| && Runs(q, ops)
      && |Answers(q, ops)| == k + 1 + k / 255 && Some(q.high[k]) !in Answers(q, ops)
  {
    var m, i := 256 * (k + 1), k + 1 + k / 255;
    n := m + i;
    FreshPushes(n, m, i);
    FilledIsSound(n, m, i);
    before :| Runs(New(n), before) && Final(New(n), before) == Filled(n, m, i);
    ops := HighUnitWaits(Filled(n, m, i), k, i);
  }
}
