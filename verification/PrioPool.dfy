/** The two-level pool as the program keeps it: two circular doubly linked queues threaded
    through the units, refining PrioQueue.  Units are numbered from 1 and 0 is NULL; every
    method runs under the pool's mutex. */
module PrioPool {
  import opened Common
  import opened PrioQueue
  import Bits

  datatype Ends = Ends(head: nat, tail: nat)
  datatype Links = Links(prev: seq<nat>, next: seq<nat>)

  function Succ(q: seq<nat>, i: nat): nat
    requires i < |q|
  {
    if i + 1 < |q| then q[i + 1] else q[0]
  }

  function Pred(q: seq<nat>, i: nat): nat
    requires i < |q|
  {
    if i == 0 then q[|q| - 1] else q[i - 1]
  }

  predicate LinkedAt(l: Links, q: seq<nat>, i: int) {
    && 0 <= i < |q| && 0 < q[i] < |l.next| && q[i] < |l.prev|
    && l.next[q[i]] == Succ(q, i) && l.prev[q[i]] == Pred(q, i)
  }

  /** The links close the units of q into a circle between the two ends. */
  ghost predicate Circle(e: Ends, l: Links, q: seq<nat>) {
    && e == (if q == [] then Ends(0, 0) else Ends(q[0], q[|q| - 1]))
    && (forall i :: 0 <= i < |q| ==> LinkedAt(l, q, i))
  }

  /** The pointers that queue_push dereferences are real. */
  predicate EndsIn(e: Ends, l: Links) {
    |l.prev| == |l.next| && (e.head != 0 ==> e.head < |l.prev| && e.tail < |l.prev|)
  }

  /** queue_push, on the links */
  function LinkPush(e: Ends, l: Links, u: nat): (Ends, Links)
    requires EndsIn(e, l) && 0 < u < |l.prev|
  {
    if e.head == 0 then
      (Ends(u, u), Links(l.prev[u := u], l.next[u := u]))
    else
      (e.(tail := u), Links(l.prev[e.head := u][u := e.tail], l.next[e.tail := u][u := e.head]))
  }

  /** The pointers that queue_pop dereferences are real. */
  predicate PopDefined(e: Ends, l: Links) {
    && |l.prev| == |l.next| && e.head < |l.prev|
    && (e.head != e.tail ==> l.prev[e.head] < |l.prev| && l.next[e.head] < |l.prev|)
  }

  /** queue_pop of a non-empty queue, on the links */
  function LinkPop(e: Ends, l: Links): (Ends, Links)
    requires PopDefined(e, l)
  {
    var u := e.head;
    if e.head == e.tail then
      (Ends(0, 0), Links(l.prev[u := 0], l.next[u := 0]))
    else
      var l1 := l.(next := l.next[l.prev[u] := l.next[u]]);
      var after := l1.next[u];
      var l2 := if after < |l.prev| then l1.(prev := l1.prev[after := l1.prev[u]]) else l1;
      (e.(head := l2.next[u]), Links(l2.prev[u := 0], l2.next[u := 0]))
  }

  lemma PushRefines(e: Ends, l: Links, q: seq<nat>, u: nat)
    requires Circle(e, l, q) && Distinct(q) && |l.prev| == |l.next| && 0 < u < |l.prev| && u !in q
    ensures EndsIn(e, l) && Circle(LinkPush(e, l, u).0, LinkPush(e, l, u).1, q + [u])
  {
    var q' := q + [u];
    if q != [] {
      assert LinkedAt(l, q, 0) && LinkedAt(l, q, |q| - 1);
    }
    var l' := LinkPush(e, l, u).1;
    forall i | 0 <= i < |q'| ensures LinkedAt(l', q', i) {
      if i < |q| {
        assert LinkedAt(l, q, i);
        assert q[i] != u;
        assert i > 0 ==> q[0] != q[i];
        assert i < |q| - 1 ==> q[i] != q[|q| - 1];
      }
    }
  }

  lemma PopRefines(e: Ends, l: Links, q: seq<nat>)
    requires Circle(e, l, q) && Distinct(q) && |l.prev| == |l.next| && q != []
    ensures PopDefined(e, l) && e.head == q[0]
    ensures Circle(LinkPop(e, l).0, LinkPop(e, l).1, q[1..])
  {
    var n := |q|;
    assert LinkedAt(l, q, 0) && LinkedAt(l, q, n - 1);
    if n > 1 {
      assert LinkedAt(l, q, 1) && q[0] != q[n - 1] && q[0] != q[1];
      var l', q' := LinkPop(e, l).1, q[1..];
      forall i | 0 <= i < |q'| ensures LinkedAt(l', q', i) {
        assert LinkedAt(l, q, i + 1);
        assert q[i + 1] != q[0];
        assert i > 0 ==> q[1] != q[i + 1];
        assert i < n - 2 ==> q[i + 1] != q[n - 1];
      }
    }
  }

  /** Links change only at the pushed unit and inside its queue. */
  ghost predicate OnlyAt(l: Links, l': Links, q: seq<nat>, u: nat) {
    && |l'.prev| == |l.prev| && |l'.next| == |l.next| && |l.prev| == |l.next|
    && (forall x :: 0 <= x < |l.prev| && x !in q && x != u ==> l'.prev[x] == l.prev[x] && l'.next[x] == l.next[x])
  }

  lemma PushFrame(e: Ends, l: Links, q: seq<nat>, u: nat)
    requires Circle(e, l, q) && |l.prev| == |l.next| && 0 < u < |l.prev|
    ensures EndsIn(e, l) && OnlyAt(l, LinkPush(e, l, u).1, q, u)
  {
    if q != [] {
      assert LinkedAt(l, q, 0) && LinkedAt(l, q, |q| - 1);
    }
  }

  lemma PopFrame(e: Ends, l: Links, q: seq<nat>)
    requires Circle(e, l, q) && |l.prev| == |l.next| && q != [] && PopDefined(e, l)
    ensures OnlyAt(l, LinkPop(e, l).1, q, q[0])
  {
    assert LinkedAt(l, q, 0);
  }

  /** The other queue is not disturbed. */
  lemma CircleFrame(e: Ends, l: Links, q: seq<nat>, l': Links, changed: seq<nat>, u: nat)
    requires Circle(e, l, q) && OnlyAt(l, l', changed, u)
    requires u !in q && (forall x :: x in q ==> x !in changed)
    ensures Circle(e, l', q)
  {
    forall i | 0 <= i < |q| ensures LinkedAt(l', q, i) {
      assert LinkedAt(l, q, i);
      assert q[i] in q;
    }
  }

  // ---- the pool -------------------------------------------------------------

  datatype State = State(high: Ends, low: Ends, links: Links, inPool: seq<bool>)

  ghost predicate Flagged(inPool: seq<bool>, high: seq<nat>, low: seq<nat>) {
    forall u: nat :: u < |inPool| ==> (inPool[u] <==> u in high || u in low)
  }

  ghost predicate Represents(s: State, q: Queue) {
    && |s.links.prev| == |s.links.next| == |s.inPool| == |q.counter|
    && Circle(s.high, s.links, q.high) && Circle(s.low, s.links, q.low)
    && Flagged(s.inPool, q.high, q.low)
  }

  function PushState(s: State, u: nat, toLow: bool): State
    requires EndsIn(s.high, s.links) && EndsIn(s.low, s.links)
    requires 0 < u < |s.links.prev| && u < |s.inPool|
  {
    var (e, l) := LinkPush(if toLow then s.low else s.high, s.links, u);
    State(if toLow then s.high else e, if toLow then e else s.low, l, s.inPool[u := true])
  }

  function PopState(s: State, fromLow: bool): State
    requires PopDefined(if fromLow then s.low else s.high, s.links)
    requires (if fromLow then s.low else s.high).head < |s.inPool|
  {
    var queue := if fromLow then s.low else s.high;
    var (e, l) := LinkPop(queue, s.links);
    State(if fromLow then s.high else e, if fromLow then e else s.low, l, s.inPool[queue.head := false])
  }

  lemma EndsAreUnits(s: State, q: Queue)
    requires Represents(s, q)
    ensures EndsIn(s.high, s.links) && EndsIn(s.low, s.links)
    ensures (s.high.head == 0 <==> q.high == []) && (s.low.head == 0 <==> q.low == [])
  {
    if q.high != [] {
      assert LinkedAt(s.links, q.high, 0) && LinkedAt(s.links, q.high, |q.high| - 1);
    }
    if q.low != [] {
      assert LinkedAt(s.links, q.low, 0) && LinkedAt(s.links, q.low, |q.low| - 1);
    }
  }

  /** Pushing keeps both circles and the flags in step with the abstract queue. */
  lemma PushStateRefines(s: State, q: Queue, u: nat)
    requires Represents(s, q) && Sound(q) && 0 < u < |q.counter| && !InPool(q, u)
    ensures EndsIn(s.high, s.links) && EndsIn(s.low, s.links)
    ensures Represents(PushState(s, u, GoesLow(q, u)), Pushed(q, u))
  {
    EndsAreUnits(s, q);
    var s' := PushState(s, u, GoesLow(q, u));
    if GoesLow(q, u) {
      PushRefines(s.low, s.links, q.low, u);
      PushFrame(s.low, s.links, q.low, u);
      CircleFrame(s.high, s.links, q.high, s'.links, q.low, u);
    } else {
      PushRefines(s.high, s.links, q.high, u);
      PushFrame(s.high, s.links, q.high, u);
      CircleFrame(s.low, s.links, q.low, s'.links, q.high, u);
    }
  }

  lemma PopFlags(inPool: seq<bool>, q: Queue)
    requires Flagged(inPool, q.high, q.low) && Sound(q) && |inPool| == |q.counter| && Popped(q).1.Some?
    ensures Popped(q).1.value < |inPool|
    ensures Flagged(inPool[Popped(q).1.value := false], Popped(q).0.high, Popped(q).0.low)
  {
    PopKeepsSound(q);
    var u := Popped(q).1.value;
    forall x: nat | x < |inPool| ensures inPool[u := false][x] <==> x in Popped(q).0.high || x in Popped(q).0.low {
      assert InPool(Popped(q).0, x) <==> InPool(q, x) && x != u;
    }
  }

  lemma PopStateRefines(s: State, q: Queue)
    requires Represents(s, q) && Sound(q) && (q.high != [] || q.low != [])
    ensures var e := if TakesLow(q) then s.low else s.high;
      PopDefined(e, s.links) && 0 < e.head < |s.inPool| && Popped(q).1 == Some(e.head)
    ensures Represents(PopState(s, TakesLow(q)), Popped(q).0)
  {
    PopFlags(s.inPool, q);
    if TakesLow(q) {
      assert LinkedAt(s.links, q.low, 0);
      PopRefines(s.low, s.links, q.low);
      PopFrame(s.low, s.links, q.low);
      CircleFrame(s.high, s.links, q.high, PopState(s, true).links, q.low, q.low[0]);
    } else {
      assert LinkedAt(s.links, q.high, 0);
      PopRefines(s.high, s.links, q.high);
      PopFrame(s.high, s.links, q.high);
      CircleFrame(s.low, s.links, q.low, PopState(s, false).links, q.high, q.high[0]);
    }
  }

  class Pool {
    var state: State
    var schedCounter: seq<nat>
    var num: nat
    var cnt: nat
    ghost var queue: Queue

    ghost predicate Valid()
      reads this
    {
      && Represents(state, queue) && Sound(queue)
      && num == |queue.high| + |queue.low|
      && schedCounter == queue.counter && cnt == queue.cnt && 0 < |schedCounter|
    }

    constructor ()
      ensures Valid() && queue == Queue([], [], [0], 0)
    {
      state := State(Ends(0, 0), Ends(0, 0), Links([0], [0]), [false]);
      schedCounter, num, cnt := [0], 0, 0;
      queue := Queue([], [], [0], 0);
    }

    /** pool_push: the caller hands in a unit that is not in the pool. */
    method Push(u: nat)
      requires Valid() && 0 < u < |state.inPool| && !state.inPool[u]
      modifies this
      ensures Valid() && Allowed(old(queue), Op.Push(u)) && queue == Apply(old(queue), Op.Push(u))
    {
      PushStateRefines(state, queue, u);
      PushKeepsSound(queue, u);
      var counter := schedCounter[u];
      if schedCounter[u] < PriorityLimit {
        schedCounter := schedCounter[u := schedCounter[u] + 1];
      }
      state := PushState(state, u, counter == 0 || counter >= PriorityLimit);
      num := num + 1;
      queue := Pushed(queue, u);
    }

    /** The locked part of pool_pop and pool_pop_timedwait; 0 stands for NULL. */
    method TimedPop() returns (u: nat)
      requires Valid()
      modifies this
      ensures Valid()
      ensures (queue, if u == 0 then None else Some(u)) == Popped(old(queue))
    {
      EndsAreUnits(state, queue);
      PopKeepsSound(queue);
      Bits.AndLowMask(cnt, 8);
      assert Bits.Pow2(8) == 256;
      var highFirst := Bits.And(cnt, 0xFF) != 0;
      cnt := cnt + 1;
      u := 0;
      if state.high.head != 0 || state.low.head != 0 {
        PopStateRefines(state, queue);
        var fromLow := if highFirst then state.high.head == 0 else state.low.head != 0;
        u := (if fromLow then state.low else state.high).head;
        state := PopState(state, fromLow);
        num := num - 1;
      }
      queue := Popped(queue).0;
    }

    /** pool_pop, with its lock-free test for an empty pool */
    method Pop() returns (u: nat)
      requires Valid()
      modifies this
      ensures Valid() && queue == Apply(old(queue), Op.Pop)
      ensures (if u == 0 then None else Some(u)) == Popped(old(queue)).1
    {
      if num == 0 {
        return 0;
      }
      u := TimedPop();
    }

    /** pool_unit_create_from_thread, pool_unit_create_from_task */
    method CreateUnit() returns (u: nat)
      requires Valid()
      modifies this
      ensures Valid() && 0 < u == old(|schedCounter|)
      ensures queue == old(queue).(counter := old(queue.counter) + [0])
    {
      u := |schedCounter|;
      CreateKeeps(state, queue);
      schedCounter := schedCounter + [0];
      state := state.(links := Links(state.links.prev + [0], state.links.next + [0]), inPool := state.inPool + [false]);
      queue := queue.(counter := queue.counter + [0]);
    }
  }

  lemma CreateKeeps(s: State, q: Queue)
    requires Represents(s, q) && Sound(q)
    ensures Sound(q.(counter := q.counter + [0]))
    ensures Represents(s.(links := Links(s.links.prev + [0], s.links.next + [0]), inPool := s.inPool + [false]),
                       q.(counter := q.counter + [0]))
  {
    var l' := Links(s.links.prev + [0], s.links.next + [0]);
    forall i | 0 <= i < |q.high| ensures LinkedAt(l', q.high, i) {
      assert LinkedAt(s.links, q.high, i);
    }
    forall i | 0 <= i < |q.low| ensures LinkedAt(l', q.low, i) {
      assert LinkedAt(s.links, q.low, i);
    }
    assert |q.counter| !in q.high && |q.counter| !in q.low;
  }
}
