/** The timer list of a margo instance: a doubly linked queue kept in ascending order of
    expiration, dispatch of the expired timers, and the drain performed when the list is
    freed.  Timers are numbered from 1; every method runs under the list mutex. */
module TimerQueue {
  import opened Common
  import opened DList

  type Timer = nat

  ghost predicate Below(q: seq<Timer>, n: nat) {
    forall i :: 0 <= i < |q| ==> q[i] < n
  }

  ghost predicate Ascending(q: seq<Timer>, expiration: seq<real>) {
    && Below(q, |expiration|)
    && forall i, j :: 0 <= i < j < |q| ==> expiration[q[i]] <= expiration[q[j]]
  }

  /** All of q expires before now. */
  ghost predicate Due(q: seq<Timer>, expiration: seq<real>, now: real) {
    forall i :: 0 <= i < |q| ==> q[i] < |expiration| && expiration[q[i]] < now
  }

  /** The dispatched timers for which a ULT was created. */
  ghost function Pooled(issued: seq<Timer>, pool: seq<bool>): seq<Timer>
    requires Below(issued, |pool|)
  {
    if issued == [] then []
    else Pooled(issued[..|issued| - 1], pool) +
         (if pool[issued[|issued| - 1]] then [issued[|issued| - 1]] else [])
  }

  /** The links spell out q in ascending order, and every other timer has NULL links. */
  ghost predicate QueueOk(l: Links, q: seq<Timer>, expiration: seq<real>) {
    && Represents(l, q)
    && |expiration| == |l.prev|
    && Ascending(q, expiration)
    && (forall t :: 0 < t < |l.prev| && t !in q ==> !IsLinked(l, t))
  }

  /** t goes right behind the timers that expire strictly before it. */
  ghost predicate PlaceFor(q: seq<Timer>, k: nat, t: Timer, expiration: seq<real>) {
    && k <= |q| && t < |expiration| && Below(q, |expiration|)
    && (forall i :: 0 <= i < k ==> expiration[q[i]] < expiration[t])
    && (forall i :: k <= i < |q| ==> expiration[q[i]] >= expiration[t])
  }

  lemma InsertOk(l: Links, q: seq<Timer>, expiration: seq<real>, k: nat, t: Timer, l': Links)
    requires QueueOk(l, q, expiration) && 0 < t < |l.prev| && t !in q
    requires PlaceFor(q, k, t, expiration)
    requires Represents(l', Inserted(q, k, t)) && Untouched(l, l', Inserted(q, k, t))
    ensures QueueOk(l', Inserted(q, k, t), expiration)
  {
    var q' := Inserted(q, k, t);
    InsertedMembers(q, k, t);
    forall i | 0 <= i < |q'| ensures q'[i] < |expiration| {
      assert i < k ==> q'[i] == q[i];
      assert i > k ==> q'[i] == q[i - 1];
    }
    forall i, j | 0 <= i < j < |q'| ensures expiration[q'[i]] <= expiration[q'[j]] {
      assert i < k ==> q'[i] == q[i];
      assert i > k ==> q'[i] == q[i - 1];
      assert j < k ==> q'[j] == q[j];
      assert j > k ==> q'[j] == q[j - 1];
    }
  }

  lemma RemoveOk(l: Links, q: seq<Timer>, expiration: seq<real>, k: nat)
    requires QueueOk(l, q, expiration) && k < |q|
    ensures 0 < q[k] < |l.prev| && DeleteDefined(l, q[k])
    ensures QueueOk(Clear(Delete(l, q[k]), q[k]), Without(q, k), expiration)
    ensures q[k] !in Without(q, k)
  {
    RemoveRefines(l, q, k);
    var q' := Without(q, k);
    forall i | 0 <= i < |q'| ensures q'[i] < |expiration| {
      assert q'[i] == q[if i < k then i else i + 1];
    }
    forall i, j | 0 <= i < j < |q'| ensures expiration[q'[i]] <= expiration[q'[j]] {
      assert q'[i] == q[if i < k then i else i + 1];
      assert q'[j] == q[if j < k then j else j + 1];
    }
  }

  lemma PopOk(l: Links, q: seq<Timer>, expiration: seq<real>)
    requires QueueOk(l, q, expiration) && l.head != 0
    ensures q != [] && 0 < l.head == q[0] < |l.prev| && DeleteDefined(l, l.head)
    ensures q == [q[0]] + q[1..]
    ensures QueueOk(Clear(Delete(l, l.head), l.head), q[1..], expiration)
  {
    HeadIsFirst(l, q, expiration);
    RemoveOk(l, q, expiration, 0);
    assert Without(q, 0) == q[1..];
  }

  lemma HeadIsFirst(l: Links, q: seq<Timer>, expiration: seq<real>)
    requires QueueOk(l, q, expiration)
    ensures l.head == 0 <==> q == []
    ensures q != [] ==> 0 < l.head == q[0] < |expiration|
    ensures q != [] ==> forall t <- q :: 0 < t < |expiration| && expiration[l.head] <= expiration[t]
  {
    if q != [] {
      assert LinkedAt(l, q, 0);
      forall t | t in q ensures 0 < t < |expiration| && expiration[l.head] <= expiration[t] {
        var i := IndexOf(l, q, t);
      }
    }
  }

  lemma LinkedIffQueued(l: Links, q: seq<Timer>, expiration: seq<real>, t: Timer)
    requires QueueOk(l, q, expiration) && 0 < t < |l.prev|
    ensures IsLinked(l, t) <==> t in q
  {
    if t in q { LinkedWhenQueued(l, q, t); }
  }

  /** The queue from position k on does not expire before t. */
  ghost predicate PlaceFrom(q: seq<Timer>, k: nat, t: Timer, expiration: seq<real>) {
    && k <= |q| && t < |expiration| && Below(q, |expiration|)
    && forall i :: k <= i < |q| ==> expiration[q[i]] >= expiration[t]
  }

  /** One step of the backward walk: from position 0 it wraps around to the tail. */
  lemma StepBack(l: Links, q: seq<Timer>, expiration: seq<real>, k: nat)
    requires QueueOk(l, q, expiration) && k < |q|
    ensures q[k] < |l.prev| && l.head == q[0]
    ensures l.prev[q[k]] == PrevIn(q, k) < |expiration|
    ensures PrevIn(q, k) == l.head ==> k == 1 || |q| == 1
  {
    assert LinkedAt(l, q, k);
    assert LinkedAt(l, q, if k == 0 then |q| - 1 else k - 1);
  }

  lemma FirstOk(l: Links, expiration: seq<real>, t: Timer)
    requires QueueOk(l, [], expiration) && 0 < t < |l.prev|
    ensures QueueOk(Append(l, t), Inserted([], 0, t), expiration)
    ensures PlaceFor([], 0, t, expiration)
  {
    AppendToEmpty(l, t);
    assert Inserted([], 0, t) == [t];
    InsertOk(l, [], expiration, 0, t, Append(l, t));
  }

  lemma InsertFirstOk(l: Links, q: seq<Timer>, expiration: seq<real>, t: Timer)
    requires QueueOk(l, q, expiration) && 0 < t < |l.prev| && t !in q && PlaceFrom(q, 0, t, expiration)
    ensures QueueOk(Prepend(l, t), Inserted(q, 0, t), expiration)
    ensures PlaceFor(q, 0, t, expiration)
  {
    PrependRefines(l, q, t);
    InsertOk(l, q, expiration, 0, t, Prepend(l, t));
  }

  lemma InsertAfterOk(l: Links, q: seq<Timer>, expiration: seq<real>, k: nat, t: Timer)
    requires QueueOk(l, q, expiration) && 0 < t < |l.prev| && t !in q
    requires k < |q| && PlaceFrom(q, k + 1, t, expiration) && expiration[q[k]] < expiration[t]
    ensures 0 < q[k] < |l.prev| && l.head != 0
    ensures QueueOk(AppendElem(l, q[k], t), Inserted(q, k + 1, t), expiration)
    ensures PlaceFor(q, k + 1, t, expiration)
    ensures IsLinked(AppendElem(l, q[k], t), t)
  {
    AppendElemRefines(l, q, k, t);
    InsertedMembers(q, k + 1, t);
    InsertOk(l, q, expiration, k + 1, t, AppendElem(l, q[k], t));
    LinkedIffQueued(AppendElem(l, q[k], t), Inserted(q, k + 1, t), expiration, t);
  }

  /** The ULT counters after the timers in `issued` have been dispatched. */
  ghost predicate Counted(issued: seq<Timer>, pool: seq<bool>, pending0: seq<nat>, numPending0: nat,
                          pending: seq<nat>, numPending: nat)
  {
    && Below(issued, |pool|)
    && |pending| == |pending0| == |pool|
    && numPending == numPending0 + |Pooled(issued, pool)|
    && forall t :: 0 <= t < |pool| ==> pending[t] == pending0[t] + (if t in issued && pool[t] then 1 else 0)
  }

  lemma CountedStep(issued: seq<Timer>, cur: Timer, rest: seq<Timer>, pool: seq<bool>, pending0: seq<nat>,
                    numPending0: nat, pending: seq<nat>, numPending: nat)
    requires Counted(issued, pool, pending0, numPending0, pending, numPending)
    requires cur < |pool| && Distinct(issued + ([cur] + rest))
    ensures issued + [cur] + rest == issued + ([cur] + rest)
    ensures var d := if pool[cur] then 1 else 0;
            Counted(issued + [cur], pool, pending0, numPending0, pending[cur := pending[cur] + d], numPending + d)
  {
    NotYetIssued(issued, cur, rest);
    PooledStep(issued, cur, pool);
  }

  /** The link surgery of __margo_timer_queue: walks backwards to the last timer that
      expires strictly before t and inserts t right after it. */
  method InsertSorted(l0: Links, expiration: seq<real>, t: Timer, ghost q: seq<Timer>)
    returns (l: Links, ghost k: nat)
    requires QueueOk(l0, q, expiration) && 0 < t < |expiration| && t !in q
    ensures PlaceFor(q, k, t, expiration)
    ensures QueueOk(l, Inserted(q, k, t), expiration)
  {
    HeadIsFirst(l0, q, expiration);
    LinkedIffQueued(l0, q, expiration, t);
    if l0.head == 0 {
      FirstOk(l0, expiration, t);
      return Append(l0, t), 0;
    }
    l, k := l0, |q|;
    var cur := l.head;
    while true
      invariant l == l0 && 0 < k <= |q| && PlaceFrom(q, k, t, expiration)
      invariant cur == if k == |q| then q[0] else q[k]
      decreases k
    {
      StepBack(l, q, expiration, if k == |q| then 0 else k);
      cur := l.prev[cur];
      if expiration[cur] < expiration[t] {
        InsertAfterOk(l, q, expiration, k - 1, t);
        l := AppendElem(l, cur, t);
        break;
      }
      k := k - 1;
      if cur == l.head {
        break;
      }
    }
    if l.prev[t] == 0 && l.next[t] == 0 {
      InsertFirstOk(l, q, expiration, t);
      l := Prepend(l, t);
    }
  }

  /** State of the dispatch loop: `issued` has been taken off q0, `rest` is still queued. */
  ghost predicate Dispatched(l: Links, issued: seq<Timer>, rest: seq<Timer>, q0: seq<Timer>, expiration: seq<real>,
                             now: Option<real>)
  {
    && QueueOk(l, rest, expiration)
    && issued + rest == q0 && Distinct(q0)
    && (now.Some? ==> Due(issued, expiration, now.value))
    && (l.head == 0 <==> rest == []) && (l.head != 0 ==> l.head == rest[0] < |expiration|)
  }

  lemma DispatchStep(l: Links, issued: seq<Timer>, rest: seq<Timer>, q0: seq<Timer>, expiration: seq<real>,
                     now: Option<real>)
    requires Dispatched(l, issued, rest, q0, expiration, now) && l.head != 0
    requires now.Some? ==> expiration[l.head] < now.value
    ensures 0 < l.head < |l.prev| && InMemory(l, |l.prev|) && DeleteDefined(l, l.head)
    ensures Dispatched(Clear(Delete(l, l.head), l.head), issued + [l.head], rest[1..], q0, expiration, now)
    ensures Distinct(issued + ([l.head] + rest[1..]))
  {
    PopOk(l, rest, expiration);
    assert issued + [l.head] + rest[1..] == issued + rest == issued + ([l.head] + rest[1..]);
    HeadIsFirst(Clear(Delete(l, l.head), l.head), rest[1..], expiration);
  }

  lemma DispatchStart(l: Links, q: seq<Timer>, expiration: seq<real>, now: Option<real>)
    requires QueueOk(l, q, expiration)
    ensures Dispatched(l, [], q, q, expiration, now)
  {
    HeadIsFirst(l, q, expiration);
    assert [] + q == q;
  }

  lemma DispatchEnd(l: Links, issued: seq<Timer>, rest: seq<Timer>, q0: seq<Timer>, expiration: seq<real>,
                     now: Option<real>)
    requires Dispatched(l, issued, rest, q0, expiration, now)
    requires l.head == 0 || (now.Some? && expiration[l.head] >= now.value)
    ensures now.Some? ==> forall t <- rest :: t < |expiration| && expiration[t] >= now.value
    ensures now.None? ==> rest == [] && issued == q0
  {
    HeadIsFirst(l, rest, expiration);
    assert issued + [] == issued;
  }

  /** One round of the dispatch loop. */
  lemma DispatchRound(l: Links, issued: seq<Timer>, rest: seq<Timer>, q0: seq<Timer>, expiration: seq<real>,
                      now: Option<real>, pool: seq<bool>, pending0: seq<nat>, numPending0: nat,
                      pending: seq<nat>, numPending: nat)
    requires Dispatched(l, issued, rest, q0, expiration, now) && l.head != 0
    requires now.Some? ==> expiration[l.head] < now.value
    requires |pool| == |expiration| && Counted(issued, pool, pending0, numPending0, pending, numPending)
    ensures 0 < l.head < |l.prev| && InMemory(l, |l.prev|) && DeleteDefined(l, l.head) && l.head < |pool| == |pending|
    ensures rest != []
    ensures Dispatched(Clear(Delete(l, l.head), l.head), issued + [l.head], rest[1..], q0, expiration, now)
    ensures var ult := if pool[l.head] then 1 else 0;
      Counted(issued + [l.head], pool, pending0, numPending0, pending[l.head := pending[l.head] + ult],
          numPending + ult)
  {
    DispatchStep(l, issued, rest, q0, expiration, now);
    CountedStep(issued, l.head, rest[1..], pool, pending0, numPending0, pending, numPending);
  }

  /** The dispatch loop of __margo_check_timers (with a time) and of __margo_timer_list_free
      (without): takes timers off the head, counting a new ULT for each timer with a pool
      and running the callback of the others in place. */
  method DispatchDue(l0: Links, expiration: seq<real>, pool: seq<bool>, pending0: seq<nat>, numPending0: nat,
                     now: Option<real>, ghost q: seq<Timer>)
    returns (l: Links, pending: seq<nat>, numPending: nat, issued: seq<Timer>, ghost rest: seq<Timer>)
    requires QueueOk(l0, q, expiration) && |pool| == |pending0| == |expiration|
    ensures QueueOk(l, rest, expiration) && issued + rest == q
    ensures Counted(issued, pool, pending0, numPending0, pending, numPending)
    ensures now.Some? ==> Due(issued, expiration, now.value)
    ensures now.Some? ==> forall t <- rest :: t < |expiration| && expiration[t] >= now.value
    ensures now.None? ==> rest == [] && issued == q
  {
    l, pending, numPending, issued, rest := l0, pending0, numPending0, [], q;
    DispatchStart(l, q, expiration, now);
    while l.head != 0 && (now.None? || expiration[l.head] < now.value)
      invariant Dispatched(l, issued, rest, q, expiration, now)
      invariant Counted(issued, pool, pending0, numPending0, pending, numPending)
      decreases |rest|
    {
      var cur := l.head;
      DispatchRound(l, issued, rest, q, expiration, now, pool, pending0, numPending0, pending, numPending);
      l := Clear(Delete(l, cur), cur);
      var ult := if pool[cur] then 1 else 0;
      pending, numPending := pending[cur := pending[cur] + ult], numPending + ult;
      issued, rest := issued + [cur], rest[1..];
    }
    DispatchEnd(l, issued, rest, q, expiration, now);
  }

  class TimerList {
    var links: Links
    var expiration: seq<real>
    // which timers run their callback as a ULT (pool != ABT_POOL_NULL)
    var pool: seq<bool>
    // ULTs created and not finished, for each timer and for the whole list
    var pending: seq<nat>
    var numPending: nat
    // set while a cancel of the timer is in progress
    var canceled: seq<bool>
    var destroyRequested: bool
    // the timers that are queued, in order
    ghost var queue: seq<Timer>

    ghost predicate Valid()
      reads this
    {
      && QueueOk(links, queue, expiration)
      && |expiration| == |pool| == |pending| == |canceled|
    }

    constructor (n: nat)
      ensures Valid() && queue == [] && numPending == 0 && !destroyRequested
      ensures |pool| == n + 1 && pending == seq(n + 1, _ => 0) && canceled == seq(n + 1, _ => false)
    {
      links := Links(0, seq(n + 1, _ => 0), seq(n + 1, _ => 0));
      expiration := seq(n + 1, _ => 0.0);
      pool := seq(n + 1, _ => false);
      pending := seq(n + 1, _ => 0);
      canceled := seq(n + 1, _ => false);
      numPending := 0;
      destroyRequested := false;
      queue := [];
    }

    /** __margo_timer_queue. */
    method Queue(t: Timer) returns (ghost k: nat)
      requires Valid() && 0 < t < |pool| && t !in queue
      modifies this`links, this`queue
      ensures Valid()
      ensures PlaceFor(old(queue), k, t, expiration) && queue == Inserted(old(queue), k, t)
    {
      links, k := InsertSorted(links, expiration, t, queue);
      queue := Inserted(queue, k, t);
    }

    /** margo_timer_start on a timer with no concurrent start or cancel. */
    method Start(t: Timer, now: real, timeoutMs: real) returns (rc: int)
      requires Valid() && 0 < t < |pool|
      modifies this`links, this`queue, this`expiration
      ensures Valid()
      ensures rc == (if old(t in queue || canceled[t] || destroyRequested) then -1 else 0)
      ensures rc == -1 ==> queue == old(queue) && expiration == old(expiration) && links == old(links)
      ensures rc == 0 ==> expiration == old(expiration)[t := now + timeoutMs / 1000.0]
      ensures rc == 0 ==> exists k: nat :: PlaceFor(old(queue), k, t, expiration) && queue == Inserted(old(queue), k, t)
    {
      LinkedIffQueued(links, queue, expiration, t);
      var alreadyStarted := links.prev[t] != 0 || links.next[t] != 0;
      if alreadyStarted || canceled[t] || destroyRequested {
        return -1;
      }
      expiration := expiration[t := now + timeoutMs / 1000.0];
      ghost var k := Queue(t);
      return 0;
    }

    /** __margo_check_timers: dispatches exactly the timers with expiration < now, in
        ascending order, each once. */
    method CheckTimers(now: real) returns (issued: seq<Timer>)
      requires Valid()
      modifies this`links, this`queue, this`pending, this`numPending
      ensures Valid()
      ensures issued + queue == old(queue)
      ensures Counted(issued, pool, old(pending), old(numPending), pending, numPending)
      ensures Due(issued, expiration, now)
      ensures forall t <- queue :: t < |expiration| && expiration[t] >= now
      ensures Ascending(issued, expiration) && Distinct(issued)
    {
      ghost var rest;
      links, pending, numPending, issued, rest :=
        DispatchDue(links, expiration, pool, pending, numPending, Some(now), queue);
      AscendingPrefix(issued, rest, expiration);
      queue := rest;
    }

    /** The drain of __margo_timer_list_free: every queued timer is dispatched once, in
        order, and the queue is left empty.  The caller then waits for numPending to
        reach zero. */
    method DrainForFree() returns (issued: seq<Timer>)
      requires Valid()
      modifies this`links, this`queue, this`pending, this`numPending, this`destroyRequested
      ensures Valid() && destroyRequested && queue == []
      ensures issued == old(queue)
      ensures Counted(issued, pool, old(pending), old(numPending), pending, numPending)
    {
      destroyRequested := true;
      ghost var rest;
      links, pending, numPending, issued, rest :=
        DispatchDue(links, expiration, pool, pending, numPending, None, queue);
      queue := rest;
    }

    /** __margo_timer_get_next_expiration: time to the earliest queued timer. */
    method NextExpiration(now: real) returns (r: Option<real>)
      requires Valid()
      ensures r == None <==> queue == []
      ensures r.Some? ==> (exists t <- queue :: t < |expiration| && expiration[t] == r.value + now)
      ensures r.Some? ==> (forall t <- queue :: t < |expiration| && expiration[t] >= r.value + now)
    {
      HeadIsFirst(links, queue, expiration);
      if links.head != 0 {
        assert queue[0] in queue;
        return Some(expiration[links.head] - now);
      }
      return None;
    }

    /** The list part of margo_timer_cancel: unlink the timer if it is queued. */
    method Unqueue(t: Timer)
      requires Valid() && 0 < t < |pool|
      modifies this`links, this`queue
      ensures Valid() && t !in queue
      ensures t !in old(queue) ==> queue == old(queue)
      ensures t in old(queue) ==>
        exists k :: 0 <= k < |old(queue)| && old(queue)[k] == t && queue == Without(old(queue), k)
    {
      LinkedIffQueued(links, queue, expiration, t);
      if links.prev[t] != 0 || links.next[t] != 0 {
        ghost var k := IndexOf(links, queue, t);
        RemoveOk(links, queue, expiration, k);
        links := Delete(links, t);
        queue := Without(queue, k);
      }
      links := links.(prev := links.prev[t := 0], next := links.next[t := 0]);
      if t !in old(queue) { assert links == old(links); }
    }
  }

  lemma NotYetIssued(issued: seq<Timer>, cur: Timer, rest: seq<Timer>)
    requires Distinct(issued + ([cur] + rest))
    ensures cur !in issued
    ensures issued + [cur] + rest == issued + ([cur] + rest)
  {
    var c := issued + ([cur] + rest);
    forall i | 0 <= i < |issued| ensures issued[i] != cur {
      assert c[i] == issued[i] && c[|issued|] == cur;
    }
  }

  lemma {:induction false} PooledStep(issued: seq<Timer>, cur: Timer, pool: seq<bool>)
    requires Below(issued, |pool|) && cur < |pool|
    ensures Below(issued + [cur], |pool|)
    ensures Pooled(issued + [cur], pool) == Pooled(issued, pool) + (if pool[cur] then [cur] else [])
  {
    assert (issued + [cur])[..|issued|] == issued;
  }

  lemma AscendingPrefix(a: seq<Timer>, b: seq<Timer>, expiration: seq<real>)
    requires Ascending(a + b, expiration) && Distinct(a + b)
    ensures Ascending(a, expiration) && Distinct(a)
  {
    var c := a + b;
    assert forall i :: 0 <= i < |a| ==> c[i] == a[i];
    forall i | 0 <= i < |a| ensures a[i] < |expiration| {
      assert c[i] == a[i];
    }
    forall i, j | 0 <= i < j < |a| ensures a[i] != a[j] && expiration[a[i]] <= expiration[a[j]] {
      assert c[i] == a[i] && c[j] == a[j];
    }
  }
}
