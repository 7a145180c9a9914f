/** What every interleaving of the timer protocol keeps, and what it promises to the
    caller of margo_timer_cancel and to the destructor of the timer list. */
module TimerSafety {
  import opened Common
  import opened DList
  import opened TimerProtocol

  // ---- counting ULTs ------------------------------------------------------------

  /** 1 for a ULT of timer t that has not decremented the timer's count. */
  ghost function Weight(u: Ult, t: Timer): nat {
    if u.timer == t && (u.phase == Created || u.phase == Running || u.phase == Finishing) then 1 else 0
  }

  /** 1 for a ULT that has not decremented the list's count. */
  ghost function Presence(u: Ult): nat {
    if u.phase != Gone then 1 else 0
  }

  ghost function Unfinished(ults: seq<Ult>, t: Timer): nat {
    if ults == [] then 0 else Unfinished(ults[..|ults| - 1], t) + Weight(ults[|ults| - 1], t)
  }

  ghost function Present(ults: seq<Ult>): nat {
    if ults == [] then 0 else Present(ults[..|ults| - 1]) + Presence(ults[|ults| - 1])
  }

  lemma {:induction false} CountUpdate(ults: seq<Ult>, k: nat, u: Ult)
    requires k < |ults|
    ensures forall t :: Unfinished(ults[k := u], t) == Unfinished(ults, t) - Weight(ults[k], t) + Weight(u, t)
    ensures Present(ults[k := u]) == Present(ults) - Presence(ults[k]) + Presence(u)
  {
    var n := |ults| - 1;
    if k == n {
      assert ults[k := u][..n] == ults[..n];
    } else {
      CountUpdate(ults[..n], k, u);
      assert ults[k := u][..n] == ults[..n][k := u];
    }
  }

  lemma CountAppend(ults: seq<Ult>, u: Ult)
    ensures forall t :: Unfinished(ults + [u], t) == Unfinished(ults, t) + Weight(u, t)
    ensures Present(ults + [u]) == Present(ults) + Presence(u)
  {
    assert (ults + [u])[..|ults|] == ults;
  }

  lemma {:induction false} CountBelow(ults: seq<Ult>, k: nat)
    requires k < |ults|
    ensures Unfinished(ults, ults[k].timer) >= Weight(ults[k], ults[k].timer)
    ensures Present(ults) >= Presence(ults[k])
  {
    var n := |ults| - 1;
    if k < n {
      CountBelow(ults[..n], k);
    }
  }

  // ---- the invariant ------------------------------------------------------------

  predicate InProgress(call: Call) {
    call.phase != Returned
  }

  /** The call has taken t off the queue and will not return before t's ULTs are gone. */
  predicate OffQueue(call: Call, t: Timer) {
    match call.phase
    case Unlinked => t in call.timers
    case NextCleared => t in call.timers
    case PrevCleared => t in call.timers
    case Processing(i) => i <= |call.timers| && t in call.timers[..i]
    case Waiting(_) => t in call.timers
    case Resetting(_) => t in call.timers
    case _ => false
  }

  /** The call has seen the ULTs of t gone. */
  predicate SawDrained(call: Call, t: Timer) {
    match call.phase
    case Waiting(i) => i <= |call.timers| && t in call.timers[..i]
    case Resetting(i) => i < |call.timers| && t in call.timers[..i + 1]
    case _ => false
  }

  /** t has been taken off the queue by the dispatcher that holds the list mutex. */
  predicate HeldByDispatcher(s: State, t: Timer) {
    s.lock.Dispatching? && !s.lock.hold.Scanning? && s.lock.hold.t == t
  }

  /** The call is a cancel that has unlinked t and has yet to store `next = NULL`. */
  predicate OwesNext(call: Call, t: Timer) {
    call == Call([t], Unlinked) || call == Call([t], PrevCleared)
  }

  /** The same for `prev = NULL`. */
  predicate OwesPrev(call: Call, t: Timer) {
    call == Call([t], Unlinked) || call == Call([t], NextCleared)
  }

  ghost predicate NextToClear(s: State, t: Timer) {
    exists c :: 0 <= c < |s.calls| && OwesNext(s.calls[c], t)
  }

  ghost predicate PrevToClear(s: State, t: Timer) {
    exists c :: 0 <= c < |s.calls| && OwesPrev(s.calls[c], t)
  }

  /** t is unlinked by a cancel that has not yet cleared both of t's own links. */
  ghost predicate Stale(s: State, t: Timer) {
    NextToClear(s, t) || PrevToClear(s, t)
  }

  /** Whatever links t has in l will still be cleared by a cancel. */
  ghost predicate WillClear(s: State, l: Links, t: Timer)
    requires t < |l.prev| == |l.next|
  {
    (l.next[t] != 0 ==> NextToClear(s, t)) && (l.prev[t] != 0 ==> PrevToClear(s, t))
  }

  ghost predicate CallOk(s: State, q: seq<Timer>, c: nat, t: Timer)
    requires Sized(s) && InRange(s, t) && c < |s.calls|
  {
    var call := s.calls[c];
    && (OffQueue(call, t) ==> t !in q && !HeldByDispatcher(s, t))
    && (SawDrained(call, t) ==> s.pending[t] == 0)
    && (InProgress(call) && t in call.timers ==> s.starting[t] == 0)
  }

  ghost predicate TimerOk(s: State, q: seq<Timer>, t: Timer)
    requires Sized(s) && InRange(s, t)
  {
    && (t !in q ==> WillClear(s, s.links, t))
    && s.pending[t] == Unfinished(s.ults, t) + (if s.lock.Dispatching? && s.lock.hold == Counted(t) then 1 else 0)
    && (s.starting[t] > 0 || HeldByDispatcher(s, t) ==> t !in q)
    && s.starting[t] <= 1
  }

  ghost predicate LockOk(s: State) {
    && (forall c :: 0 <= c < |s.calls| ==> (s.calls[c].phase.Processing? <==> s.lock == HeldByCall(c)))
    && (s.lock.HeldByCall? ==> s.lock.c < |s.calls|)
    && (s.lock == Destroyed ==> s.listPending == 0)
  }

  /** q is the abstract content of the timer queue. */
  ghost predicate Inv(s: State, q: seq<Timer>) {
    && Shape(s)
    && Represents(s.links, q)
    && s.listPending == Present(s.ults)
    && LockOk(s)
    && (forall t :: InRange(s, t) ==> TimerOk(s, q, t))
    && (forall c, t :: 0 <= c < |s.calls| && InRange(s, t) ==> CallOk(s, q, c, t))
  }

  /** DL_DELETE of a timer that is no longer queued, through the links it was left with,
      writes only what is there already, or to a link of an unqueued timer that one of this
      timer's cancels is still about to clear. */
  ghost predicate HarmlessDelete(s: State, q: seq<Timer>, t: Timer)
    requires Shape(s) && InRange(s, t)
  {
    var p, n := s.links.prev[t], s.links.next[t];
    && StillNeighbours(s.links, q, t)
    && (p != t && p !in q ==> n == 0 || NextToClear(s, p))
    && (p != t && n != 0 && n !in q ==> PrevToClear(s, n))
  }

  /** Taking t off the list meets no stale links, or harmless ones. */
  ghost predicate UnlinkIsSafe(s: State, t: Timer) {
    Shape(s) && InRange(s, t) && Stale(s, t) && IsLinked(s.links, t) ==>
      DeleteDefined(s.links, t) && forall q :: Represents(s.links, q) ==> HarmlessDelete(s, q, t)
  }

  /** The condition on callers: no start of a timer overlaps another start or a cancel of
      it.  Cancels of one timer may overlap, as long as none takes it off the list between
      another one's DL_DELETE and the clearing of the timer's links that follows, unless
      the stale links do no harm. */
  ghost predicate Exclusive(s: State, a: Action) {
    match a
    case StartBegin(t) => NoCallOn(s, t) && t < |s.starting| && s.starting[t] == 0
    case CancelBegin(t) => t < |s.starting| && s.starting[t] == 0
    case CancelManyBegin(ts) => forall t <- ts :: t < |s.starting| && s.starting[t] == 0
    case Unlink(c) => c < |s.calls| && s.calls[c].timers != [] ==> UnlinkIsSafe(s, s.calls[c].timers[0])
    case ManyOne(c) =>
      c < |s.calls| && s.calls[c].phase.Processing? && s.calls[c].phase.i < |s.calls[c].timers| ==>
        UnlinkIsSafe(s, s.calls[c].timers[s.calls[c].phase.i])
    case _ => true
  }

  ghost predicate NoCallOn(s: State, t: Timer) {
    forall c :: 0 <= c < |s.calls| && InProgress(s.calls[c]) ==> t !in s.calls[c].timers
  }

  ghost predicate OnlyStartAdds(q: seq<Timer>, a: Action, q': seq<Timer>) {
    forall t :: t in q' ==> t in q || (a.StartQueue? && a.t == t)
  }

  /** The content of the queue without t. */
  ghost predicate LeftOut(q: seq<Timer>, t: Timer, q': seq<Timer>) {
    forall y :: y in q' <==> y in q && y != t
  }

  /** Exactly what each step does to the content of the queue. */
  ghost predicate QueueMoves(s: State, q: seq<Timer>, a: Action, q': seq<Timer>) {
    match a
    case StartQueue(t, _) => t !in q && forall y :: y in q' <==> y in q || y == t
    case Pop => q != [] && s.links.head == q[0] && q' == q[1..] && LeftOut(q, q[0], q')
    case Unlink(c) => c < |s.calls| && s.calls[c].timers != [] && LeftOut(q, s.calls[c].timers[0], q')
    case ManyOne(c) =>
      && c < |s.calls| && s.calls[c].phase.Processing? && s.calls[c].phase.i < |s.calls[c].timers|
      && LeftOut(q, s.calls[c].timers[s.calls[c].phase.i], q')
    case _ => q' == q
  }

  // ---- preservation ---------------------------------------------------------------

  lemma BackInQueue(l: Links, q: seq<nat>, j: nat)
    requires Represents(l, q) && 0 < j <= |q|
    ensures l.head < |l.prev| && Back(l, l.head, j) == q[|q| - j]
  {
    assert LinkedAt(l, q, 0);
    if j > 1 {
      BackInQueue(l, q, j - 1);
      assert LinkedAt(l, q, |q| - j + 1);
    } else {
      assert Back(l, l.head, 0) == l.head;
    }
  }

  lemma InsertBehind(l: Links, q: seq<nat>, t: Timer, j: nat, el: nat)
    requires Represents(l, q) && 0 < t < |l.prev| && t !in q && 0 < j <= |q| && el == q[|q| - j]
    ensures 0 < el < |l.prev| && l.head != 0
    ensures Represents(AppendElem(l, el, t), Inserted(q, |q| - j + 1, t))
    ensures Untouched(l, AppendElem(l, el, t), Inserted(q, |q| - j + 1, t))
  {
    AppendElemRefines(l, q, |q| - j, t);
  }

  /** Any insertion the backward walk can make puts t somewhere into the sequence. */
  lemma InsertsRefines(l: Links, q: seq<nat>, t: Timer, j: nat, l': Links) returns (k: nat)
    requires Represents(l, q) && 0 < t < |l.prev| && t !in q && Inserts(l, t, j, l')
    ensures k <= |q| && Represents(l', Inserted(q, k, t)) && Untouched(l, l', Inserted(q, k, t))
    ensures InMemory(l', |l.prev|)
    ensures t in Inserted(q, k, t) && forall y :: y in q ==> y in Inserted(q, k, t)
    ensures forall y :: y in Inserted(q, k, t) ==> y in q || y == t
  {
    if q != [] { assert LinkedAt(l, q, 0); }
    if l.head == 0 {
      AppendToEmpty(l, t);
      k := 0;
      assert Inserted(q, 0, t) == [t];
    } else if j == 0 {
      PrependRefines(l, q, t);
      k := 0;
    } else {
      assert j <= |q| by {
        if j > |q| { BackInQueue(l, q, |q|); }
      }
      BackInQueue(l, q, j);
      InsertBehind(l, q, t, j, q[|q| - j]);
      k := |q| - j + 1;
    }
    InsertedMembers(q, k, t);
  }

  lemma StartQueueKeeps(s: State, q: seq<Timer>, t: Timer, j: nat, s': State) returns (q': seq<Timer>)
    requires Inv(s, q) && StartQueueStep(s, t, j, s')
    ensures Inv(s', q') && OnlyStartAdds(q, StartQueue(t, j), q') && QueueMoves(s, q, StartQueue(t, j), q')
  {
    assert TimerOk(s, q, t);
    var k := InsertsRefines(s.links, q, t, j, s'.links);
    q' := Inserted(q, k, t);
    forall x | InRange(s', x) ensures TimerOk(s', q', x) {
      assert TimerOk(s, q, x);
      StaleKept(s, s', x);
    }
    forall c, x | 0 <= c < |s'.calls| && InRange(s', x) ensures CallOk(s', q', c, x) {
      assert CallOk(s, q, c, x) && CallOk(s, q, c, t);
    }
  }

  lemma StaleKept(s: State, s': State, t: Timer)
    requires |s.calls| <= |s'.calls|
    requires forall c :: 0 <= c < |s.calls| && s'.calls[c] != s.calls[c] ==> !Clears(s.calls[c], t)
    ensures NextToClear(s, t) ==> NextToClear(s', t)
    ensures PrevToClear(s, t) ==> PrevToClear(s', t)
  {
    if c :| 0 <= c < |s.calls| && OwesNext(s.calls[c], t) { assert s'.calls[c] == s.calls[c]; }
    if c :| 0 <= c < |s.calls| && OwesPrev(s.calls[c], t) { assert s'.calls[c] == s.calls[c]; }
  }

  predicate Clears(call: Call, t: Timer) {
    OwesNext(call, t) || OwesPrev(call, t)
  }

  lemma LockFrame(s: State, q: seq<Timer>, s': State)
    requires Inv(s, q)
    requires s' == s.(lock := s'.lock, destroyRequested := s'.destroyRequested, freeWaiting := s'.freeWaiting)
    requires s'.lock.Dispatching? && !s'.lock.hold.Scanning? ==> HeldByDispatcher(s, s'.lock.hold.t)
    requires forall t :: (s.lock.Dispatching? && s.lock.hold == Counted(t)) <==>
             (s'.lock.Dispatching? && s'.lock.hold == Counted(t))
    requires !s.lock.HeldByCall? && !s'.lock.HeldByCall? && (s'.lock == Destroyed ==> s.listPending == 0)
    ensures Inv(s', q)
  {
    forall x | InRange(s', x) ensures TimerOk(s', q, x) {
      assert TimerOk(s, q, x);
      StaleKept(s, s', x);
    }
    forall c, x | 0 <= c < |s'.calls| && InRange(s', x) ensures CallOk(s', q, c, x) {
      assert CallOk(s, q, c, x);
    }
  }

  /** Steps that only hand the list mutex around. */
  lemma LockStepKeeps(s: State, q: seq<Timer>, a: Action, s': State)
    requires Inv(s, q) && LockStep(s, a, s')
    ensures Inv(s', q)
  {
    LockFrame(s, q, s');
  }

  lemma PopKeeps(s: State, q: seq<Timer>, s': State) returns (q': seq<Timer>)
    requires Inv(s, q) && PopStep(s, s')
    ensures Inv(s', q') && OnlyStartAdds(q, Pop, q') && QueueMoves(s, q, Pop, q')
  {
    assert q != [];
    q' := Without(q, 0);
    assert q' == q[1..];
    RemoveRefines(s.links, q, 0);
    var t := q[0];
    forall x | InRange(s', x) ensures TimerOk(s', q', x) {
      assert TimerOk(s, q, x);
      StaleKept(s, s', x);
    }
    forall c, x | 0 <= c < |s'.calls| && InRange(s', x) ensures CallOk(s', q', c, x) {
      assert CallOk(s, q, c, x);
    }
  }

  lemma CountTimerKeeps(s: State, q: seq<Timer>, s': State)
    requires Inv(s, q) && CountTimerStep(s, s')
    ensures Inv(s', q)
  {
    forall x | InRange(s', x) ensures TimerOk(s', q, x) {
      assert TimerOk(s, q, x);
      StaleKept(s, s', x);
    }
    forall c, x | 0 <= c < |s'.calls| && InRange(s', x) ensures CallOk(s', q, c, x) {
      assert CallOk(s, q, c, x) && CallOk(s, q, c, s.lock.hold.t);
      SawDrainedIsOff(s.calls[c], x);
    }
  }

  lemma SawDrainedIsOff(call: Call, t: Timer)
    ensures SawDrained(call, t) ==> OffQueue(call, t)
  {
  }

  /** Steps of a ULT: only its phase and the two counters change. */
  lemma UltFrame(s: State, q: seq<Timer>, u: nat, v: Ult, s': State)
    requires Inv(s, q) && u < |s.ults| && v.timer == s.ults[u].timer && |s'.pending| == |s.pending|
    requires s' == s.(ults := s.ults[u := v], pending := s.pending[v.timer := s'.pending[v.timer]],
                      listPending := s'.listPending)
    requires s'.pending[v.timer] + Weight(s.ults[u], v.timer) == s.pending[v.timer] + Weight(v, v.timer)
    requires s'.pending[v.timer] <= s.pending[v.timer]
    requires s'.listPending + Presence(s.ults[u]) == s.listPending + Presence(v)
    requires s'.listPending <= s.listPending
    ensures Inv(s', q)
  {
    CountUpdate(s.ults, u, v);
    forall x | InRange(s', x) ensures TimerOk(s', q, x) {
      assert TimerOk(s, q, x);
      StaleKept(s, s', x);
    }
    forall c, x | 0 <= c < |s'.calls| && InRange(s', x) ensures CallOk(s', q, c, x) {
      assert CallOk(s, q, c, x);
    }
  }

  lemma UltStepKeeps(s: State, q: seq<Timer>, a: Action, s': State)
    requires Inv(s, q) && UltStep(s, a, s')
    ensures Inv(s', q)
  {
    UltFrame(s, q, a.u, s'.ults[a.u], s');
  }

  lemma SpawnKeeps(s: State, q: seq<Timer>, s': State)
    requires Inv(s, q) && SpawnStep(s, s')
    ensures Inv(s', q)
  {
    CountAppend(s.ults, Ult(s.lock.hold.t, Created));
    forall x | InRange(s', x) ensures TimerOk(s', q, x) {
      assert TimerOk(s, q, x);
      StaleKept(s, s', x);
    }
    forall c, x | 0 <= c < |s'.calls| && InRange(s', x) ensures CallOk(s', q, c, x) {
      assert CallOk(s, q, c, x);
    }
  }

  lemma StartBeginKeeps(s: State, q: seq<Timer>, t: Timer, s': State)
    requires Inv(s, q) && StartBeginStep(s, t, s') && NoCallOn(s, t) && s.starting[t] == 0
    ensures Inv(s', q)
  {
    forall x | InRange(s', x) ensures TimerOk(s', q, x) {
      assert TimerOk(s, q, x);
      if x in q { LinkedWhenQueued(s.links, q, x); }
      StaleKept(s, s', x);
    }
    forall c, x | 0 <= c < |s'.calls| && InRange(s', x) ensures CallOk(s', q, c, x) {
      assert CallOk(s, q, c, x);
    }
  }

  /** A new call of cancel or cancel_many. */
  lemma CallBeginFrame(s: State, q: seq<Timer>, call: Call, s': State)
    requires Inv(s, q) && |s'.canceled| == |s.canceled|
    requires s' == s.(calls := s.calls + [call], canceled := s'.canceled)
    requires call.phase.Marked? || call.phase.Entering?
    requires PhaseInRange(call) && forall k :: 0 <= k < |call.timers| ==> InRange(s, call.timers[k])
    requires forall t <- call.timers :: t < |s.starting| && s.starting[t] == 0
    ensures Inv(s', q)
  {
    var n := |s.calls|;
    assert forall c :: 0 <= c < n ==> s'.calls[c] == s.calls[c];
    assert s'.calls[n] == call;
    forall x | InRange(s', x) ensures TimerOk(s', q, x) {
      assert TimerOk(s, q, x);
      StaleKept(s, s', x);
    }
    forall c, x | 0 <= c < |s'.calls| && InRange(s', x) ensures CallOk(s', q, c, x) {
      if c < n { assert CallOk(s, q, c, x); }
    }
  }

  lemma CallBeginKeeps(s: State, q: seq<Timer>, a: Action, s': State)
    requires Inv(s, q) && CallBeginStep(s, a, s') && Exclusive(s, a)
    ensures Inv(s', q)
  {
    CallBeginFrame(s, q, if a.CancelBegin? then Call([a.t], Marked) else Call(a.ts, Entering), s');
  }

  /** A call moves to its next phase without touching the queue. */
  lemma CallFrame(s: State, q: seq<Timer>, c: nat, s': State)
    requires Inv(s, q) && c < |s.calls| == |s'.calls| && |s'.canceled| == |s.canceled|
    requires s' == s.(calls := s.calls[c := s'.calls[c]], canceled := s'.canceled, lock := s'.lock)
    requires s'.calls[c].timers == s.calls[c].timers && InProgress(s.calls[c]) && PhaseInRange(s'.calls[c])
    requires !s.calls[c].phase.Unlinked? && !s.calls[c].phase.NextCleared? && !s.calls[c].phase.PrevCleared?
    requires s'.lock == s.lock || (!s.lock.Dispatching? && !s'.lock.Dispatching?)
    requires LockOk(s')
    requires forall t: Timer :: InRange(s, t) && t in s.calls[c].timers ==> CallOk(s', q, c, t)
    ensures Inv(s', q)
  {
    forall x | InRange(s', x) ensures TimerOk(s', q, x) {
      assert TimerOk(s, q, x);
      StaleKept(s, s', x);
    }
    forall d, x | 0 <= d < |s'.calls| && InRange(s', x) ensures CallOk(s', q, d, x) {
      assert CallOk(s, q, d, x) && CallOk(s, q, c, x);
    }
  }

  lemma ManyLockKeeps(s: State, q: seq<Timer>, a: Action, s': State)
    requires Inv(s, q) && ManyLockStep(s, a, s')
    ensures Inv(s', q)
  {
    forall t: Timer | InRange(s, t) && t in s.calls[a.c].timers ensures CallOk(s', q, a.c, t) {
      assert CallOk(s, q, a.c, t);
    }
    CallFrame(s, q, a.c, s');
  }

  lemma WaitDoneKeeps(s: State, q: seq<Timer>, c: nat, s': State)
    requires Inv(s, q) && WaitDoneStep(s, c, s')
    ensures Inv(s', q)
  {
    var call := s.calls[c];
    var i := call.phase.i;
    assert call.timers[..i + 1] == call.timers[..i] + [call.timers[i]];
    forall t: Timer | InRange(s, t) && t in call.timers ensures CallOk(s', q, c, t) {
      assert CallOk(s, q, c, t);
    }
    CallFrame(s, q, c, s');
  }

  lemma ResetKeeps(s: State, q: seq<Timer>, c: nat, s': State)
    requires Inv(s, q) && ResetStep(s, c, s')
    ensures Inv(s', q)
  {
    var call := s.calls[c];
    var i := call.phase.i;
    assert call.timers[..i + 1] == call.timers[..i] + [call.timers[i]];
    assert call.timers[i..] == [call.timers[i]] + call.timers[i + 1..];
    forall t: Timer | InRange(s, t) && t in call.timers ensures CallOk(s', q, c, t) {
      assert CallOk(s, q, c, t);
    }
    CallFrame(s, q, c, s');
  }

  /** Under the invariant a linked timer that is not stale really is in the queue. */
  lemma LinkedIsQueued(s: State, q: seq<Timer>, t: Timer)
    requires Inv(s, q) && InRange(s, t) && !(Stale(s, t) && IsLinked(s.links, t))
    ensures IsLinked(s.links, t) <==> t in q
  {
    assert TimerOk(s, q, t);
    if t in q {
      LinkedWhenQueued(s.links, q, t);
    }
  }

  lemma UnlinkRefines(l: Links, q: seq<Timer>, t: Timer) returns (q': seq<Timer>)
    requires Represents(l, q) && 0 < t < |l.prev| && (IsLinked(l, t) <==> t in q)
    ensures UnlinkDefined(l, t)
    ensures Represents(UnlinkIfLinked(l, t), q') && Untouched(l, UnlinkIfLinked(l, t), q')
    ensures t !in q' && (forall y :: y in q <==> y in q' || (y == t && t in q)) && LeftOut(q, t, q')
  {
    if t in q {
      var k := IndexOf(l, q, t);
      DeleteRefines(l, q, k);
      WithoutMembers(q, k);
      q' := Without(q, k);
    } else {
      q' := q;
    }
  }

  /** Links that nobody has touched are still explained. */
  lemma UntouchedWillClear(s: State, q: seq<Timer>, t: Timer, l': Links)
    requires Inv(s, q) && |l'.prev| == |l'.next| == |s.links.prev|
    requires forall y :: 0 <= y < |s.links.prev| && y !in q && y != t ==>
               l'.next[y] == s.links.next[y] && l'.prev[y] == s.links.prev[y]
    ensures forall y :: 0 < y < |s.links.prev| && y !in q && y != t ==> WillClear(s, l', y)
  {
    forall y | 0 < y < |s.links.prev| && y !in q && y != t ensures WillClear(s, l', y) {
      assert TimerOk(s, q, y);
    }
  }

  /** t leaves the queue, or was not in it. */
  lemma UnlinkFrame(s: State, q: seq<Timer>, c: nat, t: Timer, q': seq<Timer>, s': State)
    requires Inv(s, q) && c < |s.calls| == |s'.calls| && InRange(s, t) && |s'.canceled| == |s.canceled|
    requires s' == s.(links := s'.links, calls := s.calls[c := s'.calls[c]], canceled := s'.canceled)
    requires Represents(s'.links, q') && |s'.links.prev| == |s.links.prev|
    requires t !in q' && forall y :: y in q <==> y in q' || (y == t && t in q)
    requires |s'.links.next| == |s.links.prev|
    requires forall y :: 0 < y < |s.links.prev| && y !in q && y != t ==> WillClear(s, s'.links, y)
    requires WillClear(s', s'.links, t)
    requires InProgress(s.calls[c]) && t in s.calls[c].timers
    requires s'.calls[c].timers == s.calls[c].timers && PhaseInRange(s'.calls[c]) && LockOk(s')
    requires forall x: Timer :: InRange(s, x) ==> CallOk(s', q', c, x)
    ensures Inv(s', q')
  {
    forall x | InRange(s', x) ensures TimerOk(s', q', x) {
      assert TimerOk(s, q, x);
      if x != t { StaleKept(s, s', x); }
    }
    forall d, x | 0 <= d < |s'.calls| && InRange(s', x) ensures CallOk(s', q', d, x) {
      assert CallOk(s, q, d, x);
    }
  }

  /** t, which is not queued, is deleted through the links it was left with. */
  lemma StaleDeleteLinks(s: State, q: seq<Timer>, t: Timer, l': Links)
    requires Inv(s, q) && InRange(s, t) && t !in q && IsLinked(s.links, t) && DeleteDefined(s.links, t)
    requires HarmlessDelete(s, q, t) && l' == Delete(s.links, t)
    ensures Represents(l', q) && |l'.prev| == |s.links.prev|
    ensures |l'.next| == |s.links.prev|
    ensures forall y :: 0 < y < |s.links.prev| && y !in q && y != t ==> WillClear(s, l', y)
  {
    StaleDeleteHarmlessIff(s.links, q, t);
    if q != [] { assert q[0] in q; }
    forall y | 0 < y < |s.links.prev| && y !in q && y != t ensures WillClear(s, l', y) {
      assert TimerOk(s, q, y);
    }
  }

  lemma StaleUnlinkKeeps(s: State, q: seq<Timer>, c: nat, t: Timer, s': State)
    requires Inv(s, q) && UnlinkStep(s, c, s') && s.calls[c].timers[0] == t
    requires Stale(s, t) && IsLinked(s.links, t) && HarmlessDelete(s, q, t)
    ensures Inv(s', q) && LeftOut(q, t, q)
  {
    assert s.calls[c] == Call([t], Marked);
    StaleIsOff(s, q, t);
    StaleDeleteLinks(s, q, t, s'.links);
    assert OwesNext(s'.calls[c], t) && OwesPrev(s'.calls[c], t);
    forall x: Timer | InRange(s, x) ensures CallOk(s', q, c, x) {
      assert CallOk(s, q, c, x);
    }
    UnlinkFrame(s, q, c, t, q, s');
  }

  lemma UnlinkKeeps(s: State, q: seq<Timer>, c: nat, s': State) returns (q': seq<Timer>)
    requires Inv(s, q) && UnlinkStep(s, c, s') && Exclusive(s, Unlink(c))
    ensures Inv(s', q') && OnlyStartAdds(q, Unlink(c), q') && QueueMoves(s, q, Unlink(c), q')
  {
    var t := s.calls[c].timers[0];
    assert s.calls[c] == Call([t], Marked);
    assert InRange(s, t);
    if Stale(s, t) && IsLinked(s.links, t) {
      q' := q;
      StaleUnlinkKeeps(s, q, c, t, s');
    } else {
      LinkedIsQueued(s, q, t);
      q' := UnlinkRefines(s.links, q, t);
      UntouchedWillClear(s, q, t, s'.links);
      assert OwesNext(s'.calls[c], t) && OwesPrev(s'.calls[c], t);
      forall x: Timer | InRange(s, x) ensures CallOk(s', q', c, x) {
        assert CallOk(s, q, c, x);
      }
      UnlinkFrame(s, q, c, t, q', s');
    }
  }

  lemma StaleIsOff(s: State, q: seq<Timer>, t: Timer)
    requires Inv(s, q) && InRange(s, t) && Stale(s, t)
    ensures t !in q
  {
    if d :| 0 <= d < |s.calls| && OwesNext(s.calls[d], t) { assert CallOk(s, q, d, t); }
    if d :| 0 <= d < |s.calls| && OwesPrev(s.calls[d], t) { assert CallOk(s, q, d, t); }
  }

  lemma UnlinkClearRefines(l: Links, q: seq<Timer>, t: Timer) returns (q': seq<Timer>)
    requires Represents(l, q) && 0 < t < |l.prev| && (IsLinked(l, t) <==> t in q)
    ensures UnlinkDefined(l, t)
    ensures var l' := Clear(UnlinkIfLinked(l, t), t);
            && Represents(l', q') && |l'.prev| == |l.prev| && !IsLinked(l', t)
            && |l'.next| == |l.prev|
            && forall y :: 0 <= y < |l.prev| && y !in q && y != t ==> l'.next[y] == l.next[y] && l'.prev[y] == l.prev[y]
    ensures t !in q' && (forall y :: y in q <==> y in q' || (y == t && t in q)) && LeftOut(q, t, q')
  {
    q' := UnlinkRefines(l, q, t);
    ClearOutside(UnlinkIfLinked(l, t), q', t);
  }

  lemma StaleClearLinks(s: State, q: seq<Timer>, t: Timer, l': Links)
    requires Inv(s, q) && InRange(s, t) && t !in q && IsLinked(s.links, t) && DeleteDefined(s.links, t)
    requires HarmlessDelete(s, q, t) && l' == Clear(Delete(s.links, t), t)
    ensures Represents(l', q) && |l'.prev| == |s.links.prev|
    ensures |l'.next| == |s.links.prev|
    ensures forall y :: 0 < y < |s.links.prev| && y !in q && y != t ==> WillClear(s, l', y)
  {
    StaleDeleteLinks(s, q, t, Delete(s.links, t));
    ClearOutside(Delete(s.links, t), q, t);
  }

  lemma StaleManyOneKeeps(s: State, q: seq<Timer>, c: nat, t: Timer, s': State)
    requires Inv(s, q) && ManyOneStep(s, c, s') && s.calls[c].timers[s.calls[c].phase.i] == t
    requires Stale(s, t) && IsLinked(s.links, t) && HarmlessDelete(s, q, t)
    ensures Inv(s', q) && LeftOut(q, t, q)
  {
    var call := s.calls[c];
    StaleIsOff(s, q, t);
    StaleClearLinks(s, q, t, s'.links);
    assert call.timers[..call.phase.i + 1] == call.timers[..call.phase.i] + [t];
    forall x: Timer | InRange(s, x) ensures CallOk(s', q, c, x) {
      assert CallOk(s, q, c, x);
    }
    UnlinkFrame(s, q, c, t, q, s');
  }

  lemma ManyOneKeeps(s: State, q: seq<Timer>, c: nat, s': State) returns (q': seq<Timer>)
    requires Inv(s, q) && ManyOneStep(s, c, s') && Exclusive(s, ManyOne(c))
    ensures Inv(s', q') && OnlyStartAdds(q, ManyOne(c), q') && QueueMoves(s, q, ManyOne(c), q')
  {
    var call := s.calls[c];
    var i := call.phase.i;
    var t := call.timers[i];
    assert InRange(s, t);
    if Stale(s, t) && IsLinked(s.links, t) {
      q' := q;
      StaleManyOneKeeps(s, q, c, t, s');
    } else {
      LinkedIsQueued(s, q, t);
      q' := UnlinkClearRefines(s.links, q, t);
      UntouchedWillClear(s, q, t, s'.links);
      assert call.timers[..i + 1] == call.timers[..i] + [t];
      forall x: Timer | InRange(s, x) ensures CallOk(s', q', c, x) {
        assert CallOk(s, q, c, x);
      }
      UnlinkFrame(s, q, c, t, q', s');
    }
  }

  /** The store done, the other link is left to this call or to another one. */
  lemma ClearedWillClear(s: State, q: seq<Timer>, c: nat, s': State)
    requires Inv(s, q) && (ClearNextStep(s, c, s') || ClearPrevStep(s, c, s')) && s.calls[c].timers[0] !in q
    ensures WillClear(s', s'.links, s.calls[c].timers[0])
  {
    var t := s.calls[c].timers[0];
    assert TimerOk(s, q, t);
    if s.calls[c].phase.Unlinked? {
      assert if s'.calls[c].phase.NextCleared? then OwesPrev(s'.calls[c], t) else OwesNext(s'.calls[c], t);
    } else {
      if d :| 0 <= d < |s.calls| && OwesNext(s.calls[d], t) && d != c { assert s'.calls[d] == s.calls[d]; }
      if d :| 0 <= d < |s.calls| && OwesPrev(s.calls[d], t) && d != c { assert s'.calls[d] == s.calls[d]; }
    }
  }

  /** One of the two stores that clear a timer's own links. */
  lemma ClearKeeps(s: State, q: seq<Timer>, c: nat, s': State)
    requires Inv(s, q) && (ClearNextStep(s, c, s') || ClearPrevStep(s, c, s'))
    ensures Inv(s', q)
  {
    var t := s.calls[c].timers[0];
    assert CallOk(s, q, c, t) && Clears(s.calls[c], t);
    SetOutside(s.links, q, t);
    forall x: Timer | InRange(s, x) ensures CallOk(s', q, c, x) {
      assert CallOk(s, q, c, x);
    }
    UntouchedWillClear(s, q, t, s'.links);
    ClearedWillClear(s, q, c, s');
    UnlinkFrame(s, q, c, t, q, s');
  }

  /** Every step that respects the callers' condition keeps the invariant, and only a
      start adds a timer to the queue. */
  lemma NextKeepsInv(s: State, q: seq<Timer>, a: Action, s': State) returns (q': seq<Timer>)
    requires Inv(s, q) && Next(s, a, s') && Exclusive(s, a)
    ensures Inv(s', q') && OnlyStartAdds(q, a, q') && QueueMoves(s, q, a, q')
  {
    q' := q;
    if a.StartQueue? || a.Pop? || a.Unlink? || a.ManyOne? {
      q' := QueueStepKeeps(s, q, a, s');
    } else {
      FixedQueueKeeps(s, q, a, s');
    }
  }

  /** Steps that change the queue. */
  lemma QueueStepKeeps(s: State, q: seq<Timer>, a: Action, s': State) returns (q': seq<Timer>)
    requires Inv(s, q) && Next(s, a, s') && Exclusive(s, a)
    requires a.StartQueue? || a.Pop? || a.Unlink? || a.ManyOne?
    ensures Inv(s', q') && OnlyStartAdds(q, a, q') && QueueMoves(s, q, a, q')
  {
    match a {
      case StartQueue(t, j) => q' := StartQueueKeeps(s, q, t, j, s');
      case Pop => q' := PopKeeps(s, q, s');
      case Unlink(c) => q' := UnlinkKeeps(s, q, c, s');
      case ManyOne(c) => q' := ManyOneKeeps(s, q, c, s');
    }
  }

  /** Steps that leave the queue as it is. */
  lemma FixedQueueKeeps(s: State, q: seq<Timer>, a: Action, s': State)
    requires Inv(s, q) && Next(s, a, s') && Exclusive(s, a)
    requires !a.StartQueue? && !a.Pop? && !a.Unlink? && !a.ManyOne?
    ensures Inv(s', q)
  {
    match a {
      case StartBegin(t) => StartBeginKeeps(s, q, t, s');
      case CountTimer => CountTimerKeeps(s, q, s');
      case Spawn => SpawnKeeps(s, q, s');
      case ClearNext(c) => ClearKeeps(s, q, c, s');
      case ClearPrev(c) => ClearKeeps(s, q, c, s');
      case WaitDone(c) => WaitDoneKeeps(s, q, c, s');
      case Reset(c) => ResetKeeps(s, q, c, s');
      case _ => OtherStepKeeps(s, q, a, s');
    }
  }

  lemma OtherStepKeeps(s: State, q: seq<Timer>, a: Action, s': State)
    requires Inv(s, q) && Exclusive(s, a)
    requires LockStep(s, a, s') || UltStep(s, a, s') || CallBeginStep(s, a, s') || ManyLockStep(s, a, s')
    ensures Inv(s', q)
  {
    if LockStep(s, a, s') {
      LockStepKeeps(s, q, a, s');
    } else if UltStep(s, a, s') {
      UltStepKeeps(s, q, a, s');
    } else if CallBeginStep(s, a, s') {
      CallBeginKeeps(s, q, a, s');
    } else {
      ManyLockKeeps(s, q, a, s');
    }
  }

  // ---- overlapping cancels ------------------------------------------------------------

  /** A cancel that moves on into or within its list section: no timer but t is affected. */
  ghost predicate OnlyCallOf(s: State, c: nat, t: Timer, s': State) {
    && c < |s.calls| == |s'.calls| && s'.calls == s.calls[c := s'.calls[c]]
    && OffQueue(s'.calls[c], t)
    && forall y :: y != t ==> !Clears(s.calls[c], y) && !Clears(s'.calls[c], y)
  }

  lemma UnlinkOnlyCall(s: State, c: nat, s': State)
    requires Shape(s) && UnlinkStep(s, c, s')
    ensures OnlyCallOf(s, c, s.calls[c].timers[0], s')
  {
  }

  lemma ManyOneOnlyCall(s: State, c: nat, s': State)
    requires Shape(s) && ManyOneStep(s, c, s')
    ensures OnlyCallOf(s, c, s.calls[c].timers[s.calls[c].phase.i], s')
  {
    var call := s.calls[c];
    assert call.timers[call.phase.i] in call.timers[..call.phase.i + 1];
  }

  lemma OthersAlike(s: State, c: nat, t: Timer, s': State, y: Timer)
    requires OnlyCallOf(s, c, t, s') && y != t
    ensures NextToClear(s', y) <==> NextToClear(s, y)
    ensures PrevToClear(s', y) <==> PrevToClear(s, y)
  {
    StaleKept(s, s', y);
    StaleKept(s', s, y);
  }

  lemma ClearedRepresents(l: Links, q: seq<Timer>, t: Timer)
    requires InMemory(l, |l.prev|) && 0 < t < |l.prev| && t !in q && Represents(Clear(l, t), q)
    ensures Represents(l, q)
  {
    forall i | 0 <= i < |q| ensures LinkedAt(l, q, i) {
      assert LinkedAt(Clear(l, t), q, i) && q[i] in q;
    }
  }

  /** t has been deleted a second time, and some queue q' still fits the state. */
  ghost predicate DeletedAgain(s: State, q: seq<Timer>, c: nat, t: Timer, s': State, q': seq<Timer>) {
    && Inv(s, q) && Inv(s', q') && OnlyCallOf(s, c, t, s') && |s'.pool| == |s.pool|
    && InRange(s, t) && t !in q && DeleteDefined(s.links, t)
    && (s'.links == Delete(s.links, t) || s'.links == Clear(Delete(s.links, t), t))
  }

  /** A queued timer has links and no cancel to clear them, so it is still in the queue. */
  lemma NoneLost(s: State, q: seq<Timer>, c: nat, t: Timer, s': State, q': seq<Timer>, x: Timer)
    requires DeletedAgain(s, q, c, t, s', q') && x in q
    ensures x in q'
  {
    LinkedWhenQueued(s.links, q, x);
    DeleteOutside(s.links, q, t);
    assert InRange(s', x) && s'.links.prev[x] != 0;
    if x !in q' {
      assert TimerOk(s', q', x);
      OthersAlike(s, c, t, s', x);
      StaleIsOff(s, q, x);
    }
  }

  /** A timer that was linked but not queued is being canceled, so it stays out. */
  lemma NoneGained(s: State, q: seq<Timer>, c: nat, t: Timer, s': State, q': seq<Timer>, x: Timer)
    requires DeletedAgain(s, q, c, t, s', q') && x in q' && x !in q && x != t
    ensures 0 < x < |s.links.prev| && !IsLinked(s.links, x)
  {
    LinkedWhenQueued(s'.links, q', x);
    assert TimerOk(s, q, x);
    OthersAlike(s, c, t, s', x);
    if Stale(s', x) { StaleIsOff(s', q', x); }
  }

  lemma QueueIsForced(s: State, q: seq<Timer>, c: nat, t: Timer, s': State, q': seq<Timer>)
    requires DeletedAgain(s, q, c, t, s', q')
    ensures q' == q && Represents(Delete(s.links, t), q)
  {
    var l' := Delete(s.links, t);
    assert CallOk(s', q', c, t);
    if s'.links != l' { ClearedRepresents(l', q', t); }
    forall x | x in q ensures x in q' {
      NoneLost(s, q, c, t, s', q', x);
    }
    forall x | x in q' && x !in q ensures 0 < x < |s.links.prev| && !IsLinked(s.links, x) {
      NoneGained(s, q, c, t, s', q', x);
    }
    SameQueue(s.links, q, t, q');
  }

  /** If any queue fits the state afterwards, the stale links were harmless. */
  lemma KeptMeansHarmless(s: State, q: seq<Timer>, c: nat, t: Timer, s': State, q': seq<Timer>)
    requires DeletedAgain(s, q, c, t, s', q')
    ensures HarmlessDelete(s, q, t)
  {
    var p, n := s.links.prev[t], s.links.next[t];
    QueueIsForced(s, q, c, t, s', q');
    StaleDeleteHarmlessIff(s.links, q, t);
    if q != [] { assert q[0] in q; }
    assert TimerOk(s, q, t);
    if p != t && p !in q {
      assert TimerOk(s', q, p);
      OthersAlike(s, c, t, s', p);
    }
    if p != t && n != 0 && n != t && n !in q {
      assert TimerOk(s', q, n);
      OthersAlike(s, c, t, s', n);
    }
  }

  /** The exact condition: a cancel that takes t off the list while another cancel has
      unlinked t and not yet cleared both of t's links keeps the protocol in order, with
      whatever queue, if and only if the stale links are harmless. */
  lemma StaleUnlinkKeepsIff(s: State, q: seq<Timer>, c: nat, t: Timer, s': State)
    requires Inv(s, q) && UnlinkStep(s, c, s') && s.calls[c].timers[0] == t
    requires Stale(s, t) && IsLinked(s.links, t)
    ensures Consistent(s') <==> HarmlessDelete(s, q, t)
  {
    assert s.calls[c] == Call([t], Marked);
    StaleIsOff(s, q, t);
    if HarmlessDelete(s, q, t) {
      StaleUnlinkKeeps(s, q, c, t, s');
    }
    if q' :| Inv(s', q') {
      UnlinkOnlyCall(s, c, s');
      KeptMeansHarmless(s, q, c, t, s', q');
    }
  }

  /** The same for a timer that cancel_many takes off the list. */
  lemma StaleManyOneKeepsIff(s: State, q: seq<Timer>, c: nat, t: Timer, s': State)
    requires Inv(s, q) && ManyOneStep(s, c, s') && s.calls[c].timers[s.calls[c].phase.i] == t
    requires Stale(s, t) && IsLinked(s.links, t)
    ensures Consistent(s') <==> HarmlessDelete(s, q, t)
  {
    StaleIsOff(s, q, t);
    if HarmlessDelete(s, q, t) {
      StaleManyOneKeeps(s, q, c, t, s');
    }
    if q' :| Inv(s', q') {
      ManyOneOnlyCall(s, c, s');
      KeptMeansHarmless(s, q, c, t, s', q');
    }
  }

  /** The list macros never dereference NULL: popping the head is always defined, and so is
      taking any timer off the list that is not stale. */
  lemma DereferencesDefined(s: State, q: seq<Timer>, t: Timer)
    requires Inv(s, q)
    ensures s.links.head != 0 ==> DeleteDefined(s.links, s.links.head)
    ensures InRange(s, t) && !Stale(s, t) ==> UnlinkDefined(s.links, t)
  {
    if s.links.head != 0 {
      assert q != [];
      RemoveRefines(s.links, q, 0);
    }
    if InRange(s, t) && !Stale(s, t) {
      LinkedIsQueued(s, q, t);
      var q' := UnlinkRefines(s.links, q, t);
    }
  }

  // ---- silence ------------------------------------------------------------------------

  /** A callback of t is executing, in the progress loop or in a ULT. */
  ghost predicate CallbackActive(s: State, t: Timer) {
    || (s.lock.Dispatching? && s.lock.hold == Inline(t))
    || exists u :: 0 <= u < |s.ults| && s.ults[u] == Ult(t, Running)
  }

  /** Nothing in the state can lead to a callback of t. */
  ghost predicate Quiet(s: State, q: seq<Timer>, t: Timer) {
    && Sized(s) && InRange(s, t)
    && t !in q && s.starting[t] == 0 && !HeldByDispatcher(s, t) && s.pending[t] == 0
  }

  lemma QuietIsSilent(s: State, q: seq<Timer>, t: Timer)
    requires Inv(s, q) && Quiet(s, q, t)
    ensures !CallbackActive(s, t)
  {
    assert TimerOk(s, q, t);
    if u :| 0 <= u < |s.ults| && s.ults[u] == Ult(t, Running) {
      CountBelow(s.ults, u);
    }
  }

  /** Quiet, apart from the queue. */
  predicate StillQuiet(s: State, t: Timer) {
    Sized(s) && InRange(s, t) && s.starting[t] == 0 && !HeldByDispatcher(s, t) && s.pending[t] == 0
  }

  lemma PopKeepsQuiet(s: State, q: seq<Timer>, t: Timer, s': State)
    requires Shape(s) && Represents(s.links, q) && t !in q && StillQuiet(s, t) && PopStep(s, s')
    ensures StillQuiet(s', t)
  {
    assert q != [] && q[0] in q;
  }

  predicate TimerAction(a: Action) {
    a.StartBegin? || a.StartQueue? || a.CountTimer? || a.Spawn?
  }

  predicate CallAction(a: Action) {
    a.Unlink? || a.ClearNext? || a.ClearPrev? || a.ManyOne? || a.WaitDone? || a.Reset?
  }

  lemma TimerKeepsQuiet(s: State, t: Timer, a: Action, s': State)
    requires Next(s, a, s') && StillQuiet(s, t) && TimerAction(a) && a != StartBegin(t)
    ensures StillQuiet(s', t)
  {
  }

  lemma CallKeepsQuiet(s: State, t: Timer, a: Action, s': State)
    requires Next(s, a, s') && StillQuiet(s, t) && CallAction(a)
    ensures StillQuiet(s', t)
  {
  }

  lemma OthersKeepQuiet(s: State, t: Timer, a: Action, s': State)
    requires Shape(s) && StillQuiet(s, t)
    requires LockStep(s, a, s') || UltStep(s, a, s') || CallBeginStep(s, a, s') || ManyLockStep(s, a, s')
    ensures StillQuiet(s', t)
  {
  }

  lemma QuietStays(s: State, q: seq<Timer>, t: Timer, a: Action, s': State, q': seq<Timer>)
    requires Represents(s.links, q) && Quiet(s, q, t) && Next(s, a, s')
    requires OnlyStartAdds(q, a, q')
    requires a != StartBegin(t)
    ensures Quiet(s', q', t)
  {
    assert t !in q';
    if a.Pop? {
      PopKeepsQuiet(s, q, t, s');
    } else if TimerAction(a) {
      TimerKeepsQuiet(s, t, a, s');
    } else if CallAction(a) {
      CallKeepsQuiet(s, t, a, s');
    } else {
      OthersKeepQuiet(s, t, a, s');
    }
  }

  lemma ReturnIsQuiet(s: State, q: seq<Timer>, c: nat, t: Timer, s': State)
    requires Inv(s, q) && ResetStep(s, c, s') && s'.calls[c].phase == Returned
    requires t in s.calls[c].timers
    ensures Quiet(s', q, t)
  {
    var call := s.calls[c];
    assert call.timers[..call.phase.i + 1] == call.timers;
    assert InRange(s, t) by {
      var k :| 0 <= k < |call.timers| && call.timers[k] == t;
    }
    assert CallOk(s, q, c, t);
  }

  // ---- runs -----------------------------------------------------------------------------

  datatype Run = Run(states: seq<State>, actions: seq<Action>)

  ghost predicate Init(s: State) {
    && Shape(s)
    && s.links.head == 0
    && (forall t: Timer :: InRange(s, t) ==>
          !IsLinked(s.links, t) && s.pending[t] == 0 && !s.canceled[t] && s.starting[t] == 0)
    && s.listPending == 0 && s.lock == Free && s.ults == [] && s.calls == []
    && !s.destroyRequested && !s.freeWaiting
  }

  ghost predicate StepAt(r: Run, i: nat) {
    && i < |r.actions| && i + 1 < |r.states|
    && Next(r.states[i], r.actions[i], r.states[i + 1])
  }

  ghost predicate Steps(r: Run) {
    && |r.states| == |r.actions| + 1
    && forall i :: 0 <= i < |r.actions| ==> StepAt(r, i)
  }

  ghost predicate ExclusiveAt(r: Run, i: nat) {
    i < |r.actions| && i < |r.states| && Exclusive(r.states[i], r.actions[i])
  }

  /** A run from the initial state whose steps meet the condition on callers. */
  ghost predicate ValidRun(r: Run) {
    && Steps(r)
    && Init(r.states[0])
    && forall i :: 0 <= i < |r.actions| ==> ExclusiveAt(r, i)
  }

  /** The links spell out some queue for which the invariant holds. */
  ghost predicate Consistent(s: State) {
    exists q :: Inv(s, q)
  }

  lemma InitIsConsistent(s: State)
    requires Init(s)
    ensures Inv(s, []) && Consistent(s)
  {
    assert Inv(s, []);
  }

  lemma StepKeepsConsistent(r: Run, i: nat)
    requires ValidRun(r) && i < |r.actions| && Consistent(r.states[i])
    ensures Consistent(r.states[i + 1])
  {
    assert StepAt(r, i) && ExclusiveAt(r, i);
    var q :| Inv(r.states[i], q);
    q := NextKeepsInv(r.states[i], q, r.actions[i], r.states[i + 1]);
  }

  lemma {:induction false} ConsistentAt(r: Run, i: nat)
    requires ValidRun(r) && i < |r.states|
    ensures Consistent(r.states[i])
    decreases i
  {
    if i == 0 {
      InitIsConsistent(r.states[0]);
    } else {
      ConsistentAt(r, i - 1);
      StepKeepsConsistent(r, i - 1);
    }
  }

  lemma InvAt(r: Run, i: nat) returns (q: seq<Timer>)
    requires ValidRun(r) && i < |r.states|
    ensures Inv(r.states[i], q)
  {
    ConsistentAt(r, i);
    q :| Inv(r.states[i], q);
  }

  /** Step i is the return of a cancel, or of a cancel_many, of timer t. */
  ghost predicate CancelReturns(r: Run, i: nat, t: Timer)
    requires Steps(r)
  {
    && i < |r.actions| && r.actions[i].Reset?
    && var c := r.actions[i].c;
       && c < |r.states[i].calls| && t in r.states[i].calls[c].timers
       && c < |r.states[i + 1].calls| && r.states[i + 1].calls[c].phase == Returned
  }

  /** The state is consistent and nothing in it can lead to a callback of t. */
  ghost predicate Calm(s: State, t: Timer) {
    exists q :: Inv(s, q) && Quiet(s, q, t)
  }

  lemma CalmAtReturn(r: Run, i: nat, t: Timer)
    requires ValidRun(r) && CancelReturns(r, i, t)
    ensures Calm(r.states[i + 1], t)
  {
    var q := InvAt(r, i);
    assert StepAt(r, i);
    ReturnIsQuiet(r.states[i], q, r.actions[i].c, t, r.states[i + 1]);
    ResetKeeps(r.states[i], q, r.actions[i].c, r.states[i + 1]);
  }

  lemma CalmStays(r: Run, i: nat, t: Timer)
    requires ValidRun(r) && i < |r.actions| && Calm(r.states[i], t) && r.actions[i] != StartBegin(t)
    ensures Calm(r.states[i + 1], t)
  {
    assert StepAt(r, i) && ExclusiveAt(r, i);
    var q :| Inv(r.states[i], q) && Quiet(r.states[i], q, t);
    var q' := NextKeepsInv(r.states[i], q, r.actions[i], r.states[i + 1]);
    QuietStays(r.states[i], q, t, r.actions[i], r.states[i + 1], q');
  }

  lemma {:induction false} CalmAfterCancel(r: Run, i: nat, j: nat, t: Timer)
    requires ValidRun(r) && CancelReturns(r, i, t) && i < j < |r.states|
    requires forall k :: i < k < j ==> r.actions[k] != StartBegin(t)
    ensures Calm(r.states[j], t)
    decreases j
  {
    if j == i + 1 {
      CalmAtReturn(r, i, t);
    } else {
      CalmAfterCancel(r, i, j - 1, t);
      CalmStays(r, j - 1, t);
    }
  }

  /** Cancel safety: once a cancel of t has returned, no callback of t runs at any later
      point of the run, in the progress loop or in a ULT, until t is started again. */
  lemma CancelSafety(r: Run, i: nat, j: nat, t: Timer)
    requires ValidRun(r) && CancelReturns(r, i, t) && i < j < |r.states|
    requires forall k :: i < k < j ==> r.actions[k] != StartBegin(t)
    ensures !CallbackActive(r.states[j], t)
  {
    CalmAfterCancel(r, i, j, t);
    var q :| Inv(r.states[j], q) && Quiet(r.states[j], q, t);
    QuietIsSilent(r.states[j], q, t);
  }

  /** Step i marks t as canceled. */
  ghost predicate MarksAt(r: Run, i: nat, t: Timer)
    requires Steps(r)
  {
    && i < |r.actions|
    && (r.actions[i] == CancelBegin(t) ||
        (r.actions[i].ManyOne? && r.actions[i].c < |r.states[i].calls|
         && var call := r.states[i].calls[r.actions[i].c];
            call.phase.Processing? && call.phase.i < |call.timers| && call.timers[call.phase.i] == t))
  }

  /** Step i clears the mark of t. */
  ghost predicate UnmarksAt(r: Run, i: nat, t: Timer)
    requires Steps(r)
  {
    && i < |r.actions| && r.actions[i].Reset? && r.actions[i].c < |r.states[i].calls|
    && var call := r.states[i].calls[r.actions[i].c];
       call.phase.Resetting? && call.phase.i < |call.timers| && call.timers[call.phase.i] == t
  }

  /** Only a cancel sets a mark, and only a reset clears one. */
  lemma MarksFixed(s: State, a: Action, s': State)
    requires Next(s, a, s') && !a.CancelBegin? && !a.ManyOne? && !a.Reset?
    ensures s'.canceled == s.canceled && s'.pool == s.pool
  {
  }

  lemma MarkStays(s: State, a: Action, s': State, t: Timer)
    requires Next(s, a, s') && InRange(s, t) && t < |s.canceled| && s.canceled[t]
    requires !(a.Reset? && s.calls[a.c].timers[s.calls[a.c].phase.i] == t)
    ensures InRange(s', t) && t < |s'.canceled| && s'.canceled[t]
  {
    if !a.CancelBegin? && !a.ManyOne? && !a.Reset? {
      MarksFixed(s, a, s');
    }
  }

  lemma {:induction false} MarkedUntilReset(r: Run, i: nat, j: nat, t: Timer)
    requires Steps(r) && MarksAt(r, i, t) && i < j < |r.states|
    requires forall k :: i < k < j ==> !UnmarksAt(r, k, t)
    ensures InRange(r.states[j], t) && t < |r.states[j].canceled| && r.states[j].canceled[t]
    decreases j
  {
    if j == i + 1 {
      assert StepAt(r, i);
    } else {
      MarkedUntilReset(r, i, j - 1, t);
      assert StepAt(r, j - 1) && !UnmarksAt(r, j - 1, t);
      MarkStays(r.states[j - 1], r.actions[j - 1], r.states[j], t);
    }
  }

  /** A ULT that starts after its timer was marked and before the mark is cleared never runs
      the callback, however the cancels overlap. */
  lemma MarkedUltSkipsCallback(r: Run, i: nat, j: nat, u: nat)
    requires Steps(r) && i < j < |r.actions| && r.actions[j] == UltStart(u) && u < |r.states[j].ults|
    requires MarksAt(r, i, r.states[j].ults[u].timer)
    requires forall k :: i < k < j ==> !UnmarksAt(r, k, r.states[j].ults[u].timer)
    ensures u < |r.states[j + 1].ults| && r.states[j + 1].ults[u].phase == Finishing
  {
    MarkedUntilReset(r, i, j, r.states[j].ults[u].timer);
    assert StepAt(r, j);
  }

  /** No step of a run is held up by an undefined dereference: the dispatcher can pop
      whenever the queue is not empty, and a cancel can take its timer off the list. */
  lemma StepsAreDefined(r: Run, i: nat, t: Timer)
    requires ValidRun(r) && i < |r.states|
    ensures Shape(r.states[i])
    ensures r.states[i].links.head != 0 ==> DeleteDefined(r.states[i].links, r.states[i].links.head)
    ensures InRange(r.states[i], t) && UnlinkIsSafe(r.states[i], t) ==> UnlinkDefined(r.states[i].links, t)
  {
    var q := InvAt(r, i);
    DereferencesDefined(r.states[i], q, t);
  }

  /** The counters are exact: a timer's count is its unfinished ULTs (plus the one being
      created), and the list's count is the ULTs that have not left. */
  lemma CountsAreExact(r: Run, i: nat, t: Timer)
    requires ValidRun(r) && i < |r.states| && InRange(r.states[i], t)
    ensures Sized(r.states[i])
    ensures r.states[i].listPending == Present(r.states[i].ults)
    ensures r.states[i].lock != Dispatching(false, Counted(t)) && r.states[i].lock != Dispatching(true, Counted(t)) ==>
              r.states[i].pending[t] == Unfinished(r.states[i].ults, t)
  {
    var q := InvAt(r, i);
    assert TimerOk(r.states[i], q, t);
  }

  lemma {:induction false} NonePresent(ults: seq<Ult>, u: nat)
    requires Present(ults) == 0 && u < |ults|
    ensures ults[u].phase == Gone
  {
    CountBelow(ults, u);
  }

  lemma {:induction false} DestroyedForever(r: Run, i: nat, j: nat)
    requires Steps(r) && i <= j < |r.states| && r.states[i].lock == Destroyed
    ensures r.states[j].lock == Destroyed
    decreases j
  {
    if i < j {
      DestroyedForever(r, i, j - 1);
      assert StepAt(r, j - 1);
    }
  }

  /** When __margo_timer_list_free has freed the list, every timer ULT is gone, and no
      callback of any timer runs from then on. */
  lemma ListFreeQuiesces(r: Run, i: nat, j: nat, t: Timer)
    requires ValidRun(r) && i <= j < |r.states| && r.states[i].lock == Destroyed
    ensures forall u :: 0 <= u < |r.states[j].ults| ==> r.states[j].ults[u].phase == Gone
    ensures !CallbackActive(r.states[j], t)
  {
    DestroyedForever(r, i, j);
    var q := InvAt(r, j);
    forall u | 0 <= u < |r.states[j].ults| ensures r.states[j].ults[u].phase == Gone {
      NonePresent(r.states[j].ults, u);
    }
  }
}
