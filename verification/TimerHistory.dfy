/** The timer protocol told from its history: which callbacks do run, what becomes of every
    start, and when a timer can be started again. */
module TimerHistory {
  import opened Common
  import opened DList
  import opened TimerProtocol
  import opened TimerSafety

  ghost predicate FromInit(r: Run) {
    Steps(r) && Init(r.states[0])
  }

  // ---- marks ----------------------------------------------------------------

  /** A cancel has marked t before step j, and none has cleared the mark since. */
  ghost predicate MarkedBefore(r: Run, j: nat, t: Timer)
    requires Steps(r)
  {
    exists i :: 0 <= i < j && MarksAt(r, i, t) && NotClearedSince(r, i, j, t)
  }

  ghost predicate NotClearedSince(r: Run, i: nat, j: nat, t: Timer)
    requires Steps(r)
  {
    forall k :: i < k < j ==> !UnmarksAt(r, k, t)
  }

  lemma SizesFixed(s: State, a: Action, s': State)
    requires Next(s, a, s')
    ensures s'.pool == s.pool && |s'.canceled| == |s.canceled| == |s.pool| && |s'.starting| == |s.starting| == |s.pool|
  {
    if CallerAction(a) {
      CallerSizes(s, a, s');
    }
  }

  lemma CallerSizes(s: State, a: Action, s': State)
    requires Next(s, a, s') && CallerAction(a)
    ensures s'.pool == s.pool && |s'.canceled| == |s.canceled| == |s.pool| && |s'.starting| == |s.starting| == |s.pool|
  {
  }

  /** One step sets, clears or leaves a mark. */
  lemma MarkStep(r: Run, i: nat, t: Timer)
    requires Steps(r) && i < |r.actions| && InRange(r.states[i], t)
    ensures t < |r.states[i].canceled| && t < |r.states[i + 1].canceled|
    ensures r.states[i + 1].canceled[t] ==
            (if MarksAt(r, i, t) then true else if UnmarksAt(r, i, t) then false else r.states[i].canceled[t])
  {
    assert StepAt(r, i);
    var s, a, s' := r.states[i], r.actions[i], r.states[i + 1];
    SizesFixed(s, a, s');
    if !a.CancelBegin? && !a.ManyOne? && !a.Reset? {
      MarksFixed(s, a, s');
    }
  }

  lemma {:induction false} SameTimers(r: Run, j: nat)
    requires Steps(r) && j < |r.states|
    ensures r.states[j].pool == r.states[0].pool
  {
    if j > 0 {
      SameTimers(r, j - 1);
      assert StepAt(r, j - 1);
      SizesFixed(r.states[j - 1], r.actions[j - 1], r.states[j]);
    }
  }

  lemma MarkedStep(r: Run, j: nat, t: Timer)
    requires Steps(r) && j < |r.actions|
    ensures MarkedBefore(r, j + 1, t) <==> MarksAt(r, j, t) || (MarkedBefore(r, j, t) && !UnmarksAt(r, j, t))
  {
    if MarksAt(r, j, t) {
      assert NotClearedSince(r, j, j + 1, t);
    }
    if MarkedBefore(r, j, t) && !UnmarksAt(r, j, t) {
      var i :| 0 <= i < j && MarksAt(r, i, t) && NotClearedSince(r, i, j, t);
      assert NotClearedSince(r, i, j + 1, t);
    }
    if MarkedBefore(r, j + 1, t) && !MarksAt(r, j, t) {
      var i :| 0 <= i < j + 1 && MarksAt(r, i, t) && NotClearedSince(r, i, j + 1, t);
      assert NotClearedSince(r, i, j, t);
    }
  }

  /** The flag is set exactly when a mark is outstanding. */
  lemma {:induction false} CanceledIff(r: Run, j: nat, t: Timer)
    requires FromInit(r) && j < |r.states| && InRange(r.states[j], t)
    ensures t < |r.states[j].canceled| && (r.states[j].canceled[t] <==> MarkedBefore(r, j, t))
  {
    if j > 0 {
      SameTimers(r, j);
      SameTimers(r, j - 1);
      CanceledIff(r, j - 1, t);
      MarkStep(r, j - 1, t);
      MarkedStep(r, j - 1, t);
    }
  }

  /** A ULT runs the callback exactly when no mark of its timer is outstanding. */
  lemma UltRunsIff(r: Run, j: nat, u: nat)
    requires FromInit(r) && j < |r.actions| && r.actions[j] == UltStart(u)
    ensures u < |r.states[j].ults| && u < |r.states[j + 1].ults|
    ensures r.states[j + 1].ults[u].phase ==
            if MarkedBefore(r, j, r.states[j].ults[u].timer) then Finishing else Running
  {
    assert StepAt(r, j);
    CanceledIff(r, j, r.states[j].ults[u].timer);
  }

  // ---- what becomes of a start ----------------------------------------------

  ghost predicate Queued(s: State, t: Timer) {
    exists q :: Represents(s.links, q) && t in q
  }

  /** The links spell out one queue only. */
  lemma {:induction false} OneQueue(l: Links, q: seq<nat>, q': seq<nat>, k: nat)
    requires Represents(l, q) && Represents(l, q') && k <= |q|
    ensures k <= |q'| && q'[..k] == q[..k]
  {
    if k > 0 {
      OneQueue(l, q, q', k - 1);
      assert LinkedAt(l, q, k - 1);
      if k > 1 {
        assert q[k - 2] == q[..k - 1][k - 2] == q'[..k - 1][k - 2] == q'[k - 2];
        assert LinkedAt(l, q, k - 2) && LinkedAt(l, q', k - 2);
      }
      assert k - 1 < |q'| && q'[k - 1] == q[k - 1];
    }
  }

  lemma QueuedIs(s: State, q: seq<Timer>, t: Timer)
    requires Represents(s.links, q)
    ensures Queued(s, t) <==> t in q
  {
    if Queued(s, t) {
      var q' :| Represents(s.links, q') && t in q';
      OneQueue(s.links, q', q, |q'|);
      assert q[..|q'|] == q';
    }
  }

  datatype Event =
    | Started     // margo_timer_start has queued it
    | Dispatched  // the dispatcher has taken it off the queue because it is due
    | TakenOff    // a cancel has taken it off the queue
    | RunInline   // the dispatcher has called the callback itself

  /** The step takes t off the list for a cancel. */
  ghost predicate Cancels(s: State, a: Action, t: Timer) {
    || (a.Unlink? && a.c < |s.calls| && s.calls[a.c].timers != [] && s.calls[a.c].timers[0] == t)
    || (a.ManyOne? && a.c < |s.calls| && s.calls[a.c].phase.Processing?
        && s.calls[a.c].phase.i < |s.calls[a.c].timers| && s.calls[a.c].timers[s.calls[a.c].phase.i] == t)
  }

  ghost predicate Happens(s: State, a: Action, t: Timer, e: Event) {
    match e
    case Started => a.StartQueue? && a.t == t
    case Dispatched => a.Pop? && s.links.head == t
    case TakenOff => Cancels(s, a, t) && Queued(s, t)
    case RunInline => a.InlineBegin? && s.lock.Dispatching? && s.lock.hold == Popped(t)
  }

  /** How often it has happened in the first i steps. */
  ghost function Times(r: Run, i: nat, t: Timer, e: Event): nat
    requires Steps(r) && i < |r.states|
  {
    if i == 0 then 0
    else Times(r, i - 1, t, e) + if Happens(r.states[i - 1], r.actions[i - 1], t, e) then 1 else 0
  }

  /** A started timer is in the queue until it is dispatched or taken off, and each start comes
      to exactly one of these ends. */
  lemma {:induction false} EveryStartAccounted(r: Run, i: nat, t: Timer)
    requires ValidRun(r) && i < |r.states|
    ensures Times(r, i, t, Started) ==
            Times(r, i, t, Dispatched) + Times(r, i, t, TakenOff) + (if Queued(r.states[i], t) then 1 else 0)
    decreases i
  {
    if i == 0 {
      InitIsConsistent(r.states[0]);
      QueuedIs(r.states[0], [], t);
    } else {
      EveryStartAccounted(r, i - 1, t);
      var q := InvAt(r, i - 1);
      assert StepAt(r, i - 1) && ExclusiveAt(r, i - 1);
      var q' := NextKeepsInv(r.states[i - 1], q, r.actions[i - 1], r.states[i]);
      QueuedIs(r.states[i - 1], q, t);
      QueuedIs(r.states[i], q', t);
      QueueStepCounts(r.states[i - 1], q, r.actions[i - 1], r.states[i], q', t);
    }
  }

  ghost function One(b: bool): nat {
    if b then 1 else 0
  }

  lemma QueueStepCounts(s: State, q: seq<Timer>, a: Action, s': State, q': seq<Timer>, t: Timer)
    requires Represents(s.links, q) && Next(s, a, s') && QueueMoves(s, q, a, q') && (Queued(s, t) <==> t in q)
    ensures One(t in q) + One(Happens(s, a, t, Started)) ==
            One(t in q') + One(Happens(s, a, t, Dispatched)) + One(Happens(s, a, t, TakenOff))
  {
    if a.Pop? { assert q[0] in q; }
  }

  /** The ULTs of t. */
  ghost function UltsOf(ults: seq<Ult>, t: Timer): nat {
    if ults == [] then 0 else UltsOf(ults[..|ults| - 1], t) + One(ults[|ults| - 1].timer == t)
  }

  lemma {:induction false} UltsOfUpdate(ults: seq<Ult>, u: nat, v: Ult, t: Timer)
    requires u < |ults| && v.timer == ults[u].timer
    ensures UltsOf(ults[u := v], t) == UltsOf(ults, t)
  {
    var n := |ults| - 1;
    if u == n {
      assert ults[u := v][..n] == ults[..n];
    } else {
      UltsOfUpdate(ults[..n], u, v, t);
      assert ults[u := v][..n] == ults[..n][u := v];
    }
  }

  lemma UltsOfAppend(ults: seq<Ult>, v: Ult, t: Timer)
    ensures UltsOf(ults + [v], t) == UltsOf(ults, t) + One(v.timer == t)
  {
    assert (ults + [v])[..|ults|] == ults;
  }

  /** The dispatcher has taken t off the queue and neither called its callback nor made its ULT. */
  ghost predicate InHand(s: State, t: Timer) {
    s.lock.Dispatching? && (s.lock.hold == Popped(t) || s.lock.hold == Counted(t))
  }

  ghost predicate HandBalance(s: State, a: Action, s': State, t: Timer) {
    UltsOf(s'.ults, t) + One(InHand(s', t)) + One(Happens(s, a, t, RunInline)) ==
    UltsOf(s.ults, t) + One(InHand(s, t)) + One(Happens(s, a, t, Dispatched))
  }

  lemma UltHand(s: State, a: Action, s': State, t: Timer)
    requires Shape(s) && UltStep(s, a, s')
    ensures HandBalance(s, a, s', t)
  {
    UltsOfUpdate(s.ults, a.u, s'.ults[a.u], t);
  }

  lemma DispatcherHand(s: State, a: Action, s': State, t: Timer)
    requires Next(s, a, s') && (a.Pop? || a.CountTimer? || a.Spawn?)
    ensures HandBalance(s, a, s', t)
  {
    if a.Spawn? {
      UltsOfAppend(s.ults, Ult(s.lock.hold.t, Created), t);
    }
  }

  lemma LockHand(s: State, a: Action, s': State, t: Timer)
    requires Shape(s) && (LockStep(s, a, s') || ManyLockStep(s, a, s') || CallBeginStep(s, a, s'))
    ensures HandBalance(s, a, s', t)
  {
  }

  /** The steps of starts and of cancels, apart from those that take the list mutex. */
  predicate CallerAction(a: Action) {
    a.StartBegin? || a.StartQueue? || a.Unlink? || a.ClearNext? || a.ClearPrev? || a.ManyOne? || a.WaitDone? || a.Reset?
  }

  lemma CallerHand(s: State, a: Action, s': State, t: Timer)
    requires Next(s, a, s') && CallerAction(a)
    ensures HandBalance(s, a, s', t)
  {
    assert s'.ults == s.ults && s'.lock == s.lock;
  }

  lemma HandStep(s: State, a: Action, s': State, t: Timer)
    requires Next(s, a, s')
    ensures HandBalance(s, a, s', t)
  {
    if a.Pop? || a.CountTimer? || a.Spawn? {
      DispatcherHand(s, a, s', t);
    } else if CallerAction(a) {
      CallerHand(s, a, s', t);
    } else if UltStep(s, a, s') {
      UltHand(s, a, s', t);
    } else {
      LockHand(s, a, s', t);
    }
  }

  /** Every dispatched timer comes to its callback: the dispatcher calls it, or makes exactly one
      ULT for it, or still has it in hand. */
  lemma {:induction false} EveryDispatchAccounted(r: Run, i: nat, t: Timer)
    requires FromInit(r) && i < |r.states|
    ensures Times(r, i, t, Dispatched) ==
            Times(r, i, t, RunInline) + UltsOf(r.states[i].ults, t) + One(InHand(r.states[i], t))
    decreases i
  {
    if i > 0 {
      EveryDispatchAccounted(r, i - 1, t);
      assert StepAt(r, i - 1);
      HandStep(r.states[i - 1], r.actions[i - 1], r.states[i], t);
    }
  }

  /** A popped timer goes on to its own callback if it has no pool, and to a ULT otherwise. */
  lemma PoppedGoesOn(s: State, a: Action, s': State)
    requires Next(s, a, s') && s.lock.Dispatching? && s.lock.hold.Popped?
    ensures || s'.lock == s.lock
            || s'.lock == s.lock.(hold := if s.pool[s.lock.hold.t]
                then Counted(s.lock.hold.t) else Inline(s.lock.hold.t))
  {
  }

  // ---- starting again -------------------------------------------------------

  /** The call has marked t and will still clear the mark. */
  predicate WillReset(call: Call, t: Timer) {
    match call.phase
    case Processing(i) => i <= |call.timers| && t in call.timers[..i]
    case Waiting(i) => i <= |call.timers| && t in call.timers[i..]
    case Resetting(i) => i <= |call.timers| && t in call.timers[i..]
    case Entering => false
    case Returned => false
    case _ => t in call.timers
  }

  ghost predicate MarkOwned(s: State, t: Timer) {
    exists c :: 0 <= c < |s.calls| && WillReset(s.calls[c], t)
  }

  lemma UnlinkKeepsMark(s: State, c: nat, s': State, t: Timer)
    requires Shape(s) && c < |s.calls| && WillReset(s.calls[c], t)
    requires UnlinkStep(s, c, s') || ClearNextStep(s, c, s') || ClearPrevStep(s, c, s') || WaitDoneStep(s, c, s')
    ensures c < |s'.calls| && WillReset(s'.calls[c], t)
  {
    assert s.calls[c].timers[0..] == s.calls[c].timers;
  }

  lemma ManyKeepsMark(s: State, a: Action, s': State, t: Timer)
    requires Shape(s) && (a.ManyOne? || a.ManyUnlock? || a.ManyLock?) && a.c < |s.calls| && WillReset(s.calls[a.c], t)
    requires if a.ManyOne? then ManyOneStep(s, a.c, s') else ManyLockStep(s, a, s')
    ensures a.c < |s'.calls| && WillReset(s'.calls[a.c], t)
  {
    var call := s.calls[a.c];
    if a.ManyUnlock? {
      assert call.timers[..|call.timers|] == call.timers == call.timers[0..];
    } else if a.ManyOne? {
      assert call.timers[..call.phase.i + 1] == call.timers[..call.phase.i] + [call.timers[call.phase.i]];
    }
  }

  lemma ResetKeepsMark(s: State, c: nat, s': State, t: Timer)
    requires Shape(s) && ResetStep(s, c, s') && WillReset(s.calls[c], t) && s.calls[c].timers[s.calls[c].phase.i] != t
    ensures c < |s'.calls| && WillReset(s'.calls[c], t)
  {
    var call := s.calls[c];
    assert call.timers[call.phase.i..] == [call.timers[call.phase.i]] + call.timers[call.phase.i + 1..];
  }

  /** The steps of a call in progress. */
  predicate IsCallStep(a: Action) {
    || a.Unlink? || a.ClearNext? || a.ClearPrev? || a.ManyLock? || a.ManyOne? || a.ManyUnlock? || a.WaitDone? ||
        a.Reset?
  }

  lemma OtherCallsFixed(s: State, a: Action, s': State, c: nat)
    requires Next(s, a, s') && c < |s.calls| && !(IsCallStep(a) && a.c == c)
    ensures c < |s'.calls| && s'.calls[c] == s.calls[c]
  {
    if IsCallStep(a) {
      OneCallMoves(s, a, s');
    } else if a.StartBegin? || a.StartQueue? || a.Pop? || a.CountTimer? || a.Spawn? {
      NoCallMoves(s, a, s');
    }
  }

  lemma OneCallMoves(s: State, a: Action, s': State)
    requires Next(s, a, s') && IsCallStep(a)
    ensures a.c < |s.calls| == |s'.calls| && s'.calls == s.calls[a.c := s'.calls[a.c]]
  {
  }

  lemma NoCallMoves(s: State, a: Action, s': State)
    requires Next(s, a, s') && (a.StartBegin? || a.StartQueue? || a.Pop? || a.CountTimer? || a.Spawn?)
    ensures s'.calls == s.calls
  {
  }

  /** Every step leaves a call its marks, the cleared one aside. */
  lemma MarkKept(s: State, a: Action, s': State, c: nat, t: Timer)
    requires Next(s, a, s') && c < |s.calls| && WillReset(s.calls[c], t)
    requires !(a == Reset(c) && s.calls[c].timers[s.calls[c].phase.i] == t)
    ensures c < |s'.calls| && WillReset(s'.calls[c], t)
  {
    if !(IsCallStep(a) && a.c == c) {
      OtherCallsFixed(s, a, s', c);
    } else if a.Reset? {
      ResetKeepsMark(s, c, s', t);
    } else if a.ManyOne? || a.ManyUnlock? || a.ManyLock? {
      ManyKeepsMark(s, a, s', t);
    } else {
      UnlinkKeepsMark(s, c, s', t);
    }
  }

  /** A step that marks t belongs to a call that will clear the mark. */
  lemma MarkerOwns(r: Run, i: nat, t: Timer)
    requires Steps(r) && MarksAt(r, i, t)
    ensures MarkOwned(r.states[i + 1], t)
  {
    assert StepAt(r, i);
    var s, a, s' := r.states[i], r.actions[i], r.states[i + 1];
    if a.CancelBegin? {
      assert s'.calls[|s.calls|] == Call([t], Marked);
      assert WillReset(s'.calls[|s.calls|], t);
    } else {
      var call := s.calls[a.c];
      assert s'.calls[a.c] == Call(call.timers, Processing(call.phase.i + 1));
      assert t in call.timers[..call.phase.i + 1];
      assert WillReset(s'.calls[a.c], t);
    }
  }

  /** A mark that is outstanding will be cleared by a call in progress. */
  lemma {:induction false} MarksAreOwned(r: Run, j: nat, t: Timer)
    requires FromInit(r) && j < |r.states| && InRange(r.states[j], t)
    ensures t < |r.states[j].canceled| && (r.states[j].canceled[t] ==> MarkOwned(r.states[j], t))
  {
    if j > 0 {
      SameTimers(r, j);
      SameTimers(r, j - 1);
      MarksAreOwned(r, j - 1, t);
      MarkStep(r, j - 1, t);
      if MarksAt(r, j - 1, t) {
        MarkerOwns(r, j - 1, t);
      } else if r.states[j].canceled[t] {
        assert StepAt(r, j - 1);
        var c :| 0 <= c < |r.states[j - 1].calls| && WillReset(r.states[j - 1].calls[c], t);
        MarkKept(r.states[j - 1], r.actions[j - 1], r.states[j], c, t);
      }
    }
  }

  ghost predicate FreeBegun(r: Run, j: nat) {
    exists k :: 0 <= k < j && k < |r.actions| && r.actions[k] == FreeBegin
  }

  lemma DestroyStep(s: State, a: Action, s': State)
    requires Next(s, a, s')
    ensures s'.destroyRequested <==> s.destroyRequested || a == FreeBegin
  {
  }

  lemma {:induction false} DestroyIff(r: Run, j: nat)
    requires FromInit(r) && j < |r.states|
    ensures r.states[j].destroyRequested <==> FreeBegun(r, j)
  {
    if j > 0 {
      DestroyIff(r, j - 1);
      assert StepAt(r, j - 1);
      DestroyStep(r.states[j - 1], r.actions[j - 1], r.states[j]);
      if FreeBegun(r, j) && r.actions[j - 1] != FreeBegin {
        var k :| 0 <= k < j && k < |r.actions| && r.actions[k] == FreeBegin;
        assert k < j - 1;
      }
      if FreeBegun(r, j - 1) {
        var k :| 0 <= k < j - 1 && k < |r.actions| && r.actions[k] == FreeBegin;
        assert k < j;
      }
    }
  }

  ghost predicate CanStart(s: State, t: Timer) {
    Shape(s) && exists s' :: StartBeginStep(s, t, s')
  }

  lemma CanStartIff(s: State, t: Timer)
    requires Shape(s) && InRange(s, t)
    ensures CanStart(s, t) <==> !IsLinked(s.links, t) && !s.canceled[t] && !s.destroyRequested
  {
    if !IsLinked(s.links, t) && !s.canceled[t] && !s.destroyRequested {
      assert StartBeginStep(s, t, s.(starting := s.starting[t := s.starting[t] + 1]));
    }
  }

  /** A start passes its checks only when no mark is outstanding, the timer has no links, and the
      list is not being destroyed; this holds however cancels overlap. */
  lemma StartNeeds(r: Run, j: nat, t: Timer)
    requires FromInit(r) && j < |r.actions| && r.actions[j] == StartBegin(t)
    ensures !MarkedBefore(r, j, t) && !FreeBegun(r, j) && t < |r.states[j].links.prev| && t < |r.states[j].links.next|
    ensures !IsLinked(r.states[j].links, t)
  {
    assert StepAt(r, j);
    CanceledIff(r, j, t);
    DestroyIff(r, j);
  }

  /** Once all its cancels have returned, a timer can be started again exactly when it is not in
      the queue and the list is not being destroyed. */
  lemma CanRestartIff(r: Run, j: nat, t: Timer)
    requires ValidRun(r) && j < |r.states| && InRange(r.states[j], t) && NoCallOn(r.states[j], t)
    ensures CanStart(r.states[j], t) <==> !Queued(r.states[j], t) && !FreeBegun(r, j)
  {
    var s := r.states[j];
    var q := InvAt(r, j);
    QueuedIs(s, q, t);
    MarksAreOwned(r, j, t);
    DestroyIff(r, j);
    NotMarked(s, t);
    NotStale(s, t);
    LinkedIsQueued(s, q, t);
    CanStartIff(s, t);
  }

  lemma NotMarked(s: State, t: Timer)
    requires NoCallOn(s, t)
    ensures !MarkOwned(s, t)
  {
    forall c | 0 <= c < |s.calls| ensures !WillReset(s.calls[c], t) {
      if InProgress(s.calls[c]) { assert t !in s.calls[c].timers; }
    }
  }

  lemma NotStale(s: State, t: Timer)
    requires NoCallOn(s, t)
    ensures !Stale(s, t)
  {
    forall c | 0 <= c < |s.calls| ensures !OwesNext(s.calls[c], t) && !OwesPrev(s.calls[c], t) {
      if InProgress(s.calls[c]) { assert t !in s.calls[c].timers; }
    }
  }
}
