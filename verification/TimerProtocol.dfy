/** Timers under concurrency.  Any number of threads start and cancel timers, check for
    expired ones, free the list, and run timer ULTs.  One step is one critical section
    or one access to a shared field, so a state lists, for every call in progress, how far
    it has come.  (The checks of margo_timer_start are one step: once no other start or
    cancel of the timer is under way, only their last read can change its answer.)  Which
    head timers are due is left to the clock, that is, free. */
module TimerProtocol {
  import opened DList

  type Timer = nat

  datatype UltPhase =
    | Created      // submitted, has not read `canceled`
    | Running      // inside the callback
    | Finishing    // callback done or skipped, about to take the timer mutex
    | Leaving      // timer's count decremented, about to take the list mutex
    | Gone

  datatype Ult = Ult(timer: Timer, phase: UltPhase)

  datatype CallPhase =
    | Marked          // margo_timer_cancel: `canceled` set
    | Unlinked        // list critical section done, own links not yet cleared
    | NextCleared     // `next = NULL` stored, `prev = NULL` not yet
    | PrevCleared     // the other way round: C does not order the two stores
    | Entering        // margo_timer_cancel_many: about to take the list mutex
    | Processing(i: nat)
    | Waiting(i: nat)    // about to wait for the ULTs of timers[i]
    | Resetting(i: nat)  // ULTs of timers[i] gone, about to clear `canceled`
    | Returned

  datatype Call = Call(timers: seq<Timer>, phase: CallPhase)

  datatype Hold = Scanning | Popped(t: Timer) | Inline(t: Timer) | Counted(t: Timer)

  datatype Lock =
    | Free
    | Dispatching(draining: bool, hold: Hold)  // check_timers, or the drain of list_free
    | HeldByCall(c: nat)                       // cancel_many
    | Destroyed                                // list_free never releases it

  datatype State = State(
    links: Links,
    pool: seq<bool>,
    pending: seq<nat>,
    canceled: seq<bool>,
    starting: seq<nat>,  // calls of margo_timer_start past their checks
    listPending: nat,
    destroyRequested: bool,
    freeWaiting: bool,
    lock: Lock,
    ults: seq<Ult>,
    calls: seq<Call>)

  datatype Action =
    | StartBegin(t: Timer)
    | StartQueue(t: Timer, j: nat)
    | CheckBegin
    | Pop
    | CountTimer
    | Spawn
    | InlineBegin
    | InlineEnd
    | CheckEnd
    | FreeBegin
    | DrainEnd
    | FreeWake
    | UltStart(u: nat)
    | UltCallbackEnd(u: nat)
    | UltDecrement(u: nat)
    | UltLeave(u: nat)
    | CancelBegin(t: Timer)
    | Unlink(c: nat)
    | ClearNext(c: nat)
    | ClearPrev(c: nat)
    | CancelManyBegin(ts: seq<Timer>)
    | ManyLock(c: nat)
    | ManyOne(c: nat)
    | ManyUnlock(c: nat)
    | WaitDone(c: nat)
    | Reset(c: nat)

  // ---- the steps --------------------------------------------------------------

  predicate InRange(s: State, t: Timer) {
    0 < t < |s.pool|
  }

  /** Every per-timer field has one cell per timer, plus the unused cell 0. */
  predicate Sized(s: State) {
    |s.pending| == |s.canceled| == |s.starting| == |s.links.prev| == |s.links.next| == |s.pool|
  }

  ghost predicate Shape(s: State) {
    && Sized(s)
    && InMemory(s.links, |s.pool|)
    && (forall u :: 0 <= u < |s.ults| ==> InRange(s, s.ults[u].timer))
    && (forall c, k :: 0 <= c < |s.calls| && 0 <= k < |s.calls[c].timers| ==> InRange(s, s.calls[c].timers[k]))
    && (forall c :: 0 <= c < |s.calls| ==> PhaseInRange(s.calls[c]))
    && (s.lock.Dispatching? && !s.lock.hold.Scanning? ==> InRange(s, s.lock.hold.t))
  }

  predicate PhaseInRange(call: Call) {
    match call.phase
    case Marked => |call.timers| == 1
    case Unlinked => |call.timers| == 1
    case NextCleared => |call.timers| == 1
    case PrevCleared => |call.timers| == 1
    case Entering => call.timers != []
    case Processing(i) => call.timers != [] && i <= |call.timers|
    case Waiting(i) => i < |call.timers|
    case Resetting(i) => i < |call.timers|
    case Returned => true
  }

  /** The node reached by following prev links j times. */
  function Back(l: Links, x: nat, j: nat): nat
    requires InMemory(l, |l.prev|) && x < |l.prev|
    ensures Back(l, x, j) < |l.prev|
  {
    if j == 0 then x else l.prev[Back(l, x, j - 1)]
  }

  /** The insertion of __margo_timer_queue when the backward walk takes j steps; zero
      steps stands for a walk that finds no earlier timer. */
  ghost predicate Inserts(l: Links, t: Timer, j: nat, l': Links)
    requires InMemory(l, |l.prev|) && 0 < t < |l.prev|
  {
    if l.head == 0 then l' == Append(l, t)
    else if j == 0 then l' == Prepend(l, t)
    else
      && (forall i :: 0 < i < j ==> Back(l, l.head, i) != l.head)
      && Back(l, l.head, j) != 0
      && l' == AppendElem(l, Back(l, l.head, j), t)
  }

  /** The delete below does not dereference NULL. */
  ghost predicate UnlinkDefined(l: Links, t: Timer)
    requires InMemory(l, |l.prev|) && 0 < t < |l.prev|
  {
    IsLinked(l, t) ==> DeleteDefined(l, t)
  }

  /** `if (timer->prev || timer->next) DL_DELETE(queue_head, timer)` */
  function UnlinkIfLinked(l: Links, t: Timer): (l': Links)
    requires InMemory(l, |l.prev|) && 0 < t < |l.prev| && UnlinkDefined(l, t)
    ensures InMemory(l', |l.prev|)
  {
    if IsLinked(l, t) then Delete(l, t) else l
  }

  function SetPhase(s: State, c: nat, phase: CallPhase): State
    requires c < |s.calls|
  {
    s.(calls := s.calls[c := s.calls[c].(phase := phase)])
  }

  function SetUlt(s: State, u: nat, phase: UltPhase): State
    requires u < |s.ults|
  {
    s.(ults := s.ults[u := s.ults[u].(phase := phase)])
  }

  predicate CallAt(s: State, c: nat, phase: CallPhase) {
    c < |s.calls| && s.calls[c].phase == phase
  }

  predicate UltAt(s: State, u: nat, phase: UltPhase) {
    u < |s.ults| && s.ults[u].phase == phase
  }

  predicate Scans(s: State) {
    s.lock.Dispatching? && s.lock.hold == Scanning
  }

  function Holding(s: State, h: Hold): State
    requires s.lock.Dispatching?
  {
    s.(lock := s.lock.(hold := h))
  }

  /** After timers[i] was reset: on to the next one, or back to the caller. */
  function AfterReset(call: Call, i: nat): CallPhase {
    if i + 1 < |call.timers| then Waiting(i + 1) else Returned
  }

  /** margo_timer_start passes its checks. */
  ghost predicate StartBeginStep(s: State, t: Timer, s': State)
    requires Shape(s)
  {
    && InRange(s, t) && !IsLinked(s.links, t) && !s.canceled[t] && !s.destroyRequested
    && s' == s.(starting := s.starting[t := s.starting[t] + 1])
  }

  ghost predicate StartQueueStep(s: State, t: Timer, j: nat, s': State)
    requires Shape(s)
  {
    && InRange(s, t) && s.starting[t] > 0 && s.lock == Free
    && Inserts(s.links, t, j, s'.links)
    && s' == s.(links := s'.links, starting := s.starting[t := s.starting[t] - 1])
  }

  ghost predicate PopStep(s: State, s': State)
    requires Shape(s)
  {
    && Scans(s) && s.links.head != 0 && DeleteDefined(s.links, s.links.head)
    && s' == Holding(s.(links := Clear(Delete(s.links, s.links.head), s.links.head)), Popped(s.links.head))
  }

  ghost predicate CountTimerStep(s: State, s': State)
    requires Shape(s)
  {
    && s.lock.Dispatching? && s.lock.hold.Popped?
    && var t := s.lock.hold.t;
       s.pool[t] && s' == Holding(s.(pending := s.pending[t := s.pending[t] + 1]), Counted(t))
  }

  predicate SpawnStep(s: State, s': State) {
    && s.lock.Dispatching? && s.lock.hold.Counted?
    && s' == Holding(s.(listPending := s.listPending + 1, ults := s.ults + [Ult(s.lock.hold.t, Created)]), Scanning)
  }

  /** Steps that only hand the list mutex around. */
  ghost predicate LockStep(s: State, a: Action, s': State)
    requires Shape(s)
  {
    match a
    case CheckBegin => s.lock == Free && s' == s.(lock := Dispatching(false, Scanning))
    case InlineBegin =>
      && s.lock.Dispatching? && s.lock.hold.Popped?
      && !s.pool[s.lock.hold.t] && s' == Holding(s, Inline(s.lock.hold.t))
    case InlineEnd => s.lock.Dispatching? && s.lock.hold.Inline? && s' == Holding(s, Scanning)
    case CheckEnd => Scans(s) && !s.lock.draining && s' == s.(lock := Free)
    case FreeBegin => s.lock == Free && s' == s.(lock := Dispatching(true, Scanning), destroyRequested := true)
    case DrainEnd =>
      && Scans(s) && s.lock.draining && s.links.head == 0
      && s' == (if s.listPending == 0 then s.(lock := Destroyed) else s.(lock := Free, freeWaiting := true))
    case FreeWake => s.freeWaiting && s.lock == Free && s.listPending == 0 && s' == s.(lock := Destroyed)
    case _ => false
  }

  /** Steps of timer_ult. */
  ghost predicate UltStep(s: State, a: Action, s': State)
    requires Shape(s)
  {
    match a
    case UltStart(u) =>
      && UltAt(s, u, Created)
      && s' == SetUlt(s, u, if s.canceled[s.ults[u].timer] then Finishing else Running)
    case UltCallbackEnd(u) => UltAt(s, u, Running) && s' == SetUlt(s, u, Finishing)
    case UltDecrement(u) =>
      && UltAt(s, u, Finishing)
      && var t := s.ults[u].timer;
         s.pending[t] > 0 && s' == SetUlt(s, u, Leaving).(pending := s.pending[t := s.pending[t] - 1])
    case UltLeave(u) =>
      && UltAt(s, u, Leaving) && s.lock == Free && s.listPending > 0
      && s' == SetUlt(s, u, Gone).(listPending := s.listPending - 1)
    case _ => false
  }

  ghost predicate CallBeginStep(s: State, a: Action, s': State)
    requires Shape(s)
  {
    match a
    case CancelBegin(t) =>
      && InRange(s, t)
      && s' == s.(canceled := s.canceled[t := true], calls := s.calls + [Call([t], Marked)])
    case CancelManyBegin(ts) =>
      && ts != [] && (forall k :: 0 <= k < |ts| ==> InRange(s, ts[k]))
      && s' == s.(calls := s.calls + [Call(ts, Entering)])
    case _ => false
  }

  ghost predicate UnlinkStep(s: State, c: nat, s': State)
    requires Shape(s)
  {
    && CallAt(s, c, Marked) && s.lock == Free
    && var t := s.calls[c].timers[0];
       && UnlinkDefined(s.links, t)
       && s' == SetPhase(s, c, Unlinked).(links := UnlinkIfLinked(s.links, t))
  }

  ghost predicate ManyOneStep(s: State, c: nat, s': State)
    requires Shape(s)
  {
    && c < |s.calls| && s.calls[c].phase.Processing? && s.lock == HeldByCall(c)
    && var call := s.calls[c];
       && call.phase.i < |call.timers|
       && var t := call.timers[call.phase.i];
          && UnlinkDefined(s.links, t)
          && s' == SetPhase(s, c, Processing(call.phase.i + 1)).(
                     links := Clear(UnlinkIfLinked(s.links, t), t), canceled := s.canceled[t := true])
  }

  /** The two stores of `timer->prev = timer->next = NULL`, outside every mutex. */
  ghost predicate ClearNextStep(s: State, c: nat, s': State)
    requires Shape(s)
  {
    && (CallAt(s, c, Unlinked) || CallAt(s, c, PrevCleared))
    && s' == SetPhase(s, c, if s.calls[c].phase.Unlinked? then NextCleared else Waiting(0)).(
               links := SetNext(s.links, s.calls[c].timers[0], 0))
  }

  ghost predicate ClearPrevStep(s: State, c: nat, s': State)
    requires Shape(s)
  {
    && (CallAt(s, c, Unlinked) || CallAt(s, c, NextCleared))
    && s' == SetPhase(s, c, if s.calls[c].phase.Unlinked? then PrevCleared else Waiting(0)).(
               links := SetPrev(s.links, s.calls[c].timers[0], 0))
  }

  predicate ManyLockStep(s: State, a: Action, s': State) {
    match a
    case ManyLock(c) =>
      CallAt(s, c, Entering) && s.lock == Free && s' == SetPhase(s, c, Processing(0)).(lock := HeldByCall(c))
    case ManyUnlock(c) =>
      && c < |s.calls| && s.calls[c].phase == Processing(|s.calls[c].timers|) && s.lock == HeldByCall(c)
      && s' == SetPhase(s, c, Waiting(0)).(lock := Free)
    case _ => false
  }

  ghost predicate WaitDoneStep(s: State, c: nat, s': State)
    requires Shape(s)
  {
    && c < |s.calls| && s.calls[c].phase.Waiting?
    && var call := s.calls[c];
       && s.pending[call.timers[call.phase.i]] == 0
       && s' == SetPhase(s, c, Resetting(call.phase.i))
  }

  ghost predicate ResetStep(s: State, c: nat, s': State)
    requires Shape(s)
  {
    && c < |s.calls| && s.calls[c].phase.Resetting?
    && var call := s.calls[c];
       s' == SetPhase(s, c, AfterReset(call, call.phase.i)).(canceled := s.canceled[call.timers[call.phase.i] := false])
  }

  ghost predicate Next(s: State, a: Action, s': State) {
    && Shape(s)
    && match a
       case StartBegin(t) => StartBeginStep(s, t, s')
       case StartQueue(t, j) => StartQueueStep(s, t, j, s')
       case Pop => PopStep(s, s')
       case CountTimer => CountTimerStep(s, s')
       case Spawn => SpawnStep(s, s')
       case Unlink(c) => UnlinkStep(s, c, s')
       case ClearNext(c) => ClearNextStep(s, c, s')
       case ClearPrev(c) => ClearPrevStep(s, c, s')
       case ManyOne(c) => ManyOneStep(s, c, s')
       case WaitDone(c) => WaitDoneStep(s, c, s')
       case Reset(c) => ResetStep(s, c, s')
       case _ => LockStep(s, a, s') || UltStep(s, a, s') || CallBeginStep(s, a, s') || ManyLockStep(s, a, s')
  }
}
