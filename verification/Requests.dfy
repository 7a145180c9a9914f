/** Asynchronous requests of margo: forward, respond and bulk operations in their eventual
    and callback variants.  A request is a slot of memory: one drawn from the arena, or for
    the blocking variants the zeroed stack frame of the caller, which is gone when the call
    returns.  The submitting thread, Mercury's completion callback margo_cb, the waiter and
    the timer list work on it concurrently.  Steps on the request's timer are steps of the
    timer protocol. */
module Requests {
  import TP = TimerProtocol
  import TS = TimerSafety

  type Timer = nat
  type Addr = nat

  datatype Kind = Eventual | Callback

  /** The fields of margo_request_struct that steer its life; timer 0 is NULL. */
  datatype Memory = Memory(timer: Timer, kind: Kind)

  /** What mochi_arena_get returns: MARGO_REQ_EVENTUAL is enumerator 0. */
  const ZEROED := Memory(0, Eventual)

  /** A slot of the arena, or a stack frame.  gets counts how often it was taken into use,
      releases how often it was given back: to the arena, or by returning from the call. */
  datatype Slot = Slot(stack: bool, free: bool, mem: Memory, gets: nat, releases: nat)

  datatype Phase =
    | Drawn               // drawn from the arena, inside the *_internal function
    | Armed               // timer created, not started
    | Starting            // margo_timer_start past its checks
    | Ready               // about to hand the operation to Mercury
    | FailCancel(c: nat)  // Mercury refused; canceling the timer with call c
    | Failed              // *_internal returned an error
    | InFlight            // Mercury accepted; margo_cb will run once
    | CbCancel(c: nat)    // margo_cb: canceling the timer with call c
    | Delivering          // margo_cb: timer gone, about to deliver the result
    | Called              // margo_cb: user callback called
    | EventualSet         // margo_cb: eventual set
    | Done                // released

  /** One submission.  `tail` says that margo_cb has delivered and not yet executed its last
      test of req->kind. */
  datatype Op = Op(addr: Addr, kind: Kind, timer: Timer, phase: Phase, tail: bool)

  datatype State = State(ts: TP.State, reserved: seq<bool>, slots: seq<Slot>, ops: seq<Op>)

  datatype Action =
    | Environment(a: TP.Action)        // other threads and the progress of cancels
    | Draw(addr: Addr, kind: Kind)     // mochi_arena_get or a new frame; kind = CALLBACK in the c variants
    | Overwrite(addr: Addr, mem: Memory) // a frame that is gone is used for something else
    | FailEarly(o: nat)
    | CreateTimer(o: nat, t: Timer)
    | StartTimer(o: nat)
    | StartFails(o: nat)
    | QueueTimer(o: nat, j: nat)
    | NoTimer(o: nat)                  // timeout_ms <= 0
    | SubmitOk(o: nat)
    | SubmitFails(o: nat)
    | FailCanceled(o: nat)
    | ReleaseFailed(o: nat, link: nat) // the submitter releases after a failure
    | CbBegin(o: nat)
    | CbCanceled(o: nat)
    | Deliver(o: nat)
    | Tail(o: nat, link: nat)          // margo_cb: if (req->kind == CALLBACK) release
    | Wait(o: nat, link: nat)          // margo_wait: release

  // ---- steps ----------------------------------------------------------------------

  ghost predicate Shape(s: State) {
    && TP.Shape(s.ts)
    && |s.reserved| == |s.ts.pool|
    && (forall t :: 0 <= t < |s.reserved| && s.reserved[t] ==> !s.ts.pool[t])
    && (forall o :: 0 <= o < |s.ops| ==> s.ops[o].addr < |s.slots|)
  }

  predicate OpAt(s: State, o: nat, phase: Phase) {
    o < |s.ops| && s.ops[o].phase == phase
  }

  function MemOf(s: State, o: nat): Memory
    requires o < |s.ops| && s.ops[o].addr < |s.slots|
  {
    s.slots[s.ops[o].addr].mem
  }

  function SetPhase(s: State, o: nat, phase: Phase): State
    requires o < |s.ops|
  {
    s.(ops := s.ops[o := s.ops[o].(phase := phase)])
  }

  function SetMem(s: State, o: nat, mem: Memory): State
    requires o < |s.ops| && s.ops[o].addr < |s.slots|
  {
    s.(slots := s.slots[s.ops[o].addr := s.slots[s.ops[o].addr].(mem := mem)])
  }

  /** mochi_arena_release: the free list's link overwrites the first word, the timer. */
  function Release(s: State, addr: Addr, link: nat): State
    requires addr < |s.slots|
  {
    var slot := s.slots[addr];
    s.(slots := s.slots[addr := slot.(free := true, mem := slot.mem.(timer := link), releases := slot.releases + 1)])
  }

  /** The owner is done with the request: back to the arena, or the frame is left. */
  function GiveBack(s: State, addr: Addr, link: nat): State
    requires addr < |s.slots|
  {
    if s.slots[addr].stack then Release(s, addr, s.slots[addr].mem.timer) else Release(s, addr, link)
  }

  predicate Reserved(s: State, t: Timer) {
    0 < t < |s.reserved| && s.reserved[t]
  }

  /** Request timers are started and canceled by the request's own steps only. */
  ghost predicate LeavesRequestTimersAlone(s: State, a: TP.Action) {
    match a
    case StartBegin(t) => !Reserved(s, t)
    case StartQueue(t, _) => !Reserved(s, t)
    case CancelBegin(t) => !Reserved(s, t)
    case CancelManyBegin(ts) => forall t <- ts :: !Reserved(s, t)
    case _ => true
  }

  /** The operation still has its timer, or is about to give it up. */
  predicate OwnsTimer(op: Op) {
    op.timer != 0 && (op.phase.Armed? || op.phase.Starting? || op.phase.Ready? || op.phase.FailCancel? ||
                      op.phase.InFlight? || op.phase.CbCancel?)
  }

  ghost predicate TimerStep(s: State, a: TP.Action, s': State) {
    TP.Next(s.ts, a, s'.ts) && TS.Exclusive(s.ts, a)
  }

  ghost predicate EnvironmentStep(s: State, a: TP.Action, s': State) {
    TimerStep(s, a, s') && LeavesRequestTimersAlone(s, a) && s' == s.(ts := s'.ts)
  }

  predicate DrawStep(s: State, addr: Addr, kind: Kind, s': State) {
    && addr < |s.slots| && s.slots[addr].free && (s.slots[addr].stack ==> kind == Eventual)
    && var mem := if kind == Callback then ZEROED.(kind := Callback) else ZEROED;
       s' == s.(slots := s.slots[addr := s.slots[addr].(free := false, mem := mem, gets := s.slots[addr].gets + 1)],
                ops := s.ops + [Op(addr, kind, 0, Drawn, false)])
  }

  predicate OverwriteStep(s: State, addr: Addr, mem: Memory, s': State) {
    && addr < |s.slots| && s.slots[addr].stack && s.slots[addr].free
    && s' == s.(slots := s.slots[addr := s.slots[addr].(mem := mem)])
  }

  /** calloc returns memory that no live timer uses. */
  ghost predicate CreateTimerStep(s: State, o: nat, t: Timer, s': State)
    requires Shape(s)
  {
    && OpAt(s, o, Drawn) && Reserved(s, t)
    && (forall p :: 0 <= p < |s.ops| && OwnsTimer(s.ops[p]) ==> s.ops[p].timer != t)
    && s' == SetMem(s, o, MemOf(s, o).(timer := t)).(ops := s.ops[o := s.ops[o].(phase := Armed, timer := t)])
  }

  ghost predicate StartTimerStep(s: State, o: nat, s': State)
    requires Shape(s)
  {
    && OpAt(s, o, Armed) && TP.Next(s.ts, TP.StartBegin(MemOf(s, o).timer), s'.ts)
    && s' == SetPhase(s, o, Starting).(ts := s'.ts)
  }

  ghost predicate QueueTimerStep(s: State, o: nat, j: nat, s': State)
    requires Shape(s)
  {
    && OpAt(s, o, Starting) && TP.Next(s.ts, TP.StartQueue(MemOf(s, o).timer, j), s'.ts)
    && s' == SetPhase(s, o, Ready).(ts := s'.ts)
  }

  /** A failed submission or margo_cb starts to cancel the request's timer. */
  ghost predicate CancelTimerStep(s: State, a: Action, s': State)
    requires Shape(s)
  {
    && (a.SubmitFails? || a.CbBegin?) && OpAt(s, a.o, if a.CbBegin? then InFlight else Ready)
    && MemOf(s, a.o).timer != 0
    && TP.Next(s.ts, TP.CancelBegin(MemOf(s, a.o).timer), s'.ts)
    && s' == SetPhase(s, a.o, if a.CbBegin? then CbCancel(|s.ts.calls|) else FailCancel(|s.ts.calls|)).(ts := s'.ts)
  }

  /** Steps that touch neither timers nor other slots. */
  ghost predicate PrivateStep(s: State, a: Action, s': State)
    requires Shape(s)
  {
    match a
    case FailEarly(o) => OpAt(s, o, Drawn) && s' == SetPhase(s, o, Failed)
    case StartFails(o) => OpAt(s, o, Armed) && s' == SetPhase(s, o, Failed)
    case NoTimer(o) => OpAt(s, o, Drawn) && s' == SetPhase(s, o, Ready)
    case SubmitOk(o) => OpAt(s, o, Ready) && s' == SetPhase(s, o, InFlight)
    case SubmitFails(o) => OpAt(s, o, Ready) && MemOf(s, o).timer == 0 && s' == SetPhase(s, o, Failed)
    case FailCanceled(o) =>
      && o < |s.ops| && s.ops[o].phase.FailCancel?
      && TP.CallAt(s.ts, s.ops[o].phase.c, TP.Returned)
      && s' == SetPhase(SetMem(s, o, MemOf(s, o).(timer := 0)), o, Failed)
    case CbBegin(o) => OpAt(s, o, InFlight) && MemOf(s, o).timer == 0 && s' == SetPhase(s, o, Delivering)
    case CbCanceled(o) =>
      && o < |s.ops| && s.ops[o].phase.CbCancel?
      && TP.CallAt(s.ts, s.ops[o].phase.c, TP.Returned)
      && s' == SetPhase(s, o, Delivering)
    case Deliver(o) =>
      && OpAt(s, o, Delivering)
      && s' == s.(ops := s.ops[o := s.ops[o].(phase := if MemOf(s, o).kind == Callback then Called else EventualSet,
                                              tail := true)])
    case _ => false
  }

  /** The submitter after a failure, or margo_wait, gives the request back. */
  ghost predicate GiveBackStep(s: State, a: Action, s': State)
    requires Shape(s)
  {
    && (a.ReleaseFailed? || a.Wait?) && OpAt(s, a.o, if a.Wait? then EventualSet else Failed)
    && s' == GiveBack(SetPhase(s, a.o, Done), s.ops[a.o].addr, a.link)
  }

  /** The last statement of margo_cb. */
  ghost predicate TailStep(s: State, o: nat, link: nat, s': State)
    requires Shape(s)
  {
    && o < |s.ops| && s.ops[o].tail
    && var s1 := s.(ops := s.ops[o := s.ops[o].(tail := false,
                                                phase := if s.ops[o].phase == Called then Done else s.ops[o].phase)]);
       s' == (if MemOf(s, o).kind == Callback then Release(s1, s.ops[o].addr, link) else s1)
  }

  ghost predicate Next(s: State, a: Action, s': State) {
    && Shape(s)
    && match a
       case Environment(b) => EnvironmentStep(s, b, s')
       case Draw(addr, kind) => DrawStep(s, addr, kind, s')
       case Overwrite(addr, mem) => OverwriteStep(s, addr, mem, s')
       case CreateTimer(o, t) => CreateTimerStep(s, o, t, s')
       case StartTimer(o) => StartTimerStep(s, o, s')
       case QueueTimer(o, j) => QueueTimerStep(s, o, j, s')
       case ReleaseFailed(_, _) => GiveBackStep(s, a, s')
       case Wait(_, _) => GiveBackStep(s, a, s')
       case Tail(o, link) => TailStep(s, o, link, s')
       case _ => PrivateStep(s, a, s') || CancelTimerStep(s, a, s')
  }
}
