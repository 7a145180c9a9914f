/** Every request can be brought to its end: no submission, no completion and no waiter can get
    stuck, whatever the timers and the other requests are doing. */
module RequestProgress {
  import TP = TimerProtocol
  import TS = TimerSafety
  import Progress = TimerProgress
  import opened Requests
  import opened RequestSafety

  // ---- how much is left to do -----------------------------------------------

  function PhaseRank(phase: Phase): nat {
    match phase
    case Drawn => 2
    case Armed => 2
    case Starting => 13
    case Ready => 12
    case FailCancel(_) => 5
    case Failed => 1
    case InFlight => 11
    case CbCancel(_) => 5
    case Delivering => 4
    case Called => 2
    case EventualSet => 2
    case Done => 0
  }

  function OpRank(op: Op): nat {
    PhaseRank(op.phase) + if op.tail then 1 else 0
  }

  function OpRanks(ops: seq<Op>): nat {
    if ops == [] then 0 else OpRanks(ops[..|ops| - 1]) + OpRank(ops[|ops| - 1])
  }

  lemma {:induction false} OpRanksUpdate(ops: seq<Op>, o: nat, op: Op)
    requires o < |ops|
    ensures OpRanks(ops[o := op]) == OpRanks(ops) - OpRank(ops[o]) + OpRank(op)
  {
    var n := |ops| - 1;
    if o == n {
      assert ops[o := op][..n] == ops[..n];
    } else {
      OpRanksUpdate(ops[..n], o, op);
      assert ops[o := op][..n] == ops[..n][o := op];
    }
  }

  /** The steps left, at most, with n timers in the queue. */
  function Left(s: State, n: nat): nat {
    OpRanks(s.ops) + Progress.Left(s.ts, n)
  }

  // ---- the next helpful step ------------------------------------------------

  /** No new request, and nothing overwrites a stack frame. */
  predicate Helpful(a: Action) {
    !a.Draw? && !a.Overwrite? && (a.Environment? ==> Progress.Helpful(a.a))
  }

  ghost predicate NotDestroying(ts: TP.State) {
    ts.lock != TP.Destroyed && !Progress.Draining(ts)
  }

  /** The step is possible and brings the end closer, for a queue of n timers. */
  ghost predicate Advances(s: State, n: nat, a: Action, s': State) {
    Next(s, a, s') && Careful(s, a) && Helpful(a) && NotDestroying(s'.ts) && Left(s', n) < Left(s, n)
  }

  /** The operation takes a step that does not concern the timers. */
  lemma OpCloser(s: State, o: nat, op: Op, s': State, n: nat)
    requires o < |s.ops| && s'.ops == s.ops[o := op] && s'.ts == s.ts && OpRank(op) < OpRank(s.ops[o])
    ensures Left(s', n) < Left(s, n)
  {
    OpRanksUpdate(s.ops, o, op);
  }

  /** Steps that touch neither timers nor other slots. */
  lemma PrivateCloser(s: State, n: nat, a: Action, o: nat, op: Op, s': State)
    requires Shape(s) && NotDestroying(s.ts) && PrivateStep(s, a, s')
    requires o < |s.ops| && s'.ops == s.ops[o := op] && s'.ts == s.ts && OpRank(op) < OpRank(s.ops[o])
    ensures Advances(s, n, a, s')
  {
    OpCloser(s, o, op, s', n);
  }

  lemma EarlyAdvances(s: State, q: seq<Timer>, o: nat) returns (a: Action, s': State)
    requires Inv(s, q) && NotDestroying(s.ts) && o < |s.ops| && (s.ops[o].phase == Drawn || s.ops[o].phase == Armed)
    ensures Advances(s, |q|, a, s')
  {
    a := if s.ops[o].phase == Drawn then FailEarly(o) else StartFails(o);
    s' := SetPhase(s, o, Failed);
    PrivateCloser(s, |q|, a, o, s'.ops[o], s');
  }

  lemma SubmitAdvances(s: State, q: seq<Timer>, o: nat) returns (a: Action, s': State)
    requires Inv(s, q) && NotDestroying(s.ts) && o < |s.ops|
    requires s.ops[o].phase == Ready || (s.ops[o].phase == InFlight && s.ops[o].timer == 0)
    ensures Advances(s, |q|, a, s')
  {
    assert OpOk(s, q, o);
    if s.ops[o].phase == Ready {
      a, s' := SubmitOk(o), SetPhase(s, o, InFlight);
    } else {
      a, s' := CbBegin(o), SetPhase(s, o, Delivering);
    }
    PrivateCloser(s, |q|, a, o, s'.ops[o], s');
  }

  lemma DeliverAdvances(s: State, q: seq<Timer>, o: nat) returns (a: Action, s': State)
    requires Inv(s, q) && NotDestroying(s.ts) && o < |s.ops| && s.ops[o].phase == Delivering
    ensures Advances(s, |q|, a, s')
  {
    var op := s.ops[o].(phase := if MemOf(s, o).kind == Callback then Called else EventualSet, tail := true);
    a, s' := Deliver(o), s.(ops := s.ops[o := op]);
    PrivateCloser(s, |q|, a, o, op, s');
  }

  /** The cancel of the request's timer has returned. */
  lemma FailCanceledAdvances(s: State, q: seq<Timer>, o: nat, c: nat) returns (a: Action, s': State)
    requires Inv(s, q) && NotDestroying(s.ts) && o < |s.ops| && TP.CallAt(s.ts, c, TP.Returned)
    requires s.ops[o].phase == FailCancel(c)
    ensures Advances(s, |q|, a, s')
  {
    a, s' := FailCanceled(o), SetPhase(SetMem(s, o, MemOf(s, o).(timer := 0)), o, Failed);
    PrivateCloser(s, |q|, a, o, s'.ops[o], s');
  }

  lemma CbCanceledAdvances(s: State, q: seq<Timer>, o: nat, c: nat) returns (a: Action, s': State)
    requires Inv(s, q) && NotDestroying(s.ts) && o < |s.ops| && TP.CallAt(s.ts, c, TP.Returned)
    requires s.ops[o].phase == CbCancel(c)
    ensures Advances(s, |q|, a, s')
  {
    a, s' := CbCanceled(o), SetPhase(s, o, Delivering);
    PrivateCloser(s, |q|, a, o, s'.ops[o], s');
  }

  /** The request is given back. */
  lemma GiveBackAdvances(s: State, q: seq<Timer>, o: nat) returns (a: Action, s': State)
    requires Inv(s, q) && NotDestroying(s.ts) && o < |s.ops| && (s.ops[o].phase == Failed ||
             s.ops[o].phase == EventualSet)
    ensures Advances(s, |q|, a, s')
  {
    assert OpOk(s, q, o);
    a := if s.ops[o].phase == Failed then ReleaseFailed(o, 0) else Wait(o, 0);
    s' := GiveBack(SetPhase(s, o, Done), s.ops[o].addr, 0);
    OpCloser(s, o, s'.ops[o], s', |q|);
  }

  /** margo_cb executes its last test. */
  lemma TailAdvances(s: State, q: seq<Timer>, o: nat) returns (a: Action, s': State)
    requires Inv(s, q) && NotDestroying(s.ts) && o < |s.ops| && s.ops[o].tail
    ensures Advances(s, |q|, a, s')
  {
    assert OpOk(s, q, o);
    a := Tail(o, 0);
    var op := s.ops[o].(tail := false, phase := if s.ops[o].phase == Called then Done else s.ops[o].phase);
    var s1 := s.(ops := s.ops[o := op]);
    s' := if MemOf(s, o).kind == Callback then Release(s1, s.ops[o].addr, 0) else s1;
    OpCloser(s, o, op, s', |q|);
  }

  lemma CancelRank(ts: TP.State, t: Timer, ts': TP.State, n: nat)
    requires ts' == ts.(canceled := ts'.canceled, calls := ts.calls + [TP.Call([t], TP.Marked)])
    ensures Progress.Left(ts', n) == Progress.Left(ts, n) + 5
  {
    assert ts'.calls[..|ts.calls|] == ts.calls;
  }

  /** margo_cb begins to cancel the timer. */
  lemma CbBeginAdvances(s: State, q: seq<Timer>, o: nat) returns (a: Action, s': State)
    requires Inv(s, q) && NotDestroying(s.ts) && o < |s.ops| && s.ops[o].phase == InFlight && s.ops[o].timer != 0
    ensures Advances(s, |q|, a, s')
  {
    assert OpOk(s, q, o);
    var t := s.ops[o].timer;
    var ts' := s.ts.(canceled := s.ts.canceled[t := true], calls := s.ts.calls + [TP.Call([t], TP.Marked)]);
    a, s' := CbBegin(o), SetPhase(s, o, CbCancel(|s.ts.calls|)).(ts := ts');
    CbBeginCloser(s, |q|, o, ts', s');
  }

  lemma CbBeginCloser(s: State, n: nat, o: nat, ts': TP.State, s': State)
    requires Shape(s) && NotDestroying(s.ts) && OpAt(s, o, InFlight)
    requires MemOf(s, o).timer == s.ops[o].timer != 0 && TP.InRange(s.ts, s.ops[o].timer)
    requires var t := s.ops[o].timer;
             ts' == s.ts.(canceled := s.ts.canceled[t := true], calls := s.ts.calls + [TP.Call([t], TP.Marked)])
    requires s' == SetPhase(s, o, CbCancel(|s.ts.calls|)).(ts := ts')
    ensures Advances(s, n, CbBegin(o), s')
  {
    assert TP.Next(s.ts, TP.CancelBegin(s.ops[o].timer), ts');
    CancelRank(s.ts, s.ops[o].timer, ts', n);
    OpRanksUpdate(s.ops, o, s'.ops[o]);
  }

  /** The request's timer is queued. */
  lemma QueueAdvances(s: State, q: seq<Timer>, o: nat) returns (a: Action, s': State)
    requires Inv(s, q) && s.ts.lock == TP.Free && o < |s.ops| && s.ops[o].phase == Starting
    ensures Advances(s, |q|, a, s')
  {
    assert OpOk(s, q, o);
    var b, ts' := Progress.StartAdvances(s.ts, q, s.ops[o].timer);
    a, s' := QueueTimer(o, 0), SetPhase(s, o, Ready).(ts := ts');
    QueueCloser(s, q, o, ts', s');
  }

  lemma QueueCloser(s: State, q: seq<Timer>, o: nat, ts': TP.State, s': State)
    requires Shape(s) && s.ts.lock == TP.Free && OpAt(s, o, Starting) && MemOf(s, o).timer == s.ops[o].timer
    requires Progress.Advances(s.ts, q, TP.StartQueue(s.ops[o].timer, 0), ts')
    requires s' == SetPhase(s, o, Ready).(ts := ts')
    ensures Advances(s, |q|, QueueTimer(o, 0), s')
  {
    OpRanksUpdate(s.ops, o, s'.ops[o]);
    assert TP.Next(s.ts, TP.StartQueue(MemOf(s, o).timer, 0), ts');
  }

  /** Whatever Mercury, the arena and the caller answer is possible: a free slot can be drawn for
      either kind and a free frame for a blocking call, a drawn request can do without a timer
      or create any timer that is not in use, and a submission can be refused. */
  lemma EveryAnswerPossible(s: State, q: seq<Timer>, a: Action) returns (s': State)
    requires Inv(s, q)
    requires match a
             case Draw(addr, kind) => addr < |s.slots| && s.slots[addr].free && (s.slots[addr].stack ==>
                 kind == Eventual)
             case NoTimer(o) => OpAt(s, o, Drawn)
             case CreateTimer(o, t) => OpAt(s, o, Drawn) && Reserved(s, t) && !TimerOwned(s.ops, t)
             case SubmitFails(o) => OpAt(s, o, Ready)
             case _ => false
    ensures Next(s, a, s')
  {
    match a {
      case Draw(addr, kind) =>
        var slot := s.slots[addr].(free := false, mem := Memory(0, kind), gets := s.slots[addr].gets + 1);
        s' := s.(slots := s.slots[addr := slot], ops := s.ops + [Op(addr, kind, 0, Drawn, false)]);
      case NoTimer(o) => s' := SetPhase(s, o, Ready);
      case CreateTimer(o, t) =>
        s' := SetMem(s, o, MemOf(s, o).(timer := t)).(ops := s.ops[o := s.ops[o].(phase := Armed, timer := t)]);
      case SubmitFails(o) => s' := RefusalPossible(s, q, o);
    }
  }

  lemma RefusalPossible(s: State, q: seq<Timer>, o: nat) returns (s': State)
    requires Inv(s, q) && OpAt(s, o, Ready)
    ensures Next(s, SubmitFails(o), s')
  {
    assert OpOk(s, q, o);
    var t := s.ops[o].timer;
    if t == 0 {
      s' := SetPhase(s, o, Failed);
    } else {
      var ts' := s.ts.(canceled := s.ts.canceled[t := true], calls := s.ts.calls + [TP.Call([t], TP.Marked)]);
      assert TP.Next(s.ts, TP.CancelBegin(t), ts');
      s' := SetPhase(s, o, FailCancel(|s.ts.calls|)).(ts := ts');
    }
  }

  // ---- the timers -----------------------------------------------------------

  /** The operation cannot take a step by itself: it is over, or waits for the timers. */
  ghost predicate Waits(s: State, o: nat)
    requires o < |s.ops|
  {
    var op := s.ops[o];
    && !op.tail
    && match op.phase
       case Done => true
       case Starting => s.ts.lock != TP.Free
       case FailCancel(c) => !TP.CallAt(s.ts, c, TP.Returned)
       case CbCancel(c) => !TP.CallAt(s.ts, c, TP.Returned)
       case _ => false
  }

  lemma OpAdvances(s: State, q: seq<Timer>, o: nat) returns (a: Action, s': State)
    requires Inv(s, q) && NotDestroying(s.ts) && o < |s.ops| && !Waits(s, o)
    ensures Advances(s, |q|, a, s')
  {
    var op := s.ops[o];
    assert OpOk(s, q, o);
    if op.tail {
      a, s' := TailAdvances(s, q, o);
    } else if op.phase == Starting {
      a, s' := QueueAdvances(s, q, o);
    } else if op.phase == Failed || op.phase == EventualSet {
      a, s' := GiveBackAdvances(s, q, o);
    } else if op.phase.FailCancel? {
      a, s' := FailCanceledAdvances(s, q, o, op.phase.c);
    } else if op.phase.CbCancel? {
      a, s' := CbCanceledAdvances(s, q, o, op.phase.c);
    } else if op.phase == InFlight && op.timer != 0 {
      a, s' := CbBeginAdvances(s, q, o);
    } else if op.phase == Delivering {
      a, s' := DeliverAdvances(s, q, o);
    } else if op.phase == Drawn || op.phase == Armed {
      a, s' := EarlyAdvances(s, q, o);
    } else {
      a, s' := SubmitAdvances(s, q, o);
    }
  }

  /** Somebody is waiting, so the timers are not at rest. */
  lemma TimersBusy(s: State, q: seq<Timer>, o: nat)
    requires Inv(s, q) && o < |s.ops| && Waits(s, o) && s.ops[o].phase != Done
    ensures !Progress.AllDone(s.ts)
  {
    assert OpOk(s, q, o);
  }

  /** A request's timer that waits to be queued belongs to an operation in that phase. */
  lemma StarterIsOp(s: State, q: seq<Timer>, t: Timer) returns (o: nat)
    requires Inv(s, q) && Reserved(s, t) && t < |s.ts.starting| && s.ts.starting[t] > 0
    ensures o < |s.ops| && s.ops[o].phase == Starting && (s.ts.lock == TP.Free ==> !Waits(s, o))
  {
    assert TimerOwned(s.ops, t);
    o :| 0 <= o < |s.ops| && OwnsTimer(s.ops[o]) && s.ops[o].timer == t;
    assert OpOk(s, q, o);
  }

  lemma LeavesAlone(s: State, q: seq<Timer>, a: TP.Action, ts': TP.State)
    requires Inv(s, q) && Progress.Advances(s.ts, q, a, ts')
    requires forall o :: 0 <= o < |s.ops| ==> Waits(s, o)
    ensures LeavesRequestTimersAlone(s, a)
  {
    if a.StartQueue? && Reserved(s, a.t) {
      var o := StarterIsOp(s, q, a.t);
    }
  }

  /** When every operation waits, and not all are over, the timers take a step. */
  lemma TimersAdvance(s: State, q: seq<Timer>, o: nat) returns (a: Action, s': State, q': seq<Timer>)
    requires Inv(s, q) && NotDestroying(s.ts) && o < |s.ops| && s.ops[o].phase != Done
    requires forall p :: 0 <= p < |s.ops| ==> Waits(s, p)
    ensures Next(s, a, s') && Careful(s, a) && Helpful(a) && NotDestroying(s'.ts)
    ensures Inv(s', q') && Left(s', |q'|) < Left(s, |q|)
  {
    TimersBusy(s, q, o);
    var b, ts' := Progress.SomeStepAdvances(s.ts, q);
    a, s' := Environment(b), s.(ts := ts');
    LeavesAlone(s, q, b, ts');
    q' := NextKeepsInv(s, q, a, s');
  }

  // ---- to the end -----------------------------------------------------------

  ghost predicate AllOver(s: State) {
    forall o :: 0 <= o < |s.ops| ==> s.ops[o].phase == Done && !s.ops[o].tail
  }

  /** Unless all requests are over, some step brings the end closer. */
  lemma SomeStepAdvances(s: State, q: seq<Timer>) returns (a: Action, s': State, q': seq<Timer>)
    requires Inv(s, q) && NotDestroying(s.ts) && !AllOver(s)
    ensures Next(s, a, s') && Careful(s, a) && Helpful(a) && NotDestroying(s'.ts)
    ensures Inv(s', q') && Left(s', |q'|) < Left(s, |q|)
  {
    if o :| 0 <= o < |s.ops| && !Waits(s, o) {
      a, s' := OpAdvances(s, q, o);
      q' := NextKeepsInv(s, q, a, s');
    } else {
      var o :| 0 <= o < |s.ops| && (s.ops[o].phase != Done || s.ops[o].tail);
      assert Waits(s, o);
      a, s', q' := TimersAdvance(s, q, o);
    }
  }

  ghost function Last(r: Run): State
    requires r.states != []
  {
    r.states[|r.states| - 1]
  }

  /** r' goes on from r with helpful steps. */
  ghost predicate GoesOn(r: Run, r': Run) {
    && ValidRun(r) && ValidRun(r')
    && |r.states| <= |r'.states| && r'.states[..|r.states|] == r.states && r'.actions[..|r.actions|] == r.actions
    && (forall k :: |r.actions| <= k < |r'.actions| ==> Helpful(r'.actions[k]))
  }

  lemma GoesOnOn(r: Run, r1: Run, r2: Run)
    requires GoesOn(r, r1) && GoesOn(r1, r2)
    ensures GoesOn(r, r2)
  {
    assert r2.states[..|r.states|] == r2.states[..|r1.states|][..|r.states|];
    assert r2.actions[..|r.actions|] == r2.actions[..|r1.actions|][..|r.actions|];
    forall k | |r.actions| <= k < |r2.actions| ensures Helpful(r2.actions[k]) {
      if k < |r1.actions| { assert r2.actions[..|r1.actions|][k] == r1.actions[k]; }
    }
  }

  lemma OneMore(r: Run, a: Action, s': State) returns (r': Run)
    requires ValidRun(r) && Next(Last(r), a, s') && Careful(Last(r), a) && Helpful(a)
    ensures GoesOn(r, r') && Last(r') == s'
  {
    r' := Run(r.states + [s'], r.actions + [a]);
    forall i | 0 <= i < |r'.actions| ensures StepAt(r', i) && CarefulAt(r', i) {
      if i < |r.actions| { assert StepAt(r, i) && CarefulAt(r, i); }
    }
  }

  lemma {:induction false} FinishFrom(r: Run, q: seq<Timer>) returns (r': Run)
    requires ValidRun(r) && Inv(Last(r), q) && NotDestroying(Last(r).ts)
    ensures GoesOn(r, r') && AllOver(Last(r'))
    decreases Left(Last(r), |q|)
  {
    r' := r;
    if !AllOver(Last(r)) {
      var a, s', q' := SomeStepAdvances(Last(r), q);
      var r1 := OneMore(r, a, s');
      r' := FinishFrom(r1, q');
      GoesOnOn(r, r1, r');
    }
  }

  /** Unless the timer list is being destroyed, every run can go on, without new requests, until
      every request is over, and then every slot and every frame has been given back. */
  lemma EveryRequestCanFinish(r: Run) returns (r': Run)
    requires ValidRun(r) && NotDestroying(Last(r).ts)
    ensures GoesOn(r, r') && AllOver(Last(r'))
    ensures forall addr :: 0 <= addr < |Last(r').slots| ==> Last(r').slots[addr].free
  {
    ConsistentAt(r, |r.states| - 1);
    var q :| Inv(Last(r), q);
    r' := FinishFrom(r, q);
    forall addr | 0 <= addr < |Last(r').slots| ensures Last(r').slots[addr].free {
      FreeIffUnowned(r', |r'.states| - 1, addr);
    }
  }
}
