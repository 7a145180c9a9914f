/** The life of a request told from its history: what Mercury accepted is delivered once, what
    was refused is given back by its submitter, and nothing in between gets stuck. */
module RequestHistory {
  import TP = TimerProtocol
  import TS = TimerSafety
  import opened Requests
  import opened RequestSafety

  /** The operation whose thread takes the step. */
  predicate StepOf(a: Action, o: nat) {
    match a
    case Environment(_) => false
    case Draw(_, _) => false
    case Overwrite(_, _) => false
    case _ => a.o == o
  }

  /** The next phase of an operation, by the kind it was submitted with and the timer it created,
      whatever the memory of the request says. */
  function NextPhase(op: Op, a: Action, calls: nat): Phase {
    match a
    case FailEarly(_) => Failed
    case CreateTimer(_, _) => Armed
    case StartTimer(_) => Starting
    case StartFails(_) => Failed
    case QueueTimer(_, _) => Ready
    case NoTimer(_) => Ready
    case SubmitOk(_) => InFlight
    case SubmitFails(_) => if op.timer == 0 then Failed else FailCancel(calls)
    case FailCanceled(_) => Failed
    case ReleaseFailed(_, _) => Done
    case CbBegin(_) => if op.timer == 0 then Delivering else CbCancel(calls)
    case CbCanceled(_) => Delivering
    case Deliver(_) => if op.kind == Callback then Called else EventualSet
    case Tail(_, _) => if op.kind == Callback then Done else op.phase
    case Wait(_, _) => Done
    case _ => op.phase
  }

  /** The phase in which the step can be taken; CbCancel and FailCancel stand for any call. */
  predicate InPhase(op: Op, a: Action) {
    match a
    case FailEarly(_) => op.phase == Drawn
    case CreateTimer(_, _) => op.phase == Drawn
    case StartTimer(_) => op.phase == Armed
    case StartFails(_) => op.phase == Armed
    case QueueTimer(_, _) => op.phase == Starting
    case NoTimer(_) => op.phase == Drawn
    case SubmitOk(_) => op.phase == Ready
    case SubmitFails(_) => op.phase == Ready
    case FailCanceled(_) => op.phase.FailCancel?
    case ReleaseFailed(_, _) => op.phase == Failed
    case CbBegin(_) => op.phase == InFlight
    case CbCanceled(_) => op.phase.CbCancel?
    case Deliver(_) => op.phase == Delivering
    case Tail(_, _) => op.tail
    case Wait(_, _) => op.phase == EventualSet
    case _ => false
  }

  lemma OthersStay(s: State, a: Action, s': State, o: nat)
    requires Next(s, a, s') && o < |s.ops| && !StepOf(a, o)
    ensures o < |s'.ops| && s'.ops[o] == s.ops[o]
  {
  }

  ghost predicate MovesOn(s: State, a: Action, s': State, o: nat) {
    && o < |s.ops| && o < |s'.ops| && InPhase(s.ops[o], a)
    && s'.ops[o].phase == NextPhase(s.ops[o], a, |s.ts.calls|)
    && s'.ops[o].kind == s.ops[o].kind && s'.ops[o].addr == s.ops[o].addr
    && s'.ops[o].timer == (if a.CreateTimer? then a.t else s.ops[o].timer)
    && s'.ops[o].tail == (if a.Deliver? then true else if a.Tail? then false else s.ops[o].tail)
  }

  lemma PrivateMoves(s: State, q: seq<Timer>, a: Action, s': State, o: nat)
    requires Inv(s, q) && PrivateStep(s, a, s') && StepOf(a, o)
    ensures MovesOn(s, a, s', o)
  {
    assert OpOk(s, q, o);
  }

  lemma TimerMoves(s: State, q: seq<Timer>, a: Action, s': State, o: nat)
    requires Inv(s, q) && Next(s, a, s') && StepOf(a, o)
    requires a.CreateTimer? || a.StartTimer? || a.QueueTimer? || CancelTimerStep(s, a, s')
    ensures MovesOn(s, a, s', o)
  {
    assert OpOk(s, q, o);
  }

  lemma ReleaseMoves(s: State, q: seq<Timer>, a: Action, s': State, o: nat)
    requires Inv(s, q) && Next(s, a, s') && StepOf(a, o) && (a.ReleaseFailed? || a.Wait? || a.Tail?)
    ensures MovesOn(s, a, s', o)
  {
    assert OpOk(s, q, o);
  }

  /** Every step takes its own operation along its life, and leaves the others where they are. */
  lemma LifeCycle(r: Run, i: nat, o: nat)
    requires ValidRun(r) && i < |r.actions| && o < |r.states[i].ops|
    ensures o < |r.states[i + 1].ops|
    ensures if StepOf(r.actions[i], o) then MovesOn(r.states[i], r.actions[i], r.states[i + 1], o)
            else r.states[i + 1].ops[o] == r.states[i].ops[o]
  {
    var s, a, s' := r.states[i], r.actions[i], r.states[i + 1];
    assert StepAt(r, i);
    ConsistentAt(r, i);
    var q :| Inv(s, q);
    if !StepOf(a, o) {
      OthersStay(s, a, s', o);
    } else if a.ReleaseFailed? || a.Wait? || a.Tail? {
      ReleaseMoves(s, q, a, s', o);
    } else if a.CreateTimer? || a.StartTimer? || a.QueueTimer? || CancelTimerStep(s, a, s') {
      TimerMoves(s, q, a, s', o);
    } else {
      PrivateMoves(s, q, a, s', o);
    }
  }

  /** A new operation begins as drawn, with the kind asked for. */
  lemma Begins(r: Run, i: nat)
    requires ValidRun(r) && i < |r.actions|
    ensures if r.actions[i].Draw?
            then r.states[i + 1].ops == r.states[i].ops + [Op(r.actions[i].addr, r.actions[i].kind, 0, Drawn, false)]
            else |r.states[i + 1].ops| == |r.states[i].ops|
  {
    assert StepAt(r, i);
  }

  /** Giving a request back makes its slot free and counts it; the free list's link overwrites the
      timer of an arena slot, while a stack frame keeps what it held. */
  lemma GivesBack(s: State, a: Action, s': State)
    requires Next(s, a, s') && (a.ReleaseFailed? || a.Wait?)
    ensures a.o < |s.ops| && s.ops[a.o].addr < |s.slots| == |s'.slots|
    ensures var addr := s.ops[a.o].addr;
            var slot, slot' := s.slots[addr], s'.slots[addr];
            && slot'.free && slot'.releases == slot.releases + 1 && slot'.gets == slot.gets
            && slot'.mem == (if slot.stack then slot.mem else Memory(a.link, slot.mem.kind))
            && forall x :: 0 <= x < |s.slots| && x != addr ==> s'.slots[x] == s.slots[x]
  {
  }

  // ---- what happened before -------------------------------------------------

  datatype Event = SubmissionAccepted | SubmissionFailed | Delivered | Tested | Awaited | GivenBack

  predicate Is(a: Action, o: nat, e: Event) {
    match e
    case SubmissionAccepted => a == SubmitOk(o)
    case SubmissionFailed => a == FailEarly(o) || a == StartFails(o) || a == SubmitFails(o)
    case Delivered => a == Deliver(o)
    case Tested => a.Tail? && a.o == o
    case Awaited => a.Wait? && a.o == o
    case GivenBack => a.ReleaseFailed? && a.o == o
  }

  /** It happened in the first i steps. */
  ghost predicate Did(r: Run, i: nat, o: nat, e: Event) {
    exists k :: 0 <= k < i && k < |r.actions| && Is(r.actions[k], o, e)
  }

  lemma DidStep(r: Run, i: nat, o: nat, e: Event)
    requires i < |r.actions|
    ensures Did(r, i + 1, o, e) <==> Did(r, i, o, e) || Is(r.actions[i], o, e)
  {
    if k :| 0 <= k < i + 1 && k < |r.actions| && Is(r.actions[k], o, e) {
      assert k < i ==> Did(r, i, o, e);
    }
    if k :| 0 <= k < i && k < |r.actions| && Is(r.actions[k], o, e) {
      assert k < i + 1;
    }
  }

  /** The phases of an operation that Mercury has accepted. */
  predicate Accepted(op: Op) {
    op.phase.InFlight? || op.phase.CbCancel? || op.phase.Delivering? || op.phase.Called? || op.phase.EventualSet?
  }

  /** The phases of an operation that failed. */
  predicate Refused(op: Op) {
    op.phase.FailCancel? || op.phase.Failed?
  }

  /** What the phase of an operation says about its past. */
  predicate PastFits(op: Op, accepted: bool, failed: bool, delivered: bool, tested: bool, awaited: bool,
      givenBack: bool) {
    && (accepted <==> Accepted(op) || (op.phase == Done && !failed))
    && (failed <==> Refused(op) || (op.phase == Done && givenBack))
    && (givenBack ==> op.phase == Done)
    && (delivered <==> op.phase.Called? || op.phase.EventualSet? || (op.phase == Done && !failed))
    && (awaited <==> op.phase == Done && !failed && op.kind == Eventual)
    && (tested <==> delivered && !op.tail) && (op.tail ==> delivered)
    && (op.kind == Callback && op.phase == Done && !failed ==> tested)
  }

  ghost predicate PastOk(r: Run, i: nat, o: nat, op: Op) {
    PastFits(op, Did(r, i, o, SubmissionAccepted), Did(r, i, o, SubmissionFailed), Did(r, i, o, Delivered),
             Did(r, i, o, Tested), Did(r, i, o, Awaited), Did(r, i, o, GivenBack))
  }

  /** One step of its own takes the operation and its past along. */
  lemma PastMoves(op: Op, a: Action, o: nat, calls: nat, op': Op, accepted: bool, failed: bool, delivered: bool,
                  tested: bool, awaited: bool, givenBack: bool)
    requires PastFits(op, accepted, failed, delivered, tested, awaited, givenBack) && KindFits(op)
    requires InPhase(op, a) && StepOf(a, o) && op'.phase == NextPhase(op, a, calls) && op'.kind == op.kind
    requires op'.tail == (if a.Deliver? then true else if a.Tail? then false else op.tail)
    ensures PastFits(op', accepted || Is(a, o, SubmissionAccepted), failed || Is(a, o, SubmissionFailed),
                     delivered || Is(a, o, Delivered), tested || Is(a, o, Tested), awaited || Is(a, o, Awaited),
                     givenBack || Is(a, o, GivenBack))
  {
  }

  lemma PastStep(r: Run, i: nat, o: nat)
    requires ValidRun(r) && i < |r.actions| && o < |r.states[i].ops| && PastOk(r, i, o, r.states[i].ops[o])
    ensures o < |r.states[i + 1].ops| && PastOk(r, i + 1, o, r.states[i + 1].ops[o])
  {
    var s, a := r.states[i], r.actions[i];
    LifeCycle(r, i, o);
    KindsFit(r, i, o);
    DidSteps(r, i, o);
    if StepOf(a, o) {
      PastMoves(s.ops[o], a, o, |s.ts.calls|, r.states[i + 1].ops[o], Did(r, i, o, SubmissionAccepted),
                Did(r, i, o, SubmissionFailed), Did(r, i, o, Delivered), Did(r, i, o, Tested), Did(r, i, o, Awaited),
                Did(r, i, o, GivenBack));
    }
  }

  lemma DidSteps(r: Run, i: nat, o: nat)
    requires i < |r.actions|
    ensures forall e: Event :: Did(r, i + 1, o, e) <==> Did(r, i, o, e) || Is(r.actions[i], o, e)
    ensures !StepOf(r.actions[i], o) ==> forall e: Event :: !Is(r.actions[i], o, e)
  {
    forall e: Event ensures Did(r, i + 1, o, e) <==> Did(r, i, o, e) || Is(r.actions[i], o, e) {
      DidStep(r, i, o, e);
    }
  }

  predicate KindFits(op: Op) {
    && (op.phase == Called ==> op.kind == Callback && op.tail)
    && (op.phase == EventualSet ==> op.kind == Eventual)
    && (op.tail ==> op.phase == Called || (op.kind == Eventual && (op.phase == EventualSet || op.phase == Done)))
  }

  /** What phase, kind and tail have to do with each other. */
  lemma KindsFit(r: Run, i: nat, o: nat)
    requires ValidRun(r) && i < |r.states| && o < |r.states[i].ops|
    ensures KindFits(r.states[i].ops[o])
  {
    ConsistentAt(r, i);
    var q :| Inv(r.states[i], q);
    assert OpOk(r.states[i], q, o);
  }

  /** Operations are only added. */
  lemma {:induction false} FewerOps(r: Run, k: nat, i: nat)
    requires ValidRun(r) && k <= i < |r.states|
    ensures |r.states[k].ops| <= |r.states[i].ops|
    decreases i
  {
    if k < i {
      FewerOps(r, k, i - 1);
      Begins(r, i - 1);
    }
  }

  lemma StepsOnOps(s: State, a: Action, s': State, o: nat)
    requires Next(s, a, s') && StepOf(a, o)
    ensures o < |s.ops|
  {
  }

  lemma NothingBefore(r: Run, i: nat, o: nat, e: Event)
    requires ValidRun(r) && i < |r.states| && o >= |r.states[i].ops|
    ensures !Did(r, i, o, e)
  {
    forall k | 0 <= k < i && k < |r.actions| ensures !Is(r.actions[k], o, e) {
      FewerOps(r, k, i);
      assert StepAt(r, k);
      if StepOf(r.actions[k], o) { StepsOnOps(r.states[k], r.actions[k], r.states[k + 1], o); }
    }
  }

  lemma BornOk(r: Run, i: nat, o: nat)
    requires ValidRun(r) && i < |r.actions| && |r.states[i].ops| <= o < |r.states[i + 1].ops|
    ensures PastOk(r, i + 1, o, r.states[i + 1].ops[o])
  {
    Begins(r, i);
    NothingBefore(r, i, o, SubmissionAccepted);
    NothingBefore(r, i, o, SubmissionFailed);
    NothingBefore(r, i, o, Delivered);
    NothingBefore(r, i, o, Tested);
    NothingBefore(r, i, o, Awaited);
    NothingBefore(r, i, o, GivenBack);
    DidSteps(r, i, o);
  }

  /** The whole past of every request: it is in flight, or being delivered, exactly after Mercury
      accepted it; it has failed exactly after its submission failed, and is then given back by
      its submitter and nobody else; it is delivered exactly if it was accepted and got that
      far; and a delivered request is released by the waiter if it is of the eventual kind, and
      by margo_cb if it is of the callback kind. */
  lemma {:induction false} LifeStory(r: Run, i: nat, o: nat)
    requires ValidRun(r) && i < |r.states| && o < |r.states[i].ops|
    ensures PastOk(r, i, o, r.states[i].ops[o])
  {
    if i > 0 {
      Begins(r, i - 1);
      if o < |r.states[i - 1].ops| {
        LifeStory(r, i - 1, o);
        PastStep(r, i - 1, o);
      } else {
        BornOk(r, i - 1, o);
      }
    }
  }

  /** Each of these happens at most once to a request. */
  lemma AtMostOnce(r: Run, i: nat, j: nat, o: nat, e: Event)
    requires ValidRun(r) && i < j < |r.actions| && Is(r.actions[i], o, e)
    ensures !Is(r.actions[j], o, e)
  {
    assert Did(r, j, o, e);
    assert StepAt(r, j);
    if Is(r.actions[j], o, e) {
      StepsOnOps(r.states[j], r.actions[j], r.states[j + 1], o);
      LifeStory(r, j, o);
      KindsFit(r, j, o);
      LifeCycle(r, j, o);
      DoneOnce(r.states[j].ops[o], r.actions[j], o, e, Did(r, j, o, SubmissionAccepted), Did(r, j, o, SubmissionFailed),
               Did(r, j, o, Delivered), Did(r, j, o, Tested), Did(r, j, o, Awaited), Did(r, j, o, GivenBack));
    }
  }

  /** In the phase in which it can happen it has not happened yet. */
  lemma DoneOnce(op: Op, a: Action, o: nat, e: Event, accepted: bool, failed: bool, delivered: bool,
                 tested: bool, awaited: bool, givenBack: bool)
    requires PastFits(op, accepted, failed, delivered, tested, awaited, givenBack) && KindFits(op)
    requires InPhase(op, a) && Is(a, o, e)
    ensures match e
            case SubmissionAccepted => !accepted
            case SubmissionFailed => !failed
            case Delivered => !delivered
            case Tested => !tested
            case Awaited => !awaited
            case GivenBack => !givenBack
  {
  }

  /** A failed submission is never delivered, and an accepted one never given back as failed. */
  lemma NeverBoth(r: Run, i: nat, o: nat)
    requires ValidRun(r) && i < |r.states|
    ensures !(Did(r, i, o, SubmissionFailed) && Did(r, i, o, SubmissionAccepted))
    ensures Did(r, i, o, Delivered) || Did(r, i, o, Awaited) || Did(r, i, o, Tested) ==>
            Did(r, i, o, SubmissionAccepted)
    ensures Did(r, i, o, GivenBack) ==> Did(r, i, o, SubmissionFailed)
  {
    if o < |r.states[i].ops| {
      LifeStory(r, i, o);
    } else {
      NothingBefore(r, i, o, SubmissionFailed);
      NothingBefore(r, i, o, Delivered);
      NothingBefore(r, i, o, Awaited);
      NothingBefore(r, i, o, Tested);
      NothingBefore(r, i, o, GivenBack);
    }
  }
}
