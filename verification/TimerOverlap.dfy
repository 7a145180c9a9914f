/** Why margo_timer_cancel must not take a timer off the list while another cancel of it is
    between DL_DELETE and the clearing of the timer's links.  DL_DELETE leaves the links of
    the deleted timer in place and margo_timer_cancel clears them only after it has released
    the list mutex, so a second cancel that enters in between deletes the timer again
    through stale links.  Two such double cancels relink the timer between them, whose own
    cancel has already returned, and its callback then runs.  And a second cancel that
    enters between the two clearing stores cuts off the rest of the list. */
module TimerOverlap {
  import opened DList
  import opened TimerProtocol
  import opened TimerSafety

  /** Five timers, all with callbacks that run in the progress loop. */
  function St(l: Links, starting: seq<nat>, canceled: seq<bool>, lock: Lock, calls: seq<Call>): State {
    State(l, [false, false, false, false, false, false], [0, 0, 0, 0, 0, 0], canceled,
          starting, 0, false, false, lock, [], calls)
  }

  // the queue while timers 1 to 5 are started one after the other
  const Q0 := Links(0, [0, 0, 0, 0, 0, 0], [0, 0, 0, 0, 0, 0])
  const Q1 := Links(1, [0, 1, 0, 0, 0, 0], [0, 0, 0, 0, 0, 0])
  const Q12 := Links(1, [0, 2, 1, 0, 0, 0], [0, 2, 0, 0, 0, 0])
  const Q123 := Links(1, [0, 3, 1, 2, 0, 0], [0, 2, 3, 0, 0, 0])
  const Q1234 := Links(1, [0, 4, 1, 2, 3, 0], [0, 2, 3, 4, 0, 0])
  const Q12345 := Links(1, [0, 5, 1, 2, 3, 4], [0, 2, 3, 4, 5, 0])
  const Q1345 := Links(1, [0, 5, 1, 1, 3, 4], [0, 3, 3, 4, 5, 0])
  // timers 2 and 4 unlinked, their own links stale
  const Q135 := Links(1, [0, 5, 1, 1, 3, 3], [0, 3, 3, 5, 5, 0])
  const Q15 := Links(1, [0, 5, 1, 1, 3, 1], [0, 5, 3, 5, 5, 0])
  // timer 3 unlinked and cleared
  const Q15Half := Links(1, [0, 5, 1, 1, 3, 1], [0, 5, 3, 0, 5, 0])
  const Q15Cleared := Links(1, [0, 5, 1, 0, 3, 1], [0, 5, 3, 0, 5, 0])
  // timer 2 deleted a second time, through its stale links
  const Broken := Links(1, [0, 5, 1, 1, 3, 1], [0, 3, 3, 0, 5, 0])
  // timer 1 dispatched
  const Q35 := Links(3, [0, 0, 1, 5, 3, 3], [0, 0, 3, 5, 5, 0])
  const Q5 := Links(5, [0, 0, 1, 0, 3, 5], [0, 0, 3, 0, 5, 0])

  // timers 1 to 3: timer 2 unlinked, its next link cleared, and deleted again
  const Q13 := Links(1, [0, 3, 1, 1, 0, 0], [0, 3, 3, 0, 0, 0])
  const Q13Half := Links(1, [0, 3, 1, 1, 0, 0], [0, 3, 0, 0, 0, 0])
  const CutOff := Links(1, [0, 1, 1, 1, 0, 0], [0, 0, 0, 0, 0, 0])

  const F0 := [false, false, false, false, false, false]
  const F2 := [false, false, true, false, false, false]
  const F24 := [false, false, true, false, true, false]
  const F234 := [false, false, true, true, true, false]

  const N0: seq<nat> := [0, 0, 0, 0, 0, 0]
  const N1: seq<nat> := [0, 1, 0, 0, 0, 0]
  const N2: seq<nat> := [0, 0, 1, 0, 0, 0]
  const N3: seq<nat> := [0, 0, 0, 1, 0, 0]
  const N4: seq<nat> := [0, 0, 0, 0, 1, 0]
  const N5: seq<nat> := [0, 0, 0, 0, 0, 1]

  /** The calls of the run: two cancels of 2, two of 4, one of 3. */
  function Calls(a: CallPhase, b: CallPhase, c: CallPhase, d: CallPhase, e: CallPhase): seq<Call> {
    [Call([2], a), Call([2], b), Call([4], c), Call([4], d), Call([3], e)]
  }

  /** The states of the run: the starts, the cancels, and what they lead to. */
  function S(k: nat): State {
    if k < 10 then Starts(k) else if k < 21 then Cancels(k) else Aftermath(k)
  }

  function Starts(k: nat): State {
    if k == 0 then St(Q0, N0, F0, Free, [])
    else if k == 1 then St(Q0, N1, F0, Free, [])
    else if k == 2 then St(Q1, N0, F0, Free, [])
    else if k == 3 then St(Q1, N2, F0, Free, [])
    else if k == 4 then St(Q12, N0, F0, Free, [])
    else if k == 5 then St(Q12, N3, F0, Free, [])
    else if k == 6 then St(Q123, N0, F0, Free, [])
    else if k == 7 then St(Q123, N4, F0, Free, [])
    else if k == 8 then St(Q1234, N0, F0, Free, [])
    else St(Q1234, N5, F0, Free, [])
  }

  function Cancels(k: nat): State {
    if k == 10 then St(Q12345, N0, F0, Free, [])
    else if k == 11 then St(Q12345, N0, F2, Free, [Call([2], Marked)])
    else if k == 12 then St(Q12345, N0, F2, Free, [Call([2], Marked), Call([2], Marked)])
    else if k == 13 then St(Q12345, N0, F24, Free, [Call([2], Marked), Call([2], Marked), Call([4], Marked)])
    else if k == 14 then St(Q12345, N0, F24, Free,
             [Call([2], Marked), Call([2], Marked), Call([4], Marked), Call([4], Marked)])
    else if k == 15 then St(Q12345, N0, F234, Free, Calls(Marked, Marked, Marked, Marked, Marked))
    else if k == 16 then St(Q1345, N0, F234, Free, Calls(Unlinked, Marked, Marked, Marked, Marked))
    else if k == 17 then St(Q135, N0, F234, Free, Calls(Unlinked, Marked, Unlinked, Marked, Marked))
    else if k == 18 then St(Q15, N0, F234, Free, Calls(Unlinked, Marked, Unlinked, Marked, Unlinked))
    else if k == 19 then St(Q15Half, N0, F234, Free, Calls(Unlinked, Marked, Unlinked, Marked, NextCleared))
    else St(Q15Cleared, N0, F234, Free, Calls(Unlinked, Marked, Unlinked, Marked, Waiting(0)))
  }

  function Aftermath(k: nat): State {
    if k == 21 then St(Q15Cleared, N0, F234, Free, Calls(Unlinked, Marked, Unlinked, Marked, Resetting(0)))
    else if k == 22 then St(Q15Cleared, N0, F24, Free, Calls(Unlinked, Marked, Unlinked, Marked, Returned))
    else if k == 23 then St(Broken, N0, F24, Free, Calls(Unlinked, Unlinked, Unlinked, Marked, Returned))
    else if k == 24 then St(Q135, N0, F24, Free, Calls(Unlinked, Unlinked, Unlinked, Unlinked, Returned))
    else if k == 25 then St(Q135, N0, F24, Dispatching(false, Scanning),
             Calls(Unlinked, Unlinked, Unlinked, Unlinked, Returned))
    else if k == 26 then St(Q35, N0, F24, Dispatching(false, Popped(1)),
             Calls(Unlinked, Unlinked, Unlinked, Unlinked, Returned))
    else if k == 27 then St(Q35, N0, F24, Dispatching(false, Inline(1)),
             Calls(Unlinked, Unlinked, Unlinked, Unlinked, Returned))
    else if k == 28 then St(Q35, N0, F24, Dispatching(false, Scanning),
             Calls(Unlinked, Unlinked, Unlinked, Unlinked, Returned))
    else if k == 29 then St(Q5, N0, F24, Dispatching(false, Popped(3)),
             Calls(Unlinked, Unlinked, Unlinked, Unlinked, Returned))
    else St(Q5, N0, F24, Dispatching(false, Inline(3)),
             Calls(Unlinked, Unlinked, Unlinked, Unlinked, Returned))
  }

  /** The steps of the run. */
  function A(k: nat): Action {
    if k < 10 then StartActions(k) else if k < 21 then CancelActions(k) else AftermathActions(k)
  }

  function StartActions(k: nat): Action {
    if k == 0 then StartBegin(1)
    else if k == 1 then StartQueue(1, 0)
    else if k == 2 then StartBegin(2)
    else if k == 3 then StartQueue(2, 1)
    else if k == 4 then StartBegin(3)
    else if k == 5 then StartQueue(3, 1)
    else if k == 6 then StartBegin(4)
    else if k == 7 then StartQueue(4, 1)
    else if k == 8 then StartBegin(5)
    else StartQueue(5, 1)
  }

  function CancelActions(k: nat): Action {
    if k == 10 then CancelBegin(2)
    else if k == 11 then CancelBegin(2)
    else if k == 12 then CancelBegin(4)
    else if k == 13 then CancelBegin(4)
    else if k == 14 then CancelBegin(3)
    else if k == 15 then Unlink(0)
    else if k == 16 then Unlink(2)
    else if k == 17 then Unlink(4)
    else if k == 18 then ClearNext(4)
    else if k == 19 then ClearPrev(4)
    else WaitDone(4)
  }

  function AftermathActions(k: nat): Action {
    if k == 21 then Reset(4)
    else if k == 22 then Unlink(1)
    else if k == 23 then Unlink(3)
    else if k == 24 then CheckBegin
    else if k == 25 then Pop
    else if k == 26 then InlineBegin
    else if k == 27 then InlineEnd
    else if k == 28 then Pop
    else InlineBegin
  }

  lemma Step0()
    ensures Next(St(Q0, N0, F0, Free, []), StartBegin(1), St(Q0, N1, F0, Free, []))
  {
  }

  lemma Step1()
    ensures Next(St(Q0, N1, F0, Free, []), StartQueue(1, 0), St(Q1, N0, F0, Free, []))
  {
  }

  lemma Step2()
    ensures Next(St(Q1, N0, F0, Free, []), StartBegin(2), St(Q1, N2, F0, Free, []))
  {
  }

  lemma Step3()
    ensures Next(St(Q1, N2, F0, Free, []), StartQueue(2, 1), St(Q12, N0, F0, Free, []))
  {
  }

  lemma Step4()
    ensures Next(St(Q12, N0, F0, Free, []), StartBegin(3), St(Q12, N3, F0, Free, []))
  {
  }

  lemma Step5()
    ensures Next(St(Q12, N3, F0, Free, []), StartQueue(3, 1), St(Q123, N0, F0, Free, []))
  {
  }

  lemma Step6()
    ensures Next(St(Q123, N0, F0, Free, []), StartBegin(4), St(Q123, N4, F0, Free, []))
  {
  }

  lemma Step7()
    ensures Next(St(Q123, N4, F0, Free, []), StartQueue(4, 1), St(Q1234, N0, F0, Free, []))
  {
  }

  lemma Step8()
    ensures Next(St(Q1234, N0, F0, Free, []), StartBegin(5), St(Q1234, N5, F0, Free, []))
  {
  }

  lemma Step9()
    ensures Next(St(Q1234, N5, F0, Free, []), StartQueue(5, 1), St(Q12345, N0, F0, Free, []))
  {
  }

  lemma Step10()
    ensures Next(St(Q12345, N0, F0, Free, []), CancelBegin(2), St(Q12345, N0, F2, Free, [Call([2], Marked)]))
  {
  }

  lemma Step11()
    ensures Next(St(Q12345, N0, F2, Free, [Call([2], Marked)]),
                 CancelBegin(2),
                 St(Q12345, N0, F2, Free, [Call([2], Marked), Call([2], Marked)]))
  {
  }

  lemma Step12()
    ensures Next(St(Q12345, N0, F2, Free, [Call([2], Marked), Call([2], Marked)]),
                 CancelBegin(4),
                 St(Q12345, N0, F24, Free, [Call([2], Marked), Call([2], Marked), Call([4], Marked)]))
  {
  }

  lemma Step13()
    ensures Next(St(Q12345, N0, F24, Free, [Call([2], Marked), Call([2], Marked), Call([4], Marked)]),
                 CancelBegin(4),
                 St(Q12345, N0, F24, Free,
                          [Call([2], Marked), Call([2], Marked), Call([4], Marked), Call([4], Marked)]))
  {
  }

  lemma Step14()
    ensures Next(St(Q12345, N0, F24, Free,
                          [Call([2], Marked), Call([2], Marked), Call([4], Marked), Call([4], Marked)]),
                 CancelBegin(3),
                 St(Q12345, N0, F234, Free, Calls(Marked, Marked, Marked, Marked, Marked)))
  {
  }

  lemma Step15()
    ensures Next(St(Q12345, N0, F234, Free, Calls(Marked, Marked, Marked, Marked, Marked)),
                 Unlink(0),
                 St(Q1345, N0, F234, Free, Calls(Unlinked, Marked, Marked, Marked, Marked)))
  {
  }

  lemma Step16()
    ensures Next(St(Q1345, N0, F234, Free, Calls(Unlinked, Marked, Marked, Marked, Marked)),
                 Unlink(2),
                 St(Q135, N0, F234, Free, Calls(Unlinked, Marked, Unlinked, Marked, Marked)))
  {
  }

  lemma Step17()
    ensures Next(St(Q135, N0, F234, Free, Calls(Unlinked, Marked, Unlinked, Marked, Marked)),
                 Unlink(4),
                 St(Q15, N0, F234, Free, Calls(Unlinked, Marked, Unlinked, Marked, Unlinked)))
  {
  }

  lemma Step18()
    ensures Next(St(Q15, N0, F234, Free, Calls(Unlinked, Marked, Unlinked, Marked, Unlinked)),
                 ClearNext(4),
                 St(Q15Half, N0, F234, Free, Calls(Unlinked, Marked, Unlinked, Marked, NextCleared)))
  {
  }

  lemma Step19()
    ensures Next(St(Q15Half, N0, F234, Free, Calls(Unlinked, Marked, Unlinked, Marked, NextCleared)),
                 ClearPrev(4),
                 St(Q15Cleared, N0, F234, Free, Calls(Unlinked, Marked, Unlinked, Marked, Waiting(0))))
  {
  }

  lemma Step20()
    ensures Next(St(Q15Cleared, N0, F234, Free, Calls(Unlinked, Marked, Unlinked, Marked, Waiting(0))),
                 WaitDone(4),
                 St(Q15Cleared, N0, F234, Free, Calls(Unlinked, Marked, Unlinked, Marked, Resetting(0))))
  {
  }

  lemma Step21()
    ensures Next(St(Q15Cleared, N0, F234, Free, Calls(Unlinked, Marked, Unlinked, Marked, Resetting(0))),
                 Reset(4),
                 St(Q15Cleared, N0, F24, Free, Calls(Unlinked, Marked, Unlinked, Marked, Returned)))
  {
  }

  lemma Step22()
    ensures Next(St(Q15Cleared, N0, F24, Free, Calls(Unlinked, Marked, Unlinked, Marked, Returned)),
                 Unlink(1),
                 St(Broken, N0, F24, Free, Calls(Unlinked, Unlinked, Unlinked, Marked, Returned)))
  {
  }

  lemma Step23()
    ensures Next(St(Broken, N0, F24, Free, Calls(Unlinked, Unlinked, Unlinked, Marked, Returned)),
                 Unlink(3),
                 St(Q135, N0, F24, Free, Calls(Unlinked, Unlinked, Unlinked, Unlinked, Returned)))
  {
  }

  lemma Step24()
    ensures Next(St(Q135, N0, F24, Free, Calls(Unlinked, Unlinked, Unlinked, Unlinked, Returned)),
                 CheckBegin,
                 St(Q135, N0, F24, Dispatching(false, Scanning),
                          Calls(Unlinked, Unlinked, Unlinked, Unlinked, Returned)))
  {
  }

  lemma Step25()
    ensures Next(St(Q135, N0, F24, Dispatching(false, Scanning),
                          Calls(Unlinked, Unlinked, Unlinked, Unlinked, Returned)),
                 Pop,
                 St(Q35, N0, F24, Dispatching(false, Popped(1)),
                          Calls(Unlinked, Unlinked, Unlinked, Unlinked, Returned)))
  {
  }

  lemma Step26()
    ensures Next(St(Q35, N0, F24, Dispatching(false, Popped(1)),
                          Calls(Unlinked, Unlinked, Unlinked, Unlinked, Returned)),
                 InlineBegin,
                 St(Q35, N0, F24, Dispatching(false, Inline(1)),
                          Calls(Unlinked, Unlinked, Unlinked, Unlinked, Returned)))
  {
  }

  lemma Step27()
    ensures Next(St(Q35, N0, F24, Dispatching(false, Inline(1)),
                          Calls(Unlinked, Unlinked, Unlinked, Unlinked, Returned)),
                 InlineEnd,
                 St(Q35, N0, F24, Dispatching(false, Scanning),
                          Calls(Unlinked, Unlinked, Unlinked, Unlinked, Returned)))
  {
  }

  lemma Step28()
    ensures Next(St(Q35, N0, F24, Dispatching(false, Scanning),
                          Calls(Unlinked, Unlinked, Unlinked, Unlinked, Returned)),
                 Pop,
                 St(Q5, N0, F24, Dispatching(false, Popped(3)),
                          Calls(Unlinked, Unlinked, Unlinked, Unlinked, Returned)))
  {
  }

  lemma Step29()
    ensures Next(St(Q5, N0, F24, Dispatching(false, Popped(3)),
                          Calls(Unlinked, Unlinked, Unlinked, Unlinked, Returned)),
                 InlineBegin,
                 St(Q5, N0, F24, Dispatching(false, Inline(3)),
                          Calls(Unlinked, Unlinked, Unlinked, Unlinked, Returned)))
  {
  }

  lemma StartSteps(k: nat)
    requires 0 <= k < 10
    ensures Next(S(k), A(k), S(k + 1))
  {
    if k == 0 { Step0(); }
    else if k == 1 { Step1(); }
    else if k == 2 { Step2(); }
    else if k == 3 { Step3(); }
    else if k == 4 { Step4(); }
    else if k == 5 { Step5(); }
    else if k == 6 { Step6(); }
    else if k == 7 { Step7(); }
    else if k == 8 { Step8(); }
    else { assert k == 9; Step9(); }
  }

  lemma CancelSteps(k: nat)
    requires 10 <= k < 21
    ensures Next(S(k), A(k), S(k + 1))
  {
    if k == 10 { Step10(); }
    else if k == 11 { Step11(); }
    else if k == 12 { Step12(); }
    else if k == 13 { Step13(); }
    else if k == 14 { Step14(); }
    else if k == 15 { Step15(); }
    else if k == 16 { Step16(); }
    else if k == 17 { Step17(); }
    else if k == 18 { Step18(); }
    else if k == 19 { Step19(); }
    else { assert k == 20; Step20(); }
  }

  lemma AftermathSteps(k: nat)
    requires 21 <= k < 30
    ensures Next(S(k), A(k), S(k + 1))
  {
    if k == 21 { Step21(); }
    else if k == 22 { Step22(); }
    else if k == 23 { Step23(); }
    else if k == 24 { Step24(); }
    else if k == 25 { Step25(); }
    else if k == 26 { Step26(); }
    else if k == 27 { Step27(); }
    else if k == 28 { Step28(); }
    else { assert k == 29; Step29(); }
  }

  /** From the initial state, cancels that overlap on timers 2 and 4 make the callback of
      timer 3 run after its own, undisturbed cancel returned, with no start in between. */
  lemma OverlappingCancelsBreakSafety() returns (r: Run, i: nat)
    ensures Steps(r) && Init(r.states[0])
    ensures CancelReturns(r, i, 3)
    ensures forall k :: i < k < |r.actions| ==> !r.actions[k].StartBegin? && !r.actions[k].StartQueue?
    ensures CallbackActive(r.states[|r.states| - 1], 3)
  {
    r := Run(seq(31, (k: nat) => S(k)), seq(30, (k: nat) => A(k)));
    i := 21;
    forall k | 0 <= k < |r.actions| ensures StepAt(r, k) {
      if k < 10 { StartSteps(k); } else if k < 21 { CancelSteps(k); } else { AftermathSteps(k); }
    }
    assert r.states[0] == S(0) && r.states[21] == S(21) && r.states[22] == S(22) && r.states[30] == S(30);
    forall k | i < k < |r.actions| ensures !r.actions[k].StartBegin? && !r.actions[k].StartQueue? {
      assert r.actions[k] == AftermathActions(k);
    }
  }

  /** Timers 1 to 3 are queued as above, then timer 2 is canceled twice, the second time
      between the two stores of the first. */
  function HalfState(k: nat): State {
    if k == 6 then St(Q123, N0, F0, Free, [])
    else if k == 7 then St(Q123, N0, F2, Free, [Call([2], Marked)])
    else if k == 8 then St(Q123, N0, F2, Free, [Call([2], Marked), Call([2], Marked)])
    else if k == 9 then St(Q13, N0, F2, Free, [Call([2], Unlinked), Call([2], Marked)])
    else if k == 10 then St(Q13Half, N0, F2, Free, [Call([2], NextCleared), Call([2], Marked)])
    else St(CutOff, N0, F2, Free, [Call([2], NextCleared), Call([2], Unlinked)])
  }

  function HalfAction(k: nat): Action {
    if k == 6 then CancelBegin(2)
    else if k == 7 then CancelBegin(2)
    else if k == 8 then Unlink(0)
    else if k == 9 then ClearNext(0)
    else Unlink(1)
  }

  lemma HalfStep6()
    ensures Next(HalfState(6), CancelBegin(2), HalfState(7))
  {
  }

  lemma HalfStep7()
    ensures Next(HalfState(7), CancelBegin(2), HalfState(8))
  {
  }

  lemma HalfStep8()
    ensures Next(HalfState(8), Unlink(0), HalfState(9))
  {
  }

  lemma HalfStep9()
    ensures Next(HalfState(9), ClearNext(0), HalfState(10))
  {
  }

  lemma HalfStep10()
    ensures Next(HalfState(10), Unlink(1), HalfState(11))
  {
  }

  lemma HalfSteps(k: nat)
    requires 6 <= k < 11
    ensures Next(HalfState(k), HalfAction(k), HalfState(k + 1))
  {
    if k == 6 { HalfStep6(); }
    else if k == 7 { HalfStep7(); }
    else if k == 8 { HalfStep8(); }
    else if k == 9 { HalfStep9(); }
    else { assert k == 10; HalfStep10(); }
  }

  lemma Begins()
    ensures Init(S(0))
  {
  }

  lemma CutOffState()
    ensures var s := HalfState(11);
            Shape(s) && InRange(s, 3) && Represents(s.links, [1]) && IsLinked(s.links, 3)
  {
    assert LinkedAt(CutOff, [1], 0);
  }

  function HalfRun(): Run {
    Run(seq(12, (k: nat) => if k < 6 then S(k) else HalfState(k)),
        seq(11, (k: nat) => if k < 6 then A(k) else HalfAction(k)))
  }

  lemma HalfRunSteps()
    ensures Steps(HalfRun())
  {
    var r := HalfRun();
    forall k | 0 <= k < |r.actions| ensures StepAt(r, k) {
      if k < 6 { StartSteps(k); } else { HalfSteps(k); }
    }
  }

  /** From the initial state, a second cancel of timer 2 between the two stores of the first
      cuts off timer 3, which nobody cancels: it is no longer in the queue, so no dispatch
      finds it, and it still has a link, so it cannot be started again either. */
  lemma HalfClearedDeleteLosesTimer() returns (r: Run)
    ensures Steps(r) && Init(r.states[0])
    ensures forall k :: 0 <= k < |r.actions| && r.actions[k].CancelBegin? ==> r.actions[k].t == 2
    ensures forall k :: 0 <= k < |r.actions| ==> !r.actions[k].CancelManyBegin? && !r.actions[k].CheckBegin?
    ensures exists k :: 0 <= k < |r.actions| && r.actions[k].StartQueue? && r.actions[k].t == 3
    ensures var s := r.states[|r.states| - 1];
            Shape(s) && InRange(s, 3) && Represents(s.links, [1]) && IsLinked(s.links, 3)
  {
    r := HalfRun();
    HalfRunSteps();
    assert r.actions[5] == StartActions(5);
    forall k | 0 <= k < |r.actions|
      ensures !r.actions[k].CancelManyBegin? && !r.actions[k].CheckBegin?
      ensures r.actions[k].CancelBegin? ==> r.actions[k].t == 2
    {
      assert r.actions[k] == if k < 6 then StartActions(k) else HalfAction(k);
    }
    Begins();
    CutOffState();
  }
}
