/** The shutdown handshake told from its history: what the word and the threads show is what
    was asked for before, and whatever is under way can be brought to an end. */
module ShutdownHistory {
  import opened Shutdown

  /** A thread asks for finalization. */
  predicate Asks(a: Action) {
    a == CallFinalize || a == FinalizeAndWait || a == FinalizeInHandler
  }

  /** The steps that set the bit. */
  predicate SetsBit(a: Action) {
    a == FinalizeAndWait || a == FinalizeInHandler || a == Gate
  }

  ghost predicate AskedBefore(r: Run, i: nat) {
    exists k :: 0 <= k < i && k < |r.what| && Asks(r.what[k])
  }

  ghost predicate SetBefore(r: Run, i: nat) {
    exists k :: 0 <= k < i && k < |r.what| && SetsBit(r.what[k])
  }

  lemma StepOf(r: Run, i: nat)
    requires ValidRun(r) && i < |r.who|
    ensures Next(r.states[i], r.who[i], r.what[i], r.states[i + 1])
    ensures AskedBefore(r, i + 1) <==> AskedBefore(r, i) || Asks(r.what[i])
    ensures SetBefore(r, i + 1) <==> SetBefore(r, i) || SetsBit(r.what[i])
  {
    if k :| 0 <= k < i + 1 && k < |r.what| && Asks(r.what[k]) {
      assert k < i ==> AskedBefore(r, i);
    }
    if k :| 0 <= k < i + 1 && k < |r.what| && SetsBit(r.what[k]) {
      assert k < i ==> SetBefore(r, i);
    }
  }

  predicate Finishing(pc: Pc) {
    pc == Finalizer || pc == Deferred || pc == Teardown
  }

  ghost predicate SomeoneFinishes(s: State) {
    exists t :: 0 <= t < |s.pcs| && Finishing(s.pcs[t])
  }

  /** Finalization is never spontaneous: when the bit is set, or a thread is in margo_finalize
      or beyond, somebody asked for it before. */
  lemma {:induction false} NeverSpontaneous(r: Run, i: nat)
    requires ValidRun(r) && i < |r.states|
    ensures Finalizing(r.states[i].word) || SomeoneFinishes(r.states[i]) ==> AskedBefore(r, i)
  {
    if i > 0 {
      NeverSpontaneous(r, i - 1);
      StepOf(r, i - 1);
      BitStep(r, i - 1);
      if r.what[i - 1] == Gate {
        assert SomeoneFinishes(r.states[i - 1]);
      } else if SomeoneFinishes(r.states[i]) {
        FinishingStep(r.states[i - 1], r.who[i - 1], r.what[i - 1], r.states[i]);
      }
    }
  }

  lemma FinishingStep(s: State, t: Tid, a: Action, s': State)
    requires Next(s, t, a, s') && SomeoneFinishes(s')
    ensures SomeoneFinishes(s) || Finalizing(s.word) || Asks(a)
  {
    var u :| 0 <= u < |s'.pcs| && Finishing(s'.pcs[u]);
    assert u != t ==> Finishing(s.pcs[u]);
  }

  /** One step changes the bit exactly as told. */
  lemma BitStep(r: Run, i: nat)
    requires ValidRun(r) && i < |r.who|
    ensures Finalizing(r.states[i + 1].word) <==> Finalizing(r.states[i].word) || SetsBit(r.what[i])
  {
    InvHolds(r, i);
    StepOf(r, i);
    AdmittedUpdate(r.states[i].pcs, r.who[i], Idle);
  }

  /** The bit is set exactly when a fetch_or was executed; counting never disturbs it. */
  lemma {:induction false} BitIffSet(r: Run, i: nat)
    requires ValidRun(r) && i < |r.states|
    ensures Finalizing(r.states[i].word) <==> SetBefore(r, i)
  {
    if i > 0 {
      BitIffSet(r, i - 1);
      StepOf(r, i - 1);
      BitStep(r, i - 1);
    }
  }

  /** A finished handler calls margo_finalize exactly when the bit was set before, and
      otherwise is done. */
  lemma RecheckIff(r: Run, i: nat)
    requires ValidRun(r) && i < |r.who| && r.what[i] == Recheck
    ensures r.who[i] < |r.states[i + 1].pcs|
    ensures r.states[i + 1].pcs[r.who[i]] == if SetBefore(r, i) then Finalizer else Idle
  {
    StepOf(r, i);
    BitIffSet(r, i);
  }

  /** margo_finalize goes on to tear down exactly when no operation is between admission and
      decrement, and otherwise leaves it to the last of them. */
  lemma GateIff(r: Run, i: nat)
    requires ValidRun(r) && i < |r.who| && r.what[i] == Gate
    ensures r.who[i] < |r.states[i + 1].pcs|
    ensures r.states[i + 1].pcs[r.who[i]] == if AdmittedThreads(r.states[i].pcs) == {} then Teardown else Deferred
  {
    StepOf(r, i);
    InvHolds(r, i);
  }

  /** A handler that calls margo_finalize never tears down itself. */
  lemma HandlerDefers(r: Run, i: nat)
    requires ValidRun(r) && i < |r.who| && r.what[i] == FinalizeInHandler
    ensures r.who[i] < |r.states[i + 1].pcs| && r.states[i + 1].pcs[r.who[i]] == Admitted
    ensures Finalizing(r.states[i + 1].word)
  {
    StepOf(r, i);
    InvHolds(r, i);
    AdmittedUpdate(r.states[i].pcs, r.who[i], Idle);
  }

  // ---- admission ------------------------------------------------------------

  /** Step k is the last step of thread t before i. */
  ghost predicate LastStepOf(r: Run, k: nat, i: nat, t: Tid) {
    && k < i <= |r.who| && r.who[k] == t
    && (forall m :: k < m < i ==> r.who[m] != t)
  }

  /** A thread that tries to be admitted holds the word as it read it at its last step. */
  lemma {:induction false} HoldsLastRead(r: Run, k: nat, i: nat, t: Tid)
    requires ValidRun(r) && i < |r.states| && LastStepOf(r, k, i, t)
    requires t < |r.states[i].pcs| && r.states[i].pcs[t].Trying?
    ensures r.what[k].LoadState? || r.what[k].TryIncr?
    ensures r.states[i].pcs[t].cur == r.states[k].word
    decreases i
  {
    StepOf(r, i - 1);
    if k < i - 1 {
      OthersStay(r.states[i - 1], r.who[i - 1], r.what[i - 1], r.states[i], t);
      HoldsLastRead(r, k, i - 1, t);
    } else {
      ReadsWord(r.states[k], t, r.what[k], r.states[i]);
    }
  }

  lemma OthersStay(s: State, t: Tid, a: Action, s': State, u: Tid)
    requires Next(s, t, a, s') && u != t
    ensures |s'.pcs| == |s.pcs| && (u < |s.pcs| ==> s'.pcs[u] == s.pcs[u])
  {
  }

  lemma ReadsWord(s: State, t: Tid, a: Action, s': State)
    requires Next(s, t, a, s') && t < |s'.pcs| && s'.pcs[t].Trying?
    ensures (a.LoadState? || a.TryIncr?) && s'.pcs[t].cur == s.word
  {
  }

  /** An attempt is refused exactly when the bit was set before the thread last read the word,
      and succeeds exactly when it was not, nobody has changed the word since, and the
      compare-and-swap does not fail spuriously; otherwise the thread tries again. */
  lemma AdmissionIff(r: Run, k: nat, i: nat)
    requires ValidRun(r) && i < |r.who| && r.what[i].TryIncr? && LastStepOf(r, k, i, r.who[i])
    ensures r.who[i] < |r.states[i + 1].pcs|
    ensures r.states[i + 1].pcs[r.who[i]] == Refused <==> SetBefore(r, k)
    ensures r.states[i + 1].pcs[r.who[i]] == Admitted <==>
              !SetBefore(r, k) && r.states[i].word == r.states[k].word && !r.what[i].spuriousFailure
    ensures r.states[i + 1].pcs[r.who[i]] in {Refused, Admitted, Trying(r.states[i].word)}
  {
    StepOf(r, i);
    HoldsLastRead(r, k, i, r.who[i]);
    BitIffSet(r, k);
  }

  // ---- completion -----------------------------------------------------------

  predicate Rests(pc: Pc) {
    pc == Idle || pc == Teardown
  }

  /** The steps that finish what is under way. */
  predicate Finishes(a: Action) {
    a == TryIncr(false) || a == Decrement || a == Recheck || a == Gate || a == Return
  }

  /** r' goes on from r with finishing steps only. */
  ghost predicate GoesOn(r: Run, r': Run) {
    && ValidRun(r) && ValidRun(r')
    && |r.states| <= |r'.states| && r'.states[..|r.states|] == r.states
    && r'.what[..|r.what|] == r.what
    && (forall k :: |r.what| <= k < |r'.what| ==> Finishes(r'.what[k]))
  }

  lemma GoesOnOn(r: Run, r1: Run, r2: Run)
    requires GoesOn(r, r1) && GoesOn(r1, r2)
    ensures GoesOn(r, r2)
  {
    assert r2.states[..|r.states|] == r2.states[..|r1.states|][..|r.states|];
    assert r2.what[..|r.what|] == r2.what[..|r1.what|][..|r.what|];
    forall k | |r.what| <= k < |r2.what| ensures Finishes(r2.what[k]) {
      if k < |r1.what| { assert r2.what[..|r1.what|][k] == r1.what[k]; }
    }
  }

  /** What thread t does next, and what this leads to. */
  function NextFinishing(pc: Pc): Action {
    if pc.Trying? then TryIncr(false)
    else if pc == Admitted then Decrement
    else if pc == Rechecking then Recheck
    else if pc == Finalizer then Gate
    else Return
  }

  /** At most so many finishing steps are left for the thread. */
  function Rank(pc: Pc, w: Word): nat {
    match pc
    case Trying(cur) => if cur == w then 5 else 6
    case Admitted => 4
    case Rechecking => 3
    case Finalizer => 2
    case Refused => 1
    case Deferred => 1
    case _ => 0
  }

  /** A thread that does not rest can always take its next step, and comes closer to rest. */
  lemma CanStep(s: State, t: Tid) returns (s': State)
    requires Inv(s) && t < |s.pcs| && !Rests(s.pcs[t])
    ensures Next(s, t, NextFinishing(s.pcs[t]), s') && |s'.pcs| == |s.pcs|
    ensures Rank(s'.pcs[t], s'.word) < Rank(s.pcs[t], s.word)
    ensures forall u :: 0 <= u < |s.pcs| && u != t ==> s'.pcs[u] == s.pcs[u]
  {
    var w := s.word;
    match s.pcs[t] {
      case Trying(cur) =>
        if Finalizing(cur) {
          s' := State(w, s.pcs[t := Refused]);
        } else if w == cur {
          s' := State((cur + 1) % 0x1_0000_0000, s.pcs[t := Admitted]);
        } else {
          s' := State(w, s.pcs[t := Trying(w)]);
        }
      case Admitted => s' := State((w + 0xFFFF_FFFF) % 0x1_0000_0000, s.pcs[t := Rechecking]);
      case Rechecking => s' := State(w, s.pcs[t := if Finalizing(w) then Finalizer else Idle]);
      case Finalizer =>
        s' := State(WithFinalizeBit(w), s.pcs[t := if Pending(w) == 0 then Teardown else Deferred]);
      case Refused => s' := State(w, s.pcs[t := Idle]);
      case Deferred => s' := State(w, s.pcs[t := Idle]);
    }
  }

  ghost function Appended(r: Run, t: Tid, a: Action, s': State): Run {
    Run(r.states + [s'], r.who + [t], r.what + [a])
  }

  lemma AppendedGoesOn(r: Run, t: Tid, a: Action, s': State)
    requires ValidRun(r) && Finishes(a) && Next(Last(r), t, a, s')
    ensures GoesOn(r, Appended(r, t, a, s'))
  {
  }

  /** Thread t is brought to rest. */
  lemma {:induction false} Settle(r: Run, t: Tid) returns (r': Run)
    requires ValidRun(r) && t < |Last(r).pcs|
    ensures GoesOn(r, r') && |Last(r').pcs| == |Last(r).pcs| && Rests(Last(r').pcs[t])
    ensures forall u :: 0 <= u < |Last(r).pcs| && u != t ==> Last(r').pcs[u] == Last(r).pcs[u]
    decreases Rank(Last(r).pcs[t], Last(r).word)
  {
    r' := r;
    if !Rests(Last(r).pcs[t]) {
      InvHolds(r, |r.states| - 1);
      var s' := CanStep(Last(r), t);
      var r1 := Appended(r, t, NextFinishing(Last(r).pcs[t]), s');
      AppendedGoesOn(r, t, NextFinishing(Last(r).pcs[t]), s');
      assert Last(r1) == s';
      r' := Settle(r1, t);
      GoesOnOn(r, r1, r');
    }
  }

  lemma {:induction false} SettleFirst(r: Run, n: nat) returns (r': Run)
    requires ValidRun(r) && n <= |Last(r).pcs|
    ensures GoesOn(r, r') && |Last(r').pcs| == |Last(r).pcs|
    ensures forall t :: 0 <= t < n ==> Rests(Last(r').pcs[t])
  {
    r' := r;
    if n > 0 {
      var r1 := SettleFirst(r, n - 1);
      r' := Settle(r1, n - 1);
      GoesOnOn(r, r1, r');
    }
  }

  /** A thread that does nothing can start any of the three calls, and a handler can call
      margo_finalize, or fail to be created. */
  lemma CanAlwaysBegin(s: State, t: Tid, a: Action) returns (s': State)
    requires Inv(s) && t < |s.pcs|
    requires || (s.pcs[t] == Idle && a in {LoadState, CallFinalize, FinalizeAndWait})
             || (s.pcs[t] == Admitted && a in {FinalizeInHandler, AbandonUlt})
    ensures Next(s, t, a, s')
  {
    var w: Word := s.word;
    match a {
      case LoadState => s' := State(w, s.pcs[t := Trying(w)]);
      case CallFinalize => s' := State(w, s.pcs[t := Finalizer]);
      case FinalizeAndWait => s' := State(WithFinalizeBit(w), s.pcs[t := Finalizer]);
      case FinalizeInHandler =>
        AdmittedUpdate(s.pcs, t, Idle);
        s' := State(WithFinalizeBit(w), s.pcs[t := Admitted]);
      case AbandonUlt => s' := State((w + 0xFFFF_FFFF) % 0x1_0000_0000, s.pcs[t := Idle]);
    }
  }

  /** No thread can get stuck: every run can go on, without a new request, to a state in which
      all threads are back or have torn down; and if finalization was asked for by setting the bit, and no ULT
      creation failed, somebody has then entered the teardown. */
  lemma EveryRunCanFinish(r: Run) returns (r': Run)
    requires ValidRun(r)
    ensures GoesOn(r, r') && forall t :: 0 <= t < |Last(r').pcs| ==> Rests(Last(r').pcs[t])
    ensures SetBefore(r, |r.what|) && (forall k :: 0 <= k < |r.what| ==> !r.what[k].AbandonUlt?) ==>
              SomeTeardown(Last(r'))
  {
    r' := SettleFirst(r, |Last(r).pcs|);
    var n := |r'.states| - 1;
    if SetBefore(r, |r.what|) && (forall k :: 0 <= k < |r.what| ==> !r.what[k].AbandonUlt?) {
      var k :| 0 <= k < |r.what| && SetsBit(r.what[k]);
      assert r'.what[..|r.what|][k] == r.what[k] && SetBefore(r', n);
      BitIffSet(r', n);
      forall m | 0 <= m < n ensures !r'.what[m].AbandonUlt? {
        if m < |r.what| { assert r'.what[..|r.what|][m] == r.what[m]; }
      }
      RequestedFinalizeHappens(r', n);
    }
  }
}
