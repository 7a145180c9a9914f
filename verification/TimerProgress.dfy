/** Whatever is under way in the timer protocol can be brought to an end: no cancel, no ULT and
    no destruction of the list can get stuck. */
module TimerProgress {
  import opened Common
  import opened DList
  import opened TimerProtocol
  import opened TimerSafety
  import opened TimerHistory

  // ---- how much is left to do -----------------------------------------------

  function UltRank(u: Ult): nat {
    match u.phase
    case Created => 4
    case Running => 3
    case Finishing => 2
    case Leaving => 1
    case Gone => 0
  }

  function CallRank(call: Call): nat {
    var n := |call.timers|;
    match call.phase
    case Marked => 2 * n + 3
    case Unlinked => 2 * n + 2
    case NextCleared => 2 * n + 1
    case PrevCleared => 2 * n + 1
    case Entering => 3 * n + 2
    case Processing(i) => if i <= n then 3 * n + 1 - i else 0
    case Waiting(i) => if i < n then 2 * (n - i) else 0
    case Resetting(i) => if i < n then 2 * (n - i) - 1 else 0
    case Returned => 0
  }

  function HoldRank(hold: Hold): nat {
    match hold
    case Scanning => 1
    case Inline(_) => 2
    case Counted(_) => 6
    case Popped(_) => 7
  }

  function LockRank(lock: Lock, n: nat): nat {
    if lock.Dispatching? then HoldRank(lock.hold) + (if lock.draining then 8 * n else 0) else 0
  }

  function UltRanks(ults: seq<Ult>): nat {
    if ults == [] then 0 else UltRanks(ults[..|ults| - 1]) + UltRank(ults[|ults| - 1])
  }

  function CallRanks(calls: seq<Call>): nat {
    if calls == [] then 0 else CallRanks(calls[..|calls| - 1]) + CallRank(calls[|calls| - 1])
  }

  function Sum(s: seq<nat>): nat {
    if s == [] then 0 else Sum(s[..|s| - 1]) + s[|s| - 1]
  }

  lemma {:induction false} UltRanksUpdate(ults: seq<Ult>, k: nat, u: Ult)
    requires k < |ults|
    ensures UltRanks(ults[k := u]) == UltRanks(ults) - UltRank(ults[k]) + UltRank(u)
  {
    var n := |ults| - 1;
    if k == n {
      assert ults[k := u][..n] == ults[..n];
    } else {
      UltRanksUpdate(ults[..n], k, u);
      assert ults[k := u][..n] == ults[..n][k := u];
    }
  }

  lemma {:induction false} CallRanksUpdate(calls: seq<Call>, k: nat, call: Call)
    requires k < |calls|
    ensures CallRanks(calls[k := call]) == CallRanks(calls) - CallRank(calls[k]) + CallRank(call)
  {
    var n := |calls| - 1;
    if k == n {
      assert calls[k := call][..n] == calls[..n];
    } else {
      CallRanksUpdate(calls[..n], k, call);
      assert calls[k := call][..n] == calls[..n][k := call];
    }
  }

  lemma {:induction false} SumUpdate(s: seq<nat>, k: nat, x: nat)
    requires k < |s|
    ensures Sum(s[k := x]) == Sum(s) - s[k] + x
  {
    var n := |s| - 1;
    if k == n {
      assert s[k := x][..n] == s[..n];
    } else {
      SumUpdate(s[..n], k, x);
      assert s[k := x][..n] == s[..n][k := x];
    }
  }

  /** The steps left, at most, with n timers in the queue. */
  function Left(s: State, n: nat): nat {
    UltRanks(s.ults) + CallRanks(s.calls) + LockRank(s.lock, n) + Sum(s.starting)
  }

  // ---- the next helpful step ------------------------------------------------

  /** No new start, no new call, and no new round of the dispatcher. */
  predicate Helpful(a: Action) {
    !a.StartBegin? && !a.CancelBegin? && !a.CancelManyBegin? && !a.CheckBegin? && !a.FreeBegin? && !a.FreeWake?
  }

  predicate Draining(s: State) {
    s.lock.Dispatching? && s.lock.draining
  }

  /** The step is possible, brings the end closer, and destroys the list only when draining it. */
  ghost predicate Advances(s: State, q: seq<Timer>, a: Action, s': State) {
    && Next(s, a, s') && Exclusive(s, a) && Helpful(a)
    && (Draining(s') ==> Draining(s)) && (s'.lock == Destroyed ==> Draining(s) || s.lock == Destroyed)
    && Left(s', if a.Pop? && q != [] then |q| - 1 else |q|) < Left(s, |q|)
  }

  /** A call takes a step towards its return. */
  lemma CallCloser(s: State, c: nat, call: Call, s': State, n: nat)
    requires c < |s.calls| && s'.calls == s.calls[c := call] && CallRank(call) < CallRank(s.calls[c])
    requires s'.ults == s.ults && s'.starting == s.starting
    requires s'.lock == s.lock || (!s.lock.Dispatching? && !s'.lock.Dispatching?)
    ensures Left(s', n) < Left(s, n)
  {
    CallRanksUpdate(s.calls, c, call);
  }

  lemma ClearNextAdvances(s: State, q: seq<Timer>, c: nat) returns (a: Action, s': State)
    requires Inv(s, q) && c < |s.calls| && (s.calls[c].phase.Unlinked? || s.calls[c].phase.PrevCleared?)
    ensures Advances(s, q, a, s')
  {
    var p := if s.calls[c].phase.Unlinked? then NextCleared else Waiting(0);
    a, s' := ClearNext(c), SetPhase(s, c, p).(links := SetNext(s.links, s.calls[c].timers[0], 0));
    CallCloser(s, c, s.calls[c].(phase := p), s', |q|);
  }

  lemma ClearPrevAdvances(s: State, q: seq<Timer>, c: nat) returns (a: Action, s': State)
    requires Inv(s, q) && c < |s.calls| && s.calls[c].phase.NextCleared?
    ensures Advances(s, q, a, s')
  {
    a, s' := ClearPrev(c), SetPhase(s, c, Waiting(0)).(links := SetPrev(s.links, s.calls[c].timers[0], 0));
    CallCloser(s, c, s.calls[c].(phase := Waiting(0)), s', |q|);
  }

  lemma PoppedAdvances(s: State, q: seq<Timer>) returns (a: Action, s': State)
    requires Inv(s, q) && s.lock.Dispatching? && s.lock.hold.Popped?
    ensures Advances(s, q, a, s')
  {
    var t := s.lock.hold.t;
    if s.pool[t] {
      a, s' := CountTimer, Holding(s.(pending := s.pending[t := s.pending[t] + 1]), Counted(t));
    } else {
      a, s' := InlineBegin, Holding(s, Inline(t));
    }
  }

  lemma HandedAdvances(s: State, q: seq<Timer>) returns (a: Action, s': State)
    requires Inv(s, q) && s.lock.Dispatching? && (s.lock.hold.Inline? || s.lock.hold.Counted?)
    ensures Advances(s, q, a, s')
  {
    if s.lock.hold.Inline? {
      a, s' := InlineEnd, Holding(s, Scanning);
    } else {
      a := Spawn;
      s' := Holding(s.(listPending := s.listPending + 1, ults := s.ults + [Ult(s.lock.hold.t, Created)]), Scanning);
      assert s'.ults[..|s.ults|] == s.ults;
    }
  }

  lemma ScanAdvances(s: State, q: seq<Timer>) returns (a: Action, s': State)
    requires Inv(s, q) && Scans(s)
    ensures Advances(s, q, a, s')
  {
    if !s.lock.draining {
      a, s' := CheckEnd, s.(lock := Free);
    } else if s.links.head == 0 {
      a, s' := DrainEnd, if s.listPending == 0 then s.(lock := Destroyed) else s.(lock := Free, freeWaiting := true);
    } else {
      DereferencesDefined(s, q, s.links.head);
      assert q != [];
      a := Pop;
      s' := Holding(s.(links := Clear(Delete(s.links, s.links.head), s.links.head)), Popped(s.links.head));
    }
  }

  /** A ULT takes a step towards its end. */
  lemma UltCloser(s: State, u: nat, v: Ult, s': State, n: nat)
    requires u < |s.ults| && s'.ults == s.ults[u := v] && UltRank(v) < UltRank(s.ults[u])
    requires s'.calls == s.calls && s'.starting == s.starting && s'.lock == s.lock
    ensures Left(s', n) < Left(s, n)
  {
    UltRanksUpdate(s.ults, u, v);
  }

  lemma RunningAdvances(s: State, q: seq<Timer>, u: nat) returns (a: Action, s': State)
    requires Inv(s, q) && u < |s.ults| && (s.ults[u].phase == Created || s.ults[u].phase == Running)
    ensures Advances(s, q, a, s')
  {
    if s.ults[u].phase == Created {
      a, s' := UltStart(u), SetUlt(s, u, if s.canceled[s.ults[u].timer] then Finishing else Running);
    } else {
      a, s' := UltCallbackEnd(u), SetUlt(s, u, Finishing);
    }
    UltCloser(s, u, s'.ults[u], s', |q|);
  }

  lemma FinishingAdvances(s: State, q: seq<Timer>, u: nat) returns (a: Action, s': State)
    requires Inv(s, q) && u < |s.ults| && s.ults[u].phase == Finishing
    ensures Advances(s, q, a, s')
  {
    var t := s.ults[u].timer;
    CountBelow(s.ults, u);
    assert TimerOk(s, q, t);
    a, s' := UltDecrement(u), SetUlt(s, u, Leaving).(pending := s.pending[t := s.pending[t] - 1]);
    UltCloser(s, u, s'.ults[u], s', |q|);
  }

  lemma LeavingAdvances(s: State, q: seq<Timer>, u: nat) returns (a: Action, s': State)
    requires Inv(s, q) && s.lock == Free && u < |s.ults| && s.ults[u].phase == Leaving
    ensures Advances(s, q, a, s')
  {
    CountBelow(s.ults, u);
    a, s' := UltLeave(u), SetUlt(s, u, Gone).(listPending := s.listPending - 1);
    UltCloser(s, u, s'.ults[u], s', |q|);
  }

  ghost predicate NothingToClear(s: State) {
    forall c :: 0 <= c < |s.calls| ==>
      !s.calls[c].phase.Unlinked? && !s.calls[c].phase.NextCleared? && !s.calls[c].phase.PrevCleared?
  }

  lemma UnlinkPossible(s: State, q: seq<Timer>, t: Timer)
    requires Inv(s, q) && NothingToClear(s) && InRange(s, t)
    ensures !Stale(s, t) && UnlinkDefined(s.links, t)
  {
    DereferencesDefined(s, q, t);
  }

  lemma UnlockAdvances(s: State, q: seq<Timer>, c: nat) returns (a: Action, s': State)
    requires Inv(s, q) && s.lock == HeldByCall(c) && c < |s.calls| &&
             s.calls[c].phase == Processing(|s.calls[c].timers|)
    ensures Advances(s, q, a, s')
  {
    a, s' := ManyUnlock(c), SetPhase(s, c, Waiting(0)).(lock := Free);
    CallCloser(s, c, s'.calls[c], s', |q|);
  }

  lemma ManyOneAdvances(s: State, q: seq<Timer>, c: nat, i: nat) returns (a: Action, s': State)
    requires Inv(s, q) && s.lock == HeldByCall(c) && c < |s.calls| && NothingToClear(s)
    requires s.calls[c].phase == Processing(i) && i < |s.calls[c].timers|
    ensures Advances(s, q, a, s')
  {
    a := ManyOne(c);
    s' := ManyOnePossible(s, q, c, i);
    CallCloser(s, c, s'.calls[c], s', |q|);
  }

  lemma ManyOnePossible(s: State, q: seq<Timer>, c: nat, i: nat) returns (s': State)
    requires Inv(s, q) && s.lock == HeldByCall(c) && c < |s.calls| && NothingToClear(s)
    requires s.calls[c].phase == Processing(i) && i < |s.calls[c].timers|
    ensures ManyOneStep(s, c, s') && !Stale(s, s.calls[c].timers[i])
  {
    var t := s.calls[c].timers[i];
    UnlinkPossible(s, q, t);
    s' := SetPhase(s, c, Processing(i + 1)).(
            links := Clear(UnlinkIfLinked(s.links, t), t), canceled := s.canceled[t := true]);
  }

  ghost predicate UltsGone(s: State) {
    forall u :: 0 <= u < |s.ults| ==> s.ults[u].phase == Gone
  }

  lemma {:induction false} NoneUnfinished(ults: seq<Ult>, t: Timer)
    requires forall u :: 0 <= u < |ults| ==> ults[u].phase == Gone
    ensures Unfinished(ults, t) == 0
  {
    if ults != [] {
      NoneUnfinished(ults[..|ults| - 1], t);
    }
  }

  lemma MarkedAdvances(s: State, q: seq<Timer>, c: nat) returns (a: Action, s': State)
    requires Inv(s, q) && s.lock == Free && NothingToClear(s) && c < |s.calls| && s.calls[c].phase.Marked?
    ensures Advances(s, q, a, s')
  {
    a := Unlink(c);
    s' := MarkedPossible(s, q, c);
    CallCloser(s, c, s'.calls[c], s', |q|);
  }

  lemma MarkedPossible(s: State, q: seq<Timer>, c: nat) returns (s': State)
    requires Inv(s, q) && s.lock == Free && NothingToClear(s) && c < |s.calls| && s.calls[c].phase.Marked?
    ensures UnlinkStep(s, c, s') && !Stale(s, s.calls[c].timers[0])
  {
    var t := s.calls[c].timers[0];
    UnlinkPossible(s, q, t);
    s' := SetPhase(s, c, Unlinked).(links := UnlinkIfLinked(s.links, t));
  }

  lemma EnteringAdvances(s: State, q: seq<Timer>, c: nat) returns (a: Action, s': State)
    requires Inv(s, q) && s.lock == Free && c < |s.calls| && s.calls[c].phase.Entering?
    ensures Advances(s, q, a, s')
  {
    a, s' := ManyLock(c), SetPhase(s, c, Processing(0)).(lock := HeldByCall(c));
    CallCloser(s, c, s'.calls[c], s', |q|);
  }

  lemma WaitingAdvances(s: State, q: seq<Timer>, c: nat, i: nat) returns (a: Action, s': State)
    requires Inv(s, q) && s.lock == Free && UltsGone(s) && c < |s.calls| && s.calls[c].phase == Waiting(i)
    ensures Advances(s, q, a, s')
  {
    NothingPending(s, q, s.calls[c].timers[i]);
    a, s' := WaitDone(c), SetPhase(s, c, Resetting(i));
    CallCloser(s, c, s'.calls[c], s', |q|);
  }

  lemma NothingPending(s: State, q: seq<Timer>, t: Timer)
    requires Inv(s, q) && s.lock == Free && UltsGone(s) && InRange(s, t)
    ensures s.pending[t] == 0
  {
    assert TimerOk(s, q, t);
    NoneUnfinished(s.ults, t);
  }

  lemma ResettingAdvances(s: State, q: seq<Timer>, c: nat, i: nat) returns (a: Action, s': State)
    requires Inv(s, q) && c < |s.calls| && s.calls[c].phase == Resetting(i)
    ensures Advances(s, q, a, s')
  {
    var call := s.calls[c];
    a, s' := Reset(c), SetPhase(s, c, AfterReset(call, i)).(canceled := s.canceled[call.timers[i] := false]);
    CallCloser(s, c, s'.calls[c], s', |q|);
  }

  lemma StartAdvances(s: State, q: seq<Timer>, t: Timer) returns (a: Action, s': State)
    requires Inv(s, q) && s.lock == Free && InRange(s, t) && s.starting[t] > 0
    ensures Advances(s, q, a, s') && a == StartQueue(t, 0)
  {
    a := StartQueue(t, 0);
    s' := s.(links := if s.links.head == 0 then Append(s.links, t) else Prepend(s.links, t),
             starting := s.starting[t := s.starting[t] - 1]);
    SumUpdate(s.starting, t, s.starting[t] - 1);
  }

  // ---- to the end -----------------------------------------------------------

  /** Nothing is under way: all calls have returned, all ULTs are gone, nobody holds the list
      mutex, and no start waits for it. */
  ghost predicate AllDone(s: State) {
    && s.lock == Free && UltsGone(s)
    && (forall c :: 0 <= c < |s.calls| ==> s.calls[c].phase == Returned)
    && (forall t: Timer :: InRange(s, t) && t < |s.starting| ==> s.starting[t] == 0)
  }

  lemma LockAdvances(s: State, q: seq<Timer>) returns (a: Action, s': State)
    requires Inv(s, q) && NothingToClear(s) && s.lock != Free && s.lock != Destroyed
    ensures Advances(s, q, a, s')
  {
    if s.lock.HeldByCall? {
      var c := s.lock.c;
      assert s.calls[c].phase.Processing?;
      if s.calls[c].phase.i == |s.calls[c].timers| {
        a, s' := UnlockAdvances(s, q, c);
      } else {
        a, s' := ManyOneAdvances(s, q, c, s.calls[c].phase.i);
      }
    } else if s.lock.hold.Scanning? {
      a, s' := ScanAdvances(s, q);
    } else if s.lock.hold.Popped? {
      a, s' := PoppedAdvances(s, q);
    } else {
      a, s' := HandedAdvances(s, q);
    }
  }

  lemma UltAdvances(s: State, q: seq<Timer>, u: nat) returns (a: Action, s': State)
    requires Inv(s, q) && s.lock == Free && u < |s.ults| && s.ults[u].phase != Gone
    ensures Advances(s, q, a, s')
  {
    if s.ults[u].phase == Leaving {
      a, s' := LeavingAdvances(s, q, u);
    } else if s.ults[u].phase == Finishing {
      a, s' := FinishingAdvances(s, q, u);
    } else {
      a, s' := RunningAdvances(s, q, u);
    }
  }

  lemma CallAdvances(s: State, q: seq<Timer>, c: nat) returns (a: Action, s': State)
    requires Inv(s, q) && s.lock == Free && NothingToClear(s) && UltsGone(s) && c < |s.calls| && InProgress(s.calls[c])
    ensures Advances(s, q, a, s')
  {
    match s.calls[c].phase {
      case Waiting(i) => a, s' := WaitingAdvances(s, q, c, i);
      case Resetting(i) => a, s' := ResettingAdvances(s, q, c, i);
      case Marked => a, s' := MarkedAdvances(s, q, c);
      case Entering => a, s' := EnteringAdvances(s, q, c);
    }
  }

  /** Unless all is done or the list is destroyed, some step brings the end closer. */
  lemma SomeStepAdvances(s: State, q: seq<Timer>) returns (a: Action, s': State)
    requires Inv(s, q) && !AllDone(s) && s.lock != Destroyed
    ensures Advances(s, q, a, s')
  {
    if !NothingToClear(s) {
      var c :| 0 <= c < |s.calls|
            && (s.calls[c].phase.Unlinked? || s.calls[c].phase.NextCleared? || s.calls[c].phase.PrevCleared?);
      if s.calls[c].phase.NextCleared? {
        a, s' := ClearPrevAdvances(s, q, c);
      } else {
        a, s' := ClearNextAdvances(s, q, c);
      }
    } else if s.lock != Free {
      a, s' := LockAdvances(s, q);
    } else if u :| 0 <= u < |s.ults| && s.ults[u].phase != Gone {
      a, s' := UltAdvances(s, q, u);
    } else if c :| 0 <= c < |s.calls| && s.calls[c].phase != Returned {
      a, s' := CallAdvances(s, q, c);
    } else {
      var t: Timer :| InRange(s, t) && t < |s.starting| && s.starting[t] != 0;
      a, s' := StartAdvances(s, q, t);
    }
  }

  ghost function Last(r: Run): State
    requires r.states != []
  {
    r.states[|r.states| - 1]
  }

  /** r' goes on from r with helpful steps. */
  ghost predicate GoesOn(r: Run, r': Run) {
    && ValidRun(r) && ValidRun(r')
    && |r.states| <= |r'.states| && r'.states[..|r.states|] == r.states && r'.actions[..|r.actions|] == r.actions
    && (forall k :: |r.actions| <= k < |r'.actions| ==> Helpful(r'.actions[k]))
  }

  lemma GoesOnOn(r: Run, r1: Run, r2: Run)
    requires GoesOn(r, r1) && GoesOn(r1, r2)
    ensures GoesOn(r, r2)
  {
    assert r2.states[..|r.states|] == r2.states[..|r1.states|][..|r.states|];
    assert r2.actions[..|r.actions|] == r2.actions[..|r1.actions|][..|r.actions|];
    forall k | |r.actions| <= k < |r2.actions| ensures Helpful(r2.actions[k]) {
      if k < |r1.actions| { assert r2.actions[..|r1.actions|][k] == r1.actions[k]; }
    }
  }

  lemma Appended(r: Run, a: Action, s': State) returns (r': Run)
    requires ValidRun(r) && Next(Last(r), a, s') && Exclusive(Last(r), a)
    ensures r' == Run(r.states + [s'], r.actions + [a]) && ValidRun(r') && Last(r') == s'
  {
    r' := Run(r.states + [s'], r.actions + [a]);
    forall i | 0 <= i < |r'.actions| ensures StepAt(r', i) && ExclusiveAt(r', i) {
      if i < |r.actions| { assert StepAt(r, i) && ExclusiveAt(r, i); }
    }
  }

  lemma OneMore(r: Run, a: Action, s': State) returns (r': Run)
    requires ValidRun(r) && Next(Last(r), a, s') && Exclusive(Last(r), a) && Helpful(a)
    ensures GoesOn(r, r') && Last(r') == s'
  {
    r' := Appended(r, a, s');
  }

  /** Every run can go on, without new starts and calls, until nothing is under way any more, or
      the list is destroyed, which only happens if it was being drained. */
  lemma {:induction false} EverythingCanFinish(r: Run, q: seq<Timer>) returns (r': Run)
    requires ValidRun(r) && Inv(Last(r), q) && Last(r).lock != Destroyed
    ensures GoesOn(r, r') && (AllDone(Last(r')) || (Draining(Last(r)) && Last(r').lock == Destroyed))
    decreases Left(Last(r), |q|)
  {
    r' := r;
    if !AllDone(Last(r)) {
      var a, s' := SomeStepAdvances(Last(r), q);
      var r1 := OneMore(r, a, s');
      if s'.lock == Destroyed {
        r' := r1;
      } else {
        var q' := NextKeepsInv(Last(r), q, a, s');
        SameLength(Last(r), q, a, s', q');
        r' := EverythingCanFinish(r1, q');
        GoesOnOn(r, r1, r');
      }
    }
  }

  /** The number of queued timers matters while draining only, and then only a pop changes it. */
  lemma SameLength(s: State, q: seq<Timer>, a: Action, s': State, q': seq<Timer>)
    requires Advances(s, q, a, s') && QueueMoves(s, q, a, q')
    ensures Left(s', |q'|) < Left(s, |q|)
  {
    if a.StartQueue? || a.Unlink? {
      assert s'.lock == Free;
    } else if a.ManyOne? {
      assert s'.lock.HeldByCall?;
    }
  }

  /** Every cancel can return: unless the list is being destroyed, every run can go on to a point
      where all calls have returned and all ULTs are gone. */
  lemma CancelsCanReturn(r: Run) returns (r': Run)
    requires ValidRun(r) && Last(r).lock != Destroyed && !Draining(Last(r))
    ensures GoesOn(r, r') && AllDone(Last(r'))
  {
    var q := InvAt(r, |r.states| - 1);
    r' := EverythingCanFinish(r, q);
  }

  // ---- destroying the list --------------------------------------------------

  /** A destruction that has begun is draining the list, waiting for ULTs, or done. */
  ghost predicate FreeUnderWay(s: State) {
    s.destroyRequested ==> Draining(s) || s.freeWaiting || s.lock == Destroyed
  }

  lemma FreeGoesOn(s: State, a: Action, s': State)
    requires Next(s, a, s') && FreeUnderWay(s)
    ensures FreeUnderWay(s')
  {
    if CallerAction(a) {
      CallerKeepsFree(s, a, s');
    }
  }

  lemma CallerKeepsFree(s: State, a: Action, s': State)
    requires Next(s, a, s') && CallerAction(a)
    ensures s'.lock == s.lock && s'.freeWaiting == s.freeWaiting && s'.destroyRequested == s.destroyRequested
  {
  }

  lemma {:induction false} FreeAt(r: Run, i: nat)
    requires ValidRun(r) && i < |r.states|
    ensures FreeUnderWay(r.states[i])
  {
    if i > 0 {
      FreeAt(r, i - 1);
      assert StepAt(r, i - 1);
      FreeGoesOn(r.states[i - 1], r.actions[i - 1], r.states[i]);
    }
  }

  /** Only a destruction that has begun drains the list, waits, or destroys it. */
  ghost predicate FreeWasAsked(s: State) {
    Draining(s) || s.freeWaiting || s.lock == Destroyed ==> s.destroyRequested
  }

  lemma FreeAskedFirst(s: State, a: Action, s': State)
    requires Next(s, a, s') && FreeWasAsked(s)
    ensures FreeWasAsked(s')
  {
    if CallerAction(a) {
      CallerKeepsFree(s, a, s');
    }
  }

  /** The list is destroyed only after __margo_timer_list_free was called. */
  lemma {:induction false} DestroyedAfterFree(r: Run, i: nat)
    requires ValidRun(r) && i < |r.states|
    ensures FreeWasAsked(r.states[i])
    ensures r.states[i].lock == Destroyed ==> FreeBegun(r, i)
  {
    DestroyIff(r, i);
    if i > 0 {
      DestroyedAfterFree(r, i - 1);
      assert StepAt(r, i - 1);
      FreeAskedFirst(r.states[i - 1], r.actions[i - 1], r.states[i]);
    }
  }

  /** When the drain is over, no timer is left in the queue. */
  lemma DrainLeavesNothing(r: Run, i: nat, t: Timer)
    requires ValidRun(r) && i < |r.actions| && r.actions[i] == DrainEnd
    ensures !Queued(r.states[i + 1], t)
  {
    assert StepAt(r, i);
    var q := InvAt(r, i + 1);
    QueuedIs(r.states[i + 1], q, t);
    NoHeadNoQueue(r.states[i + 1].links, q);
  }

  lemma NoHeadNoQueue(l: Links, q: seq<Timer>)
    requires Represents(l, q)
    ensures l.head == 0 <==> q == []
  {
    assert q != [] ==> LinkedAt(l, q, 0);
  }

  /** A round of the dispatcher and a destruction can begin whenever the list mutex is free, and a
      cancel at any time. */
  lemma CanAlwaysBegin(s: State, a: Action) returns (s': State)
    requires Shape(s)
    requires match a
             case CheckBegin => s.lock == Free
             case FreeBegin => s.lock == Free
             case CancelBegin(t) => InRange(s, t)
             case CancelManyBegin(ts) => ts != [] && forall k :: 0 <= k < |ts| ==> InRange(s, ts[k])
             case _ => false
    ensures Next(s, a, s')
  {
    match a {
      case CheckBegin => s' := s.(lock := Dispatching(false, Scanning));
      case FreeBegin => s' := s.(lock := Dispatching(true, Scanning), destroyRequested := true);
      case CancelBegin(t) => s' := s.(canceled := s.canceled[t := true], calls := s.calls + [Call([t], Marked)]);
      case CancelManyBegin(ts) => s' := s.(calls := s.calls + [Call(ts, Entering)]);
    }
  }

  /** The destruction of the list can always be completed once it has begun. */
  lemma ListFreeCanFinish(r: Run) returns (r': Run)
    requires ValidRun(r) && FreeBegun(r, |r.actions|)
    ensures ValidRun(r') && |r.states| <= |r'.states| && r'.states[..|r.states|] == r.states
    ensures Last(r').lock == Destroyed
  {
    r' := r;
    if Last(r).lock != Destroyed {
      var q := InvAt(r, |r.states| - 1);
      r' := EverythingCanFinish(r, q);
      if Last(r').lock != Destroyed {
        var k :| 0 <= k < |r.actions| && r.actions[k] == FreeBegin;
        assert r'.actions[..|r.actions|][k] == FreeBegin;
        r' := FreeCanWake(r');
      }
    }
  }

  lemma FreeCanWake(r: Run) returns (r': Run)
    requires ValidRun(r) && FreeBegun(r, |r.actions|) && AllDone(Last(r))
    ensures r' == Run(r.states + [Last(r).(lock := Destroyed)], r.actions + [FreeWake]) && ValidRun(r')
  {
    DestroyIff(r, |r.actions|);
    FreeAt(r, |r.actions|);
    var q := InvAt(r, |r.actions|);
    NonePresentLeft(Last(r).ults);
    r' := Appended(r, FreeWake, Last(r).(lock := Destroyed));
  }

  lemma {:induction false} NonePresentLeft(ults: seq<Ult>)
    requires forall u :: 0 <= u < |ults| ==> ults[u].phase == Gone
    ensures Present(ults) == 0
  {
    if ults != [] {
      NonePresentLeft(ults[..|ults| - 1]);
    }
  }
}
