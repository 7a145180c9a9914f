/** The shutdown handshake of a margo instance: a 32-bit atomic word packs the
    finalize-requested bit with the number of admitted operations.  Any number of
    threads run RPC handlers, margo_finalize and margo_finalize_and_wait; every
    atomic access to the word is one step of the interleaving. */
module Shutdown {
  import opened Bits

  const FINALIZE_BIT: nat := 0x8000_0000
  const PENDING_MASK: nat := 0x7FFF_FFFF

  type Word = w: nat | w < 0x1_0000_0000

  lemma Powers()
    ensures Pow2(31) == FINALIZE_BIT && Pow2(32) == 0x1_0000_0000
  {
    assert Pow2(8) == 0x100;
    assert Pow2(16) == 0x1_0000;
    assert Pow2(24) == 0x100_0000;
  }

  /** The finalize-requested flag of a word. */
  predicate Finalizing(w: Word) {
    w >= FINALIZE_BIT
  }

  /** The pending-operation count of a word. */
  function Pending(w: Word): nat {
    if w >= FINALIZE_BIT then w - FINALIZE_BIT else w
  }

  /** The word with the flag set and the count untouched. */
  function WithFinalizeBit(w: Word): Word {
    if w >= FINALIZE_BIT then w else w + FINALIZE_BIT
  }

  lemma LayoutWith(w: Word, k: nat)
    requires Pow2(k) == FINALIZE_BIT && Pow2(k + 1) == 0x1_0000_0000
    ensures And(w, FINALIZE_BIT) != 0 <==> Finalizing(w)
    ensures And(w, PENDING_MASK) == Pending(w)
    ensures Or(w, FINALIZE_BIT) == WithFinalizeBit(w)
  {
    TopBit(w, k);
    AndLowMask(w, k);
  }

  /** The three operations are the masks and the `|` of the C code. */
  lemma WordLayout(w: Word)
    ensures And(w, FINALIZE_BIT) != 0 <==> Finalizing(w)
    ensures And(w, PENDING_MASK) == Pending(w)
    ensures Or(w, FINALIZE_BIT) == WithFinalizeBit(w)
  {
    Powers();
    LayoutWith(w, 31);
  }

  type Tid = nat

  datatype Pc =
    | Idle
      // __margo_internal_incr_pending, holding the last value read into `cur`
    | Trying(cur: Word)
      // incr_pending returned 0: the RPC is answered with HG_PERMISSION
    | Refused
      // incr_pending returned 1: the handler runs until it decrements
    | Admitted
      // decremented, about to load the word in __margo_internal_finalize_requested
    | Rechecking
      // about to execute the fetch_or of margo_finalize
    | Finalizer
      // margo_finalize saw pending operations and returned
    | Deferred
      // margo_finalize saw no pending operation and goes on to tear down
    | Teardown

  datatype Action =
      // incr_pending: the first atomic_load
    | LoadState
      // incr_pending: test of the flag, then compare_exchange_weak
    | TryIncr(spuriousFailure: bool)
      // a handler body calls margo_finalize while its operation is pending
    | FinalizeInHandler
      // post_wrapper_hooks: the fetch_sub of decr_pending
    | Decrement
      // post_wrapper_hooks: the load of finalize_requested
    | Recheck
      // an application thread calls margo_finalize
    | CallFinalize
      // an application thread calls margo_finalize_and_wait: its own fetch_or
    | FinalizeAndWait
      // margo_finalize: the fetch_or and the gate that follows
    | Gate
      // the handler macro when ABT_thread_create fails: decrement, no re-check
    | AbandonUlt
      // back to the caller
    | Return

  datatype State = State(word: Word, pcs: seq<Pc>)

  ghost predicate Init(s: State) {
    && s.word == 0
    && (forall t :: 0 <= t < |s.pcs| ==> s.pcs[t] == Idle)
    && |s.pcs| < FINALIZE_BIT - 1
  }

  ghost predicate Moves(s: State, t: Tid, pc: Pc, w: nat, s': State)
    requires 0 <= t < |s.pcs|
  {
    s'.pcs == s.pcs[t := pc] && s'.word == w
  }

  /** One atomic step of thread t.  fetch_sub and `cur + 1` wrap modulo 2^32. */
  ghost predicate Next(s: State, t: Tid, a: Action, s': State) {
    && 0 <= t < |s.pcs|
    && var pc, w := s.pcs[t], s.word;
    match a
    case LoadState => pc == Idle && Moves(s, t, Trying(w), w, s')
    case TryIncr(spurious) =>
      && pc.Trying?
      && if Finalizing(pc.cur) then Moves(s, t, Refused, w, s')
         else if w == pc.cur && !spurious then Moves(s, t, Admitted, (pc.cur + 1) % 0x1_0000_0000, s')
         else Moves(s, t, Trying(w), w, s')
    case FinalizeInHandler =>
      pc == Admitted && Moves(s, t, if Pending(w) == 0 then Teardown else Admitted, WithFinalizeBit(w), s')
    case Decrement => pc == Admitted && Moves(s, t, Rechecking, (w + 0xFFFF_FFFF) % 0x1_0000_0000, s')
    case Recheck => pc == Rechecking && Moves(s, t, if Finalizing(w) then Finalizer else Idle, w, s')
    case CallFinalize => pc == Idle && Moves(s, t, Finalizer, w, s')
    case FinalizeAndWait => pc == Idle && Moves(s, t, Finalizer, WithFinalizeBit(w), s')
    case Gate =>
      pc == Finalizer && Moves(s, t, if Pending(w) == 0 then Teardown else Deferred, WithFinalizeBit(w), s')
    case AbandonUlt => pc == Admitted && Moves(s, t, Idle, (w + 0xFFFF_FFFF) % 0x1_0000_0000, s')
    case Return => (pc == Refused || pc == Deferred) && Moves(s, t, Idle, w, s')
  }

  // ---- invariants ---------------------------------------------------------

  ghost function AdmittedThreads(pcs: seq<Pc>): set<Tid> {
    set t | 0 <= t < |pcs| && pcs[t] == Admitted
  }

  ghost predicate SomeTeardown(s: State) {
    exists t :: 0 <= t < |s.pcs| && s.pcs[t] == Teardown
  }

  /** A thread that has passed the gate, or still will execute it. */
  predicate Carries(pc: Pc) {
    pc == Rechecking || pc == Finalizer || pc == Teardown
  }

  ghost predicate SomeoneCarries(s: State) {
    exists t :: 0 <= t < |s.pcs| && Carries(s.pcs[t])
  }

  /** The word counts exactly the admitted threads, and nobody is admitted once the
      gate has been passed. */
  ghost predicate Inv(s: State) {
    && |s.pcs| < FINALIZE_BIT - 1
    && Pending(s.word) == |AdmittedThreads(s.pcs)|
    && (SomeTeardown(s) ==> Finalizing(s.word) && Pending(s.word) == 0)
  }

  /** A requested finalization with nothing pending is in somebody's hands. */
  ghost predicate NotLost(s: State) {
    Finalizing(s.word) && Pending(s.word) == 0 ==> SomeoneCarries(s)
  }

  lemma AdmittedUpdate(pcs: seq<Pc>, t: Tid, pc: Pc)
    requires t < |pcs|
    ensures var n, n' := |AdmittedThreads(pcs)|, |AdmittedThreads(pcs[t := pc])|;
            n' == n + (if pc == Admitted then 1 else 0) - (if pcs[t] == Admitted then 1 else 0)
    ensures pcs[t] == Admitted ==> |AdmittedThreads(pcs)| > 0
    ensures |AdmittedThreads(pcs)| <= |pcs|
    ensures |pcs[t := pc]| == |pcs|
  {
    var A, A' := AdmittedThreads(pcs), AdmittedThreads(pcs[t := pc]);
    SubsetOfInterval(A, |pcs|);
    assert t in A <==> pcs[t] == Admitted;
    assert t in A' <==> pc == Admitted;
    if pcs[t] == Admitted && pc != Admitted {
      assert A == A' + {t};
    } else if pcs[t] != Admitted && pc == Admitted {
      assert A' == A + {t};
    } else {
      assert A' == A;
    }
  }

  lemma {:induction false} SubsetOfInterval(a: set<nat>, n: nat)
    requires forall x <- a :: x < n
    ensures |a| <= n
  {
    if n > 0 {
      SubsetOfInterval(a - {n - 1}, n - 1);
    }
  }

  lemma NextKeepsInv(s: State, t: Tid, a: Action, s': State)
    requires Inv(s) && Next(s, t, a, s')
    ensures Inv(s')
  {
    AdmittedUpdate(s.pcs, t, s'.pcs[t]);
    if SomeTeardown(s') {
      var u :| 0 <= u < |s'.pcs| && s'.pcs[u] == Teardown;
      assert u != t ==> s.pcs[u] == Teardown;
    }
  }

  lemma NextKeepsNotLost(s: State, t: Tid, a: Action, s': State)
    requires Inv(s) && NotLost(s) && Next(s, t, a, s') && !a.AbandonUlt?
    ensures NotLost(s')
  {
    AdmittedUpdate(s.pcs, t, s'.pcs[t]);
    if Finalizing(s'.word) && Pending(s'.word) == 0 {
      if Carries(s'.pcs[t]) {
        assert SomeoneCarries(s');
      } else {
        var u :| 0 <= u < |s.pcs| && Carries(s.pcs[u]);
        assert u != t;
        assert s'.pcs[u] == s.pcs[u];
      }
    }
  }

  // ---- runs ---------------------------------------------------------------

  /** A run: states joined by steps of arbitrary threads. */
  datatype Run = Run(states: seq<State>, who: seq<Tid>, what: seq<Action>)

  ghost predicate ValidRun(r: Run) {
    && |r.states| == |r.who| + 1 == |r.what| + 1
    && Init(r.states[0])
    && forall i :: 0 <= i < |r.who| ==> Next(r.states[i], r.who[i], r.what[i], r.states[i + 1])
  }

  lemma {:induction false} InvHolds(r: Run, i: nat)
    requires ValidRun(r) && i < |r.states|
    ensures Inv(r.states[i])
  {
    if i == 0 {
      assert AdmittedThreads(r.states[0].pcs) == {};
    } else {
      InvHolds(r, i - 1);
      NextKeepsInv(r.states[i - 1], r.who[i - 1], r.what[i - 1], r.states[i]);
    }
  }

  lemma {:induction false} TeardownIsForever(r: Run, i: nat, j: nat)
    requires ValidRun(r) && i <= j < |r.states| && SomeTeardown(r.states[i])
    ensures SomeTeardown(r.states[j])
  {
    if i < j {
      TeardownIsForever(r, i, j - 1);
      var s, s', t := r.states[j - 1], r.states[j], r.who[j - 1];
      assert Next(s, t, r.what[j - 1], s');
      var u :| 0 <= u < |s.pcs| && s.pcs[u] == Teardown;
      assert u != t;
      assert s'.pcs[u] == Teardown;
    }
  }

  /** Shutdown safety: from the first time a fetch_or of margo_finalize has seen a zero
      count, the bit stays set, the count stays zero, no thread is between admission and
      decrement, and every later attempt to be admitted is refused. */
  lemma ShutdownSafety(r: Run, i: nat, j: nat)
    requires ValidRun(r) && i <= j < |r.states| && SomeTeardown(r.states[i])
    ensures Finalizing(r.states[j].word) && Pending(r.states[j].word) == 0
    ensures forall t :: 0 <= t < |r.states[j].pcs| ==> r.states[j].pcs[t] != Admitted
    ensures j < |r.who| && r.what[j].TryIncr? ==>
              var s, s', t := r.states[j], r.states[j + 1], r.who[j];
              && 0 <= t < |s.pcs| && 0 <= t < |s'.pcs| && s.pcs[t].Trying?
              && s'.word == s.word
              && (if Finalizing(s.pcs[t].cur) then s'.pcs[t] == Refused
                  else s'.pcs[t].Trying? && Finalizing(s'.pcs[t].cur))
  {
    TeardownIsForever(r, i, j);
    InvHolds(r, j);
    forall t | 0 <= t < |r.states[j].pcs| ensures r.states[j].pcs[t] != Admitted {
      AdmittedUpdate(r.states[j].pcs, t, Idle);
    }
    if j < |r.who| {
      assert Next(r.states[j], r.who[j], r.what[j], r.states[j + 1]);
    }
  }

  /** No lost finalize: in every run whose admitted operations all complete through
      post_wrapper_hooks, a requested finalization with a zero count always has a thread
      that passed the gate, is about to re-check, or is about to execute the gate. */
  lemma {:induction false} NoLostFinalize(r: Run, i: nat)
    requires ValidRun(r) && i < |r.states|
    requires forall k :: 0 <= k < i ==> !r.what[k].AbandonUlt?
    ensures NotLost(r.states[i])
  {
    if i > 0 {
      NoLostFinalize(r, i - 1);
      InvHolds(r, i - 1);
      NextKeepsNotLost(r.states[i - 1], r.who[i - 1], r.what[i - 1], r.states[i]);
    }
  }

  ghost predicate AtRest(s: State) {
    forall t :: 0 <= t < |s.pcs| ==> s.pcs[t] in {Idle, Refused, Deferred, Teardown}
  }

  /** When every thread has come to rest after a finalize request, the teardown has
      been entered by someone. */
  lemma RequestedFinalizeHappens(r: Run, i: nat)
    requires ValidRun(r) && i < |r.states|
    requires forall k :: 0 <= k < i ==> !r.what[k].AbandonUlt?
    requires AtRest(r.states[i]) && Finalizing(r.states[i].word)
    ensures SomeTeardown(r.states[i])
  {
    NoLostFinalize(r, i);
    InvHolds(r, i);
    assert AdmittedThreads(r.states[i].pcs) == {};
    var t :| 0 <= t < |r.states[i].pcs| && Carries(r.states[i].pcs[t]);
  }

  // ---- what the handshake does not give ------------------------------------

  /** The ULT-creation failure path loses the request exactly when it drops the last
      pending operation after the bit was set and no other thread carries the request. */
  lemma AbandonLosesIff(s: State, t: Tid, s': State)
    requires Inv(s) && NotLost(s) && Next(s, t, AbandonUlt, s')
    ensures NotLost(s') <==> !(Finalizing(s.word) && Pending(s.word) == 1 && !SomeoneCarries(s))
  {
    AdmittedUpdate(s.pcs, t, Idle);
    if SomeoneCarries(s) {
      var u :| 0 <= u < |s.pcs| && Carries(s.pcs[u]);
      assert u != t && s'.pcs[u] == s.pcs[u];
    }
    if SomeoneCarries(s') {
      var u :| 0 <= u < |s'.pcs| && Carries(s'.pcs[u]);
      assert u != t && s'.pcs[u] == s.pcs[u];
    }
  }

  ghost function Last(r: Run): State
    requires ValidRun(r)
  {
    r.states[|r.states| - 1]
  }

  /** A run in which a failed ULT creation loses the finalization: all threads rest, the
      bit is set, and nobody ever tore down. */
  lemma LostFinalizeRun() returns (r: Run)
    ensures ValidRun(r)
    ensures AtRest(Last(r)) && Finalizing(Last(r).word) && Pending(Last(r).word) == 0
    ensures !SomeTeardown(Last(r)) && !NotLost(Last(r))
  {
    var B := FINALIZE_BIT;
    r := Run([State(0, [Idle, Idle]),
              State(0, [Trying(0), Idle]),
              State(1, [Admitted, Idle]),
              State(1, [Admitted, Finalizer]),
              State(B + 1, [Admitted, Deferred]),
              State(B, [Idle, Deferred])],
             [0, 0, 1, 1, 0],
             [LoadState, TryIncr(false), CallFinalize, Gate, AbandonUlt]);
    forall i | 0 <= i < 5 ensures Next(r.states[i], r.who[i], r.what[i], r.states[i + 1]) {
      if i == 0 { } else if i == 1 { } else if i == 2 { } else if i == 3 { } else { assert i == 4; }
    }
  }

  /** The decrement and the re-check are separate steps: a finalizer that arrives between
      them passes the gate, and then the finishing handler passes it as well.  Teardown is
      entered at least once, not exactly once. */
  lemma DoubleTeardownRun() returns (r: Run)
    ensures ValidRun(r)
    ensures forall k :: 0 <= k < |r.what| ==> !r.what[k].AbandonUlt?
    ensures Last(r).pcs == [Teardown, Teardown]
  {
    var B := FINALIZE_BIT;
    r := Run([State(0, [Idle, Idle]),
              State(0, [Trying(0), Idle]),
              State(1, [Admitted, Idle]),
              State(0, [Rechecking, Idle]),
              State(0, [Rechecking, Finalizer]),
              State(B, [Rechecking, Teardown]),
              State(B, [Finalizer, Teardown]),
              State(B, [Teardown, Teardown])],
             [0, 0, 0, 1, 1, 0, 0],
             [LoadState, TryIncr(false), Decrement, CallFinalize, Gate, Recheck, Gate]);
    forall i | 0 <= i < 7 ensures Next(r.states[i], r.who[i], r.what[i], r.states[i + 1]) {
      if i == 0 { } else if i == 1 { } else if i == 2 { } else if i == 3 { }
      else if i == 4 { } else if i == 5 { } else { assert i == 6; }
    }
  }

  /** Step i takes a thread past the gate. */
  ghost predicate EntersAt(r: Run, i: nat)
    requires ValidRun(r)
  {
    i < |r.who| && r.who[i] < |r.states[i + 1].pcs| && r.states[i + 1].pcs[r.who[i]] == Teardown
  }

  /** Only the gate leads into teardown: a handler that calls margo_finalize sees its own
      pending operation. */
  lemma OnlyGateEnters(r: Run, i: nat)
    requires ValidRun(r) && EntersAt(r, i)
    ensures r.what[i].Gate? && SomeTeardown(r.states[i + 1])
  {
    InvHolds(r, i);
    assert Next(r.states[i], r.who[i], r.what[i], r.states[i + 1]);
    AdmittedUpdate(r.states[i].pcs, r.who[i], Idle);
  }

  /** Once the gate has been passed, every thread that executes it passes it. */
  lemma LaterGatesEnter(r: Run, i: nat, j: nat)
    requires ValidRun(r) && EntersAt(r, i) && i < j < |r.who| && r.what[j].Gate?
    ensures EntersAt(r, j)
  {
    OnlyGateEnters(r, i);
    ShutdownSafety(r, i + 1, j);
    assert Next(r.states[j], r.who[j], r.what[j], r.states[j + 1]);
  }

  /** Teardown is entered exactly once if and only if no thread executes the gate after the
      first one that passed it. */
  lemma TeardownOnceIff(r: Run, i: nat)
    requires ValidRun(r) && EntersAt(r, i)
    ensures (forall j :: i < j < |r.who| ==> !EntersAt(r, j)) <==> (forall j :: i < j < |r.who| ==> !r.what[j].Gate?)
  {
    forall j | i < j < |r.who| ensures EntersAt(r, j) <==> r.what[j].Gate? {
      if r.what[j].Gate? {
        LaterGatesEnter(r, i, j);
      }
      if EntersAt(r, j) {
        OnlyGateEnters(r, j);
      }
    }
  }
}
