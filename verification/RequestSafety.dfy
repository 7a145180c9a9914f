/** What every interleaving keeps about requests: a timeout callback only ever works on a
    request that is still being submitted or in flight, and every request drawn from the
    arena goes back to it exactly once. */
module RequestSafety {
  import TP = TimerProtocol
  import TS = TimerSafety
  import DL = DList
  import opened Requests

  // ---- timers as the requests see them ------------------------------------------------

  /** t is quiet and no cancel of it is in progress. */
  ghost predicate Idle(ts: TP.State, q: seq<Timer>, t: Timer) {
    TS.Quiet(ts, q, t) && TS.NoCallOn(ts, t)
  }

  /** c is a cancel of t alone, the only one; once it has returned, t is quiet. */
  ghost predicate CancelPending(ts: TP.State, q: seq<Timer>, c: nat, t: Timer) {
    && c < |ts.calls| && ts.calls[c].timers == [t]
    && (forall d :: 0 <= d < |ts.calls| && d != c && TS.InProgress(ts.calls[d]) ==> t !in ts.calls[d].timers)
    && t < |ts.starting| && ts.starting[t] == 0
    && (ts.calls[c].phase == TP.Returned ==> TS.Quiet(ts, q, t))
  }

  ghost predicate TimerPhaseOk(ts: TP.State, q: seq<Timer>, op: Op) {
    match op.phase
    case Drawn => op.timer == 0
    case Armed => op.timer != 0 && Idle(ts, q, op.timer)
    case Starting => op.timer != 0 && op.timer < |ts.starting| && ts.starting[op.timer] == 1 &&
        TS.NoCallOn(ts, op.timer)
    case Ready => op.timer != 0 ==> op.timer < |ts.starting| && ts.starting[op.timer] == 0 && TS.NoCallOn(ts, op.timer)
    case InFlight =>
      op.timer != 0 ==> op.timer < |ts.starting| && ts.starting[op.timer] == 0 && TS.NoCallOn(ts, op.timer)
    case FailCancel(c) => op.timer != 0 && CancelPending(ts, q, c, op.timer)
    case CbCancel(c) => op.timer != 0 && CancelPending(ts, q, c, op.timer)
    case _ => true
  }

  /** The step starts or cancels t. */
  ghost predicate Concerns(a: TP.Action, t: Timer) {
    match a
    case StartBegin(u) => u == t
    case StartQueue(u, _) => u == t
    case CancelBegin(u) => u == t
    case CancelManyBegin(us) => t in us
    case _ => false
  }

  predicate CallAction(a: TP.Action) {
    a.Unlink? || a.ClearNext? || a.ClearPrev? || a.ManyLock? || a.ManyOne? || a.ManyUnlock? || a.WaitDone? || a.Reset?
  }

  lemma CallMoves(ts: TP.State, a: TP.Action, ts': TP.State)
    requires TP.Next(ts, a, ts') && CallAction(a)
    ensures a.c < |ts.calls| == |ts'.calls| && TS.InProgress(ts.calls[a.c])
    ensures ts'.calls == ts.calls[a.c := ts.calls[a.c].(phase := ts'.calls[a.c].phase)]
    ensures ts'.calls[a.c].phase == TP.Returned ==> a.Reset?
  {
  }

  lemma CallsFixed(ts: TP.State, a: TP.Action, ts': TP.State)
    requires TP.Next(ts, a, ts') && !CallAction(a)
    ensures ts'.calls == (if a.CancelBegin? then ts.calls + [TP.Call([a.t], TP.Marked)]
                          else if a.CancelManyBegin? then ts.calls + [TP.Call(a.ts, TP.Entering)]
                          else ts.calls)
  {
  }

  /** Calls keep their timers, never come back from Returned, and new ones are cancels. */
  lemma CallsEvolve(ts: TP.State, a: TP.Action, ts': TP.State)
    requires TP.Next(ts, a, ts')
    ensures |ts.calls| <= |ts'.calls|
    ensures forall c :: 0 <= c < |ts.calls| ==>
              && ts'.calls[c].timers == ts.calls[c].timers
              && (TS.InProgress(ts'.calls[c]) ==> TS.InProgress(ts.calls[c]))
    ensures forall c, t :: |ts.calls| <= c < |ts'.calls| && t in ts'.calls[c].timers ==> Concerns(a, t)
  {
    if CallAction(a) {
      CallMoves(ts, a, ts');
    } else {
      CallsFixed(ts, a, ts');
    }
  }

  lemma StartingEvolves(ts: TP.State, a: TP.Action, ts': TP.State, t: Timer)
    requires TP.Next(ts, a, ts') && !Concerns(a, t) && t < |ts.starting|
    ensures |ts'.starting| == |ts.starting| && ts'.starting[t] == ts.starting[t]
  {
  }

  lemma ReturnMeansReset(ts: TP.State, a: TP.Action, ts': TP.State, c: nat)
    requires TP.Next(ts, a, ts') && c < |ts.calls| && c < |ts'.calls|
    requires ts.calls[c].phase != TP.Returned && ts'.calls[c].phase == TP.Returned
    ensures a == TP.Reset(c)
  {
    if CallAction(a) {
      CallMoves(ts, a, ts');
    } else {
      CallsFixed(ts, a, ts');
    }
  }

  lemma NoCallStays(ts: TP.State, a: TP.Action, ts': TP.State, t: Timer)
    requires TP.Next(ts, a, ts') && !Concerns(a, t) && TS.NoCallOn(ts, t)
    ensures TS.NoCallOn(ts', t)
  {
    CallsEvolve(ts, a, ts');
  }

  lemma IdleStays(ts: TP.State, q: seq<Timer>, a: TP.Action, ts': TP.State, q': seq<Timer>, t: Timer)
    requires TS.Inv(ts, q) && TP.Next(ts, a, ts') && TS.OnlyStartAdds(q, a, q')
    requires !Concerns(a, t) && Idle(ts, q, t)
    ensures Idle(ts', q', t)
  {
    NoCallStays(ts, a, ts', t);
    TS.QuietStays(ts, q, t, a, ts', q');
  }

  lemma CancelPendingStays(ts: TP.State, q: seq<Timer>, a: TP.Action, ts': TP.State, q': seq<Timer>, c: nat, t: Timer)
    requires TS.Inv(ts, q) && TP.Next(ts, a, ts') && TS.OnlyStartAdds(q, a, q')
    requires !Concerns(a, t) && CancelPending(ts, q, c, t)
    ensures CancelPending(ts', q', c, t)
  {
    CallsEvolve(ts, a, ts');
    StartingEvolves(ts, a, ts', t);
    if ts'.calls[c].phase == TP.Returned {
      if ts.calls[c].phase == TP.Returned {
        TS.QuietStays(ts, q, t, a, ts', q');
      } else {
        ReturnMeansReset(ts, a, ts', c);
        TS.ReturnIsQuiet(ts, q, c, t, ts');
        assert TS.OnlyStartAdds(q, a, q') && t !in q;
      }
    }
  }

  /** A timer step that does not concern the operation's timer leaves it in order. */
  lemma TimerPhaseStays(ts: TP.State, q: seq<Timer>, a: TP.Action, ts': TP.State, q': seq<Timer>, op: Op)
    requires TS.Inv(ts, q) && TP.Next(ts, a, ts') && TS.OnlyStartAdds(q, a, q')
    requires op.timer != 0 ==> !Concerns(a, op.timer)
    requires TimerPhaseOk(ts, q, op)
    ensures TimerPhaseOk(ts', q', op)
  {
    if op.phase.Armed? {
      IdleStays(ts, q, a, ts', q', op.timer);
    } else if op.phase.FailCancel? || op.phase.CbCancel? {
      CancelPendingStays(ts, q, a, ts', q', op.phase.c, op.timer);
    } else if op.timer != 0 && (op.phase.Starting? || op.phase.Ready? || op.phase.InFlight?) {
      NoCallStays(ts, a, ts', op.timer);
      StartingEvolves(ts, a, ts', op.timer);
    }
  }

  // ---- the invariant --------------------------------------------------------------------

  predicate Active(op: Op) {
    op.phase != Done
  }

  /** The phases in which req->timer still is what the submission stored. */
  predicate KeepsTimerField(op: Op) {
    op.phase.Drawn? || op.phase.Armed? || op.phase.Starting? || op.phase.Ready? || op.phase.FailCancel? ||
    op.phase.InFlight? || op.phase.CbCancel?
  }

  /** The operation and the memory it works on agree. */
  ghost predicate MemoryOk(op: Op, slot: Slot) {
    && (Active(op) ==> !slot.free && slot.mem.kind == op.kind)
    && (KeepsTimerField(op) ==> slot.mem.timer == op.timer)
    && (op.phase == Called ==> op.kind == Callback && op.tail)
    && (op.phase == EventualSet ==> op.kind == Eventual)
    && (op.tail ==> op.phase == Called || op.kind == Eventual)
    && (op.tail && op.kind == Eventual ==> slot.mem.kind == Eventual && (op.phase == EventualSet || op.phase == Done))
  }

  ghost predicate OpOk(s: State, q: seq<Timer>, o: nat)
    requires o < |s.ops|
  {
    var op := s.ops[o];
    && op.addr < |s.slots|
    && MemoryOk(op, s.slots[op.addr])
    && (op.timer != 0 ==> Reserved(s, op.timer))
    && TimerPhaseOk(s.ts, q, op)
  }

  ghost predicate Separate(a: Op, b: Op) {
    && (Active(a) && Active(b) ==> a.addr != b.addr)
    && (OwnsTimer(a) && OwnsTimer(b) ==> a.timer != b.timer)
  }

  ghost predicate HasOwner(ops: seq<Op>, addr: Addr) {
    exists o :: 0 <= o < |ops| && Active(ops[o]) && ops[o].addr == addr
  }

  /** Handed out once more than taken back exactly while some operation works on it. */
  ghost predicate SlotOk(s: State, addr: Addr)
    requires addr < |s.slots|
  {
    var slot := s.slots[addr];
    && slot.gets == slot.releases + (if slot.free then 0 else 1)
    && (!slot.free ==> HasOwner(s.ops, addr))
  }

  ghost predicate TimerOwned(ops: seq<Op>, t: Timer) {
    exists o :: 0 <= o < |ops| && OwnsTimer(ops[o]) && ops[o].timer == t
  }

  ghost predicate Inv(s: State, q: seq<Timer>) {
    && Shape(s)
    && TS.Inv(s.ts, q)
    && (forall o :: 0 <= o < |s.ops| ==> OpOk(s, q, o))
    && (forall o, p :: 0 <= o < p < |s.ops| ==> Separate(s.ops[o], s.ops[p]))
    && (forall a :: 0 <= a < |s.slots| ==> SlotOk(s, a))
    && (forall t :: Reserved(s, t) ==> TimerOwned(s.ops, t) || Idle(s.ts, q, t))
  }

  /** The step puts the callback kind into the memory at addr. */
  predicate WritesCallbackKind(a: Action, addr: Addr) {
    (a.Draw? && a.addr == addr && a.kind == Callback) || (a.Overwrite? && a.addr == addr && a.mem.kind == Callback)
  }

  /** The condition on the interleaving: the memory of an operation whose margo_cb has
      delivered but not yet finished is not given the callback kind, by a new submission
      that draws the slot or by whatever overwrites the stack frame. */
  ghost predicate Careful(s: State, a: Action) {
    forall p :: 0 <= p < |s.ops| && s.ops[p].tail ==> !WritesCallbackKind(a, s.ops[p].addr)
  }

  // ---- preservation -----------------------------------------------------------------------

  lemma OthersSeparate(s: State, q: seq<Timer>, o: nat, p: nat)
    requires Inv(s, q) && o < |s.ops| && p < |s.ops| && o != p
    ensures Separate(s.ops[o], s.ops[p]) && Separate(s.ops[p], s.ops[o])
  {
    if o < p { assert Separate(s.ops[o], s.ops[p]); } else { assert Separate(s.ops[p], s.ops[o]); }
  }

  lemma OwnerKept(ops: seq<Op>, ops': seq<Op>, addr: Addr)
    requires HasOwner(ops, addr) && |ops| <= |ops'|
    requires forall o :: 0 <= o < |ops| && ops[o].addr == addr && Active(ops[o]) ==>
             ops'[o].addr == addr && Active(ops'[o])
    ensures HasOwner(ops', addr)
  {
    var o :| 0 <= o < |ops| && Active(ops[o]) && ops[o].addr == addr;
    assert ops'[o].addr == addr;
  }

  lemma TimerOwnerKept(ops: seq<Op>, ops': seq<Op>, t: Timer)
    requires TimerOwned(ops, t) && |ops| <= |ops'|
    requires forall o :: 0 <= o < |ops| && OwnsTimer(ops[o]) && ops[o].timer == t ==>
             OwnsTimer(ops'[o]) && ops'[o].timer == t
    ensures TimerOwned(ops', t)
  {
    var o :| 0 <= o < |ops| && OwnsTimer(ops[o]) && ops[o].timer == t;
    assert ops'[o].timer == t;
  }

  lemma EnvironmentKeeps(s: State, q: seq<Timer>, a: TP.Action, s': State) returns (q': seq<Timer>)
    requires Inv(s, q) && EnvironmentStep(s, a, s')
    ensures Inv(s', q')
  {
    q' := TS.NextKeepsInv(s.ts, q, a, s'.ts);
    PoolConstant(s.ts, a, s'.ts);
    forall t | Reserved(s, t) ensures !Concerns(a, t) {
    }
    forall o | 0 <= o < |s'.ops| ensures OpOk(s', q', o) {
      assert OpOk(s, q, o);
      TimerPhaseStays(s.ts, q, a, s'.ts, q', s.ops[o]);
    }
    forall t | Reserved(s', t) ensures TimerOwned(s'.ops, t) || Idle(s'.ts, q', t) {
      if !TimerOwned(s.ops, t) { IdleStays(s.ts, q, a, s'.ts, q', t); }
    }
    forall a | 0 <= a < |s'.slots| ensures SlotOk(s', a) {
      assert SlotOk(s, a);
    }
  }

  lemma PoolConstant(ts: TP.State, a: TP.Action, ts': TP.State)
    requires TP.Next(ts, a, ts')
    ensures ts'.pool == ts.pool
  {
  }

  /** One operation moves on; timers, and the slots of other operations, stay as they are. */
  lemma OpFrame(s: State, q: seq<Timer>, o: nat, s': State)
    requires Inv(s, q) && o < |s.ops| == |s'.ops| && |s'.slots| == |s.slots|
    requires s' == s.(ops := s.ops[o := s'.ops[o]], slots := s.slots[s.ops[o].addr := s'.slots[s.ops[o].addr]])
    requires Active(s.ops[o]) && Active(s'.ops[o]) && s'.ops[o].addr == s.ops[o].addr
    requires var a, b := s.slots[s.ops[o].addr], s'.slots[s.ops[o].addr];
             b == a.(mem := b.mem) && b.mem.kind == a.mem.kind
    requires OpOk(s', q, o)
    requires OwnsTimer(s'.ops[o]) ==> OwnsTimer(s.ops[o]) && s'.ops[o].timer == s.ops[o].timer
    requires OwnsTimer(s.ops[o]) && !OwnsTimer(s'.ops[o]) ==> Idle(s.ts, q, s.ops[o].timer)
    ensures Inv(s', q)
  {
    forall p | 0 <= p < |s'.ops| ensures OpOk(s', q, p) {
      assert OpOk(s, q, p);
      if p != o { OthersSeparate(s, q, o, p); }
    }
    forall p, r | 0 <= p < r < |s'.ops| ensures Separate(s'.ops[p], s'.ops[r]) {
      assert Separate(s.ops[p], s.ops[r]);
    }
    forall a | 0 <= a < |s'.slots| ensures SlotOk(s', a) {
      assert SlotOk(s, a);
      if !s.slots[a].free { OwnerKept(s.ops, s'.ops, a); }
    }
    forall t | Reserved(s', t) ensures TimerOwned(s'.ops, t) || Idle(s'.ts, q, t) {
      if TimerOwned(s.ops, t) && !(OwnsTimer(s.ops[o]) && s.ops[o].timer == t && !OwnsTimer(s'.ops[o])) {
        TimerOwnerKept(s.ops, s'.ops, t);
      }
    }
  }

  lemma ReturnedIsIdle(ts: TP.State, q: seq<Timer>, c: nat, t: Timer)
    requires CancelPending(ts, q, c, t) && ts.calls[c].phase == TP.Returned
    ensures Idle(ts, q, t)
  {
  }

  lemma PrivateKeeps(s: State, q: seq<Timer>, a: Action, s': State)
    requires Inv(s, q) && PrivateStep(s, a, s')
    ensures Inv(s', q)
  {
    var o := a.o;
    assert OpOk(s, q, o);
    var op := s.ops[o];
    assert s.slots[op.addr := s.slots[op.addr]] == s.slots;
    if a.FailCanceled? || a.CbCanceled? {
      ReturnedIsIdle(s.ts, q, op.phase.c, op.timer);
    }
    OpFrame(s, q, o, s');
  }

  lemma DrawKeeps(s: State, q: seq<Timer>, addr: Addr, kind: Kind, s': State)
    requires Inv(s, q) && DrawStep(s, addr, kind, s') && Careful(s, Draw(addr, kind))
    ensures Inv(s', q)
  {
    var n := |s.ops|;
    assert forall p :: 0 <= p < n ==> s'.ops[p] == s.ops[p];
    assert s'.ops[n] == Op(addr, kind, 0, Drawn, false);
    forall p | 0 <= p < n ensures OpOk(s', q, p) && (Active(s.ops[p]) ==> s.ops[p].addr != addr) {
      assert OpOk(s, q, p);
    }
    forall p, r | 0 <= p < r < |s'.ops| ensures Separate(s'.ops[p], s'.ops[r]) {
      if r < n { assert Separate(s.ops[p], s.ops[r]); }
    }
    forall a | 0 <= a < |s'.slots| ensures SlotOk(s', a) {
      assert SlotOk(s, a);
      if a == addr {
        assert s'.ops[n].addr == addr;
      } else if !s.slots[a].free {
        OwnerKept(s.ops, s'.ops, a);
      }
    }
    forall t | Reserved(s', t) ensures TimerOwned(s'.ops, t) || Idle(s'.ts, q, t) {
      if TimerOwned(s.ops, t) { TimerOwnerKept(s.ops, s'.ops, t); }
    }
  }

  /** A frame that is gone is used for something else. */
  lemma OverwriteKeeps(s: State, q: seq<Timer>, addr: Addr, mem: Memory, s': State)
    requires Inv(s, q) && OverwriteStep(s, addr, mem, s') && Careful(s, Overwrite(addr, mem))
    ensures Inv(s', q)
  {
    forall p | 0 <= p < |s'.ops| ensures OpOk(s', q, p) {
      assert OpOk(s, q, p);
      assert s.ops[p].tail ==> !WritesCallbackKind(Overwrite(addr, mem), s.ops[p].addr);
    }
    forall a | 0 <= a < |s'.slots| ensures SlotOk(s', a) {
      assert SlotOk(s, a);
    }
  }

  lemma CreateTimerKeeps(s: State, q: seq<Timer>, o: nat, t: Timer, s': State)
    requires Inv(s, q) && CreateTimerStep(s, o, t, s')
    ensures Inv(s', q)
  {
    assert OpOk(s, q, o);
    assert !TimerOwned(s.ops, t);
    forall p | 0 <= p < |s'.ops| ensures OpOk(s', q, p) {
      assert OpOk(s, q, p);
      if p != o { OthersSeparate(s, q, o, p); }
    }
    forall p, r | 0 <= p < r < |s'.ops| ensures Separate(s'.ops[p], s'.ops[r]) {
      assert Separate(s.ops[p], s.ops[r]);
    }
    forall a | 0 <= a < |s'.slots| ensures SlotOk(s', a) {
      assert SlotOk(s, a);
      if !s.slots[a].free { OwnerKept(s.ops, s'.ops, a); }
    }
    forall x | Reserved(s', x) ensures TimerOwned(s'.ops, x) || Idle(s'.ts, q, x) {
      if TimerOwned(s.ops, x) { TimerOwnerKept(s.ops, s'.ops, x); }
    }
  }

  /** Operation o takes step a on its own timer. */
  ghost predicate OwnTimerStep(s: State, q: seq<Timer>, o: nat, a: TP.Action, s': State, q': seq<Timer>) {
    && Inv(s, q) && o < |s.ops| && TP.Next(s.ts, a, s'.ts) && TS.OnlyStartAdds(q, a, q') && TS.Inv(s'.ts, q')
    && |s'.ops| == |s.ops| && s' == s.(ts := s'.ts, ops := s.ops[o := s.ops[o].(phase := s'.ops[o].phase)])
    && OwnsTimer(s.ops[o]) && OwnsTimer(s'.ops[o])
    && !a.CancelManyBegin? && forall t :: Concerns(a, t) ==> t == s.ops[o].timer
  }

  lemma OwnTimerOthers(s: State, q: seq<Timer>, o: nat, a: TP.Action, s': State, q': seq<Timer>, p: nat)
    requires OwnTimerStep(s, q, o, a, s', q') && p < |s.ops| && p != o
    ensures OpOk(s', q', p)
  {
    assert OpOk(s, q, p);
    OthersSeparate(s, q, o, p);
    if OwnsTimer(s.ops[p]) {
      TimerPhaseStays(s.ts, q, a, s'.ts, q', s.ops[p]);
    } else {
      NoTimerPhase(s.ts, q, s'.ts, q', s.ops[p]);
    }
  }

  lemma OwnTimerReserved(s: State, q: seq<Timer>, o: nat, a: TP.Action, s': State, q': seq<Timer>, t: Timer)
    requires OwnTimerStep(s, q, o, a, s', q') && Reserved(s, t)
    ensures TimerOwned(s'.ops, t) || Idle(s'.ts, q', t)
  {
    if TimerOwned(s.ops, t) {
      TimerOwnerKept(s.ops, s'.ops, t);
    } else {
      assert s.ops[o].timer != t;
      IdleStays(s.ts, q, a, s'.ts, q', t);
    }
  }

  lemma OwnTimerFrame(s: State, q: seq<Timer>, o: nat, a: TP.Action, s': State, q': seq<Timer>)
    requires OwnTimerStep(s, q, o, a, s', q') && OpOk(s', q', o)
    ensures Inv(s', q')
  {
    PoolConstant(s.ts, a, s'.ts);
    forall p | 0 <= p < |s'.ops| ensures OpOk(s', q', p) {
      if p != o { OwnTimerOthers(s, q, o, a, s', q', p); }
    }
    forall p, r | 0 <= p < r < |s'.ops| ensures Separate(s'.ops[p], s'.ops[r]) {
      assert Separate(s.ops[p], s.ops[r]);
    }
    forall a | 0 <= a < |s'.slots| ensures SlotOk(s', a) {
      assert SlotOk(s, a);
      if !s.slots[a].free { OwnerKept(s.ops, s'.ops, a); }
    }
    forall t | Reserved(s', t) ensures TimerOwned(s'.ops, t) || Idle(s'.ts, q', t) {
      OwnTimerReserved(s, q, o, a, s', q', t);
    }
  }

  lemma NoTimerPhase(ts: TP.State, q: seq<Timer>, ts': TP.State, q': seq<Timer>, op: Op)
    requires TimerPhaseOk(ts, q, op) && !OwnsTimer(op)
    ensures TimerPhaseOk(ts', q', op)
  {
  }

  lemma StartTimerKeeps(s: State, q: seq<Timer>, o: nat, s': State) returns (q': seq<Timer>)
    requires Inv(s, q) && StartTimerStep(s, o, s')
    ensures Inv(s', q')
  {
    assert OpOk(s, q, o);
    var t := s.ops[o].timer;
    q' := TS.NextKeepsInv(s.ts, q, TP.StartBegin(t), s'.ts);
    assert s'.ts.calls == s.ts.calls;
    OwnTimerFrame(s, q, o, TP.StartBegin(t), s', q');
  }

  lemma QueueTimerKeeps(s: State, q: seq<Timer>, o: nat, j: nat, s': State) returns (q': seq<Timer>)
    requires Inv(s, q) && QueueTimerStep(s, o, j, s')
    ensures Inv(s', q')
  {
    assert OpOk(s, q, o);
    var t := s.ops[o].timer;
    q' := TS.NextKeepsInv(s.ts, q, TP.StartQueue(t, j), s'.ts);
    assert s'.ts.calls == s.ts.calls;
    OwnTimerFrame(s, q, o, TP.StartQueue(t, j), s', q');
  }

  /** margo_cb, or a failed submission, begins to cancel the timer. */
  lemma CancelTimerKeeps(s: State, q: seq<Timer>, a: Action, s': State) returns (q': seq<Timer>)
    requires Inv(s, q) && CancelTimerStep(s, a, s')
    ensures Inv(s', q')
  {
    var o := a.o;
    assert OpOk(s, q, o);
    var t := s.ops[o].timer;
    q' := TS.NextKeepsInv(s.ts, q, TP.CancelBegin(t), s'.ts);
    assert s'.ts.calls == s.ts.calls + [TP.Call([t], TP.Marked)];
    assert CancelPending(s'.ts, q', |s.ts.calls|, t);
    OwnTimerFrame(s, q, o, TP.CancelBegin(t), s', q');
  }

  /** The slot of operation o goes back to the arena. */
  lemma ReleaseFrame(s: State, q: seq<Timer>, o: nat, op: Op, link: nat, s': State)
    requires Inv(s, q) && o < |s.ops| && Active(s.ops[o]) && op == s.ops[o].(phase := Done, tail := op.tail)
    requires !OwnsTimer(s.ops[o]) && s.ops[o].addr < |s.slots|
    requires s' == Release(s.(ops := s.ops[o := op]), op.addr, link) ||
             s' == GiveBack(s.(ops := s.ops[o := op]), op.addr, link)
    requires op.tail ==> op.kind == Eventual
    ensures Inv(s', q)
  {
    assert OpOk(s, q, o);
    forall p | 0 <= p < |s'.ops| ensures OpOk(s', q, p) {
      assert OpOk(s, q, p);
      if p != o { OthersSeparate(s, q, o, p); }
    }
    forall p, r | 0 <= p < r < |s'.ops| ensures Separate(s'.ops[p], s'.ops[r]) {
      assert Separate(s.ops[p], s.ops[r]);
    }
    forall a | 0 <= a < |s'.slots| ensures SlotOk(s', a) {
      assert SlotOk(s, a);
      if !s'.slots[a].free { OwnerKept(s.ops, s'.ops, a); }
    }
    forall t | Reserved(s', t) ensures TimerOwned(s'.ops, t) || Idle(s'.ts, q, t) {
      if TimerOwned(s.ops, t) { TimerOwnerKept(s.ops, s'.ops, t); }
    }
  }

  lemma ReleaseKeeps(s: State, q: seq<Timer>, a: Action, s': State)
    requires Inv(s, q) && GiveBackStep(s, a, s')
    ensures Inv(s', q)
  {
    assert OpOk(s, q, a.o);
    ReleaseFrame(s, q, a.o, s.ops[a.o].(phase := Done), a.link, s');
  }

  lemma TailKeeps(s: State, q: seq<Timer>, o: nat, link: nat, s': State)
    requires Inv(s, q) && TailStep(s, o, link, s')
    ensures Inv(s', q)
  {
    assert OpOk(s, q, o);
    if s.ops[o].phase == Called {
      ReleaseFrame(s, q, o, s.ops[o].(phase := Done, tail := false), link, s');
    } else {
      forall p | 0 <= p < |s'.ops| ensures OpOk(s', q, p) {
        assert OpOk(s, q, p);
      }
      forall p, r | 0 <= p < r < |s'.ops| ensures Separate(s'.ops[p], s'.ops[r]) {
        assert Separate(s.ops[p], s.ops[r]);
      }
      forall a | 0 <= a < |s'.slots| ensures SlotOk(s', a) {
        assert SlotOk(s, a);
        if !s.slots[a].free { OwnerKept(s.ops, s'.ops, a); }
      }
      forall t | Reserved(s', t) ensures TimerOwned(s'.ops, t) || Idle(s'.ts, q, t) {
        if TimerOwned(s.ops, t) { TimerOwnerKept(s.ops, s'.ops, t); }
      }
    }
  }

  lemma NextKeepsInv(s: State, q: seq<Timer>, a: Action, s': State) returns (q': seq<Timer>)
    requires Inv(s, q) && Next(s, a, s') && Careful(s, a)
    ensures Inv(s', q')
  {
    q' := q;
    if a.Environment? {
      q' := EnvironmentKeeps(s, q, a.a, s');
    } else if a.Draw? {
      DrawKeeps(s, q, a.addr, a.kind, s');
    } else if a.Overwrite? {
      OverwriteKeeps(s, q, a.addr, a.mem, s');
    } else if a.CreateTimer? {
      CreateTimerKeeps(s, q, a.o, a.t, s');
    } else if a.StartTimer? {
      q' := StartTimerKeeps(s, q, a.o, s');
    } else if a.QueueTimer? {
      q' := QueueTimerKeeps(s, q, a.o, a.j, s');
    } else if a.ReleaseFailed? || a.Wait? {
      ReleaseKeeps(s, q, a, s');
    } else if a.Tail? {
      TailKeeps(s, q, a.o, a.link, s');
    } else if PrivateStep(s, a, s') {
      PrivateKeeps(s, q, a, s');
    } else {
      q' := CancelTimerKeeps(s, q, a, s');
    }
  }

  // ---- runs ----------------------------------------------------------------------------------

  datatype Run = Run(states: seq<State>, actions: seq<Action>)

  ghost predicate Init(s: State) {
    && Shape(s) && TS.Init(s.ts)
    && s.ops == []
    && forall a :: 0 <= a < |s.slots| ==> s.slots[a].free && s.slots[a].gets == s.slots[a].releases == 0
  }

  ghost predicate StepAt(r: Run, i: nat) {
    i < |r.actions| && i + 1 < |r.states| && Next(r.states[i], r.actions[i], r.states[i + 1])
  }

  ghost predicate CarefulAt(r: Run, i: nat) {
    i < |r.actions| && i < |r.states| && Careful(r.states[i], r.actions[i])
  }

  ghost predicate Steps(r: Run) {
    |r.states| == |r.actions| + 1 && forall i :: 0 <= i < |r.actions| ==> StepAt(r, i)
  }

  ghost predicate ValidRun(r: Run) {
    && Steps(r)
    && Init(r.states[0])
    && forall i :: 0 <= i < |r.actions| ==> CarefulAt(r, i)
  }

  ghost predicate Consistent(s: State) {
    exists q :: Inv(s, q)
  }

  lemma InitIsConsistent(s: State)
    requires Init(s)
    ensures Consistent(s)
  {
    TS.InitIsConsistent(s.ts);
    forall t | Reserved(s, t) ensures Idle(s.ts, [], t) {
      assert TP.InRange(s.ts, t);
    }
    assert Inv(s, []);
  }

  lemma StepKeepsConsistent(r: Run, i: nat)
    requires ValidRun(r) && i < |r.actions| && Consistent(r.states[i])
    ensures Consistent(r.states[i + 1])
  {
    assert StepAt(r, i) && CarefulAt(r, i);
    var q :| Inv(r.states[i], q);
    q := NextKeepsInv(r.states[i], q, r.actions[i], r.states[i + 1]);
  }

  lemma {:induction false} ConsistentAt(r: Run, i: nat)
    requires ValidRun(r) && i < |r.states|
    ensures Consistent(r.states[i])
    decreases i
  {
    if i == 0 {
      InitIsConsistent(r.states[0]);
    } else {
      ConsistentAt(r, i - 1);
      StepKeepsConsistent(r, i - 1);
    }
  }

  // ---- theorems --------------------------------------------------------------------------------

  /** Timeout safety: when margo_timeout_cb runs for timer t, the request it works on has
      not been released and belongs to an operation that is still being submitted, in
      flight, or waiting in margo_timer_cancel.  In particular it never runs on a request
      after margo_cb delivered the result or a failed submission returned. */
  lemma TimeoutOnlyOnLiveRequest(r: Run, i: nat, t: Timer) returns (o: nat)
    requires ValidRun(r) && i < |r.states| && Reserved(r.states[i], t)
    requires TS.CallbackActive(r.states[i].ts, t)
    ensures o < |r.states[i].ops|
    ensures var op := r.states[i].ops[o];
            && op.timer == t && OwnsTimer(op) && op.phase != Armed
            && op.addr < |r.states[i].slots|
            && !r.states[i].slots[op.addr].free
            && r.states[i].slots[op.addr].mem == Memory(t, op.kind)
    ensures forall p :: 0 <= p < |r.states[i].ops| && p != o && Active(r.states[i].ops[p]) ==>
              r.states[i].ops[p].addr != r.states[i].ops[o].addr
  {
    var s := r.states[i];
    ConsistentAt(r, i);
    var q :| Inv(s, q);
    if Idle(s.ts, q, t) { TS.QuietIsSilent(s.ts, q, t); }
    o :| 0 <= o < |s.ops| && OwnsTimer(s.ops[o]) && s.ops[o].timer == t;
    assert OpOk(s, q, o);
    if s.ops[o].phase == Armed { TS.QuietIsSilent(s.ts, q, t); }
    forall p | 0 <= p < |s.ops| && p != o && Active(s.ops[p]) ensures s.ops[p].addr != s.ops[o].addr {
      OthersSeparate(s, q, o, p);
    }
  }

  /** margo_cb delivers by the kind the request was submitted with, whatever the slot was
      used for before. */
  lemma DeliversByKind(r: Run, i: nat, o: nat)
    requires ValidRun(r) && i < |r.actions| && r.actions[i] == Deliver(o) && o < |r.states[i].ops|
    ensures o < |r.states[i + 1].ops|
    ensures r.states[i + 1].ops[o].phase == (if r.states[i].ops[o].kind == Callback then Called else EventualSet)
  {
    ConsistentAt(r, i);
    var q :| Inv(r.states[i], q);
    assert StepAt(r, i) && OpOk(r.states[i], q, o);
  }

  /** Operations on a slot: all of them, and those that are finished. */
  ghost function Submitted(ops: seq<Op>, addr: Addr): nat {
    if ops == [] then 0
    else Submitted(ops[..|ops| - 1], addr) + (if ops[|ops| - 1].addr == addr then 1 else 0)
  }

  ghost function Finished(ops: seq<Op>, addr: Addr): nat {
    if ops == [] then 0
    else Finished(ops[..|ops| - 1], addr) + (if ops[|ops| - 1].addr == addr && !Active(ops[|ops| - 1]) then 1 else 0)
  }

  lemma {:induction false} CountUpdate(ops: seq<Op>, o: nat, op: Op)
    requires o < |ops| && op.addr == ops[o].addr
    ensures forall a :: Submitted(ops[o := op], a) == Submitted(ops, a)
    ensures forall a :: Finished(ops[o := op], a) == Finished(ops, a) +
              (if a == op.addr then (if Active(op) then 0 else 1) - (if Active(ops[o]) then 0 else 1) else 0)
  {
    var n := |ops| - 1;
    if o == n {
      assert ops[o := op][..n] == ops[..n];
    } else {
      CountUpdate(ops[..n], o, op);
      assert ops[o := op][..n] == ops[..n][o := op];
    }
  }

  lemma CountAppend(ops: seq<Op>, op: Op)
    ensures forall a :: Submitted(ops + [op], a) == Submitted(ops, a) + (if a == op.addr then 1 else 0)
    ensures forall a :: Finished(ops + [op], a) == Finished(ops, a) + (if a == op.addr && !Active(op) then 1 else 0)
  {
    assert (ops + [op])[..|ops|] == ops;
  }

  /** Handed out once per submission, taken back once per finished submission. */
  ghost predicate ReleasedOnce(s: State) {
    forall a :: 0 <= a < |s.slots| ==>
      s.slots[a].gets == Submitted(s.ops, a) && s.slots[a].releases == Finished(s.ops, a)
  }

  /** A step that neither draws nor releases keeps the counters and nobody finishes. */
  lemma QuietStepCounts(s: State, a: Action, s': State)
    requires Next(s, a, s') && !a.Draw? && !a.Overwrite? && !a.ReleaseFailed? && !a.Wait? && !a.Tail? && !a.Environment?
    ensures a.o < |s.ops| == |s'.ops| && s'.ops == s.ops[a.o := s'.ops[a.o]]
    ensures s'.ops[a.o].addr == s.ops[a.o].addr && Active(s.ops[a.o]) && Active(s'.ops[a.o])
    ensures |s'.slots| == |s.slots|
    ensures forall x :: 0 <= x < |s.slots| ==>
              s'.slots[x].gets == s.slots[x].gets && s'.slots[x].releases == s.slots[x].releases
  {
  }

  lemma ReleaseStepCounts(s: State, q: seq<Timer>, o: nat, op: Op, s': State)
    requires Inv(s, q) && ReleasedOnce(s) && o < |s.ops|
    requires s'.ops == s.ops[o := op] && op.addr == s.ops[o].addr && |s'.slots| == |s.slots|
    requires forall x :: 0 <= x < |s.slots| ==> s'.slots[x].gets == s.slots[x].gets
    requires forall x :: 0 <= x < |s.slots| ==>
      s'.slots[x].releases == s.slots[x].releases + (if x == op.addr && Active(s.ops[o]) && !Active(op) then 1 else 0)
    requires Active(op) ==> Active(s.ops[o])
    ensures ReleasedOnce(s')
  {
    CountUpdate(s.ops, o, op);
  }

  lemma GiveBackCounts(s: State, q: seq<Timer>, a: Action, s': State)
    requires Inv(s, q) && GiveBackStep(s, a, s') && ReleasedOnce(s)
    ensures ReleasedOnce(s')
  {
    assert OpOk(s, q, a.o);
    ReleaseStepCounts(s, q, a.o, s'.ops[a.o], s');
  }

  lemma TailCounts(s: State, q: seq<Timer>, o: nat, link: nat, s': State)
    requires Inv(s, q) && TailStep(s, o, link, s') && ReleasedOnce(s)
    ensures ReleasedOnce(s')
  {
    assert OpOk(s, q, o);
    ReleaseStepCounts(s, q, o, s'.ops[o], s');
  }

  lemma DrawCounts(s: State, addr: Addr, kind: Kind, s': State)
    requires DrawStep(s, addr, kind, s') && ReleasedOnce(s)
    ensures ReleasedOnce(s')
  {
    CountAppend(s.ops, Op(addr, kind, 0, Drawn, false));
  }

  lemma StepReleasesOnce(s: State, q: seq<Timer>, a: Action, s': State)
    requires Inv(s, q) && Next(s, a, s') && ReleasedOnce(s)
    ensures ReleasedOnce(s')
  {
    if a.Draw? {
      DrawCounts(s, a.addr, a.kind, s');
    } else if a.ReleaseFailed? || a.Wait? {
      GiveBackCounts(s, q, a, s');
    } else if a.Tail? {
      TailCounts(s, q, a.o, a.link, s');
    } else if !a.Environment? && !a.Overwrite? {
      QuietStepCounts(s, a, s');
      CountUpdate(s.ops, a.o, s'.ops[a.o]);
    }
  }

  lemma RunStepReleasesOnce(r: Run, i: nat)
    requires ValidRun(r) && i < |r.actions| && ReleasedOnce(r.states[i])
    ensures ReleasedOnce(r.states[i + 1])
  {
    ConsistentAt(r, i);
    assert StepAt(r, i);
    var q :| Inv(r.states[i], q);
    StepReleasesOnce(r.states[i], q, r.actions[i], r.states[i + 1]);
  }

  /** Request ownership: at any time the arena has handed a slot out exactly once for every
      submission and taken it back exactly once for every finished one, so no request is
      lost and none is released twice. */
  lemma {:induction false} ReleasedExactlyOnce(r: Run, i: nat)
    requires ValidRun(r) && i < |r.states|
    ensures ReleasedOnce(r.states[i])
    decreases i
  {
    if i > 0 {
      ReleasedExactlyOnce(r, i - 1);
      RunStepReleasesOnce(r, i - 1);
    }
  }

  /** A slot is on the free list exactly when no unfinished operation works on it. */
  lemma FreeIffUnowned(r: Run, i: nat, a: Addr)
    requires ValidRun(r) && i < |r.states| && a < |r.states[i].slots|
    ensures r.states[i].slots[a].free <==> !HasOwner(r.states[i].ops, a)
  {
    var s := r.states[i];
    ConsistentAt(r, i);
    var q :| Inv(s, q);
    assert SlotOk(s, a);
    if o :| 0 <= o < |s.ops| && Active(s.ops[o]) && s.ops[o].addr == a {
      assert OpOk(s, q, o);
    }
  }

  // ---- the condition is needed ------------------------------------------------------------------

  /** margo_cb tests req->kind once more after it has set the eventual.  If the waiter has
      released the slot by then and a callback-kind submission has drawn it, the test
      succeeds and releases the slot under the new submission: the arena then holds a slot
      as free that an unfinished operation works on. */
  lemma CarelessDrawIsFatal(s: State, q: seq<Timer>, addr: Addr, p: nat, s': State) returns (s'': State)
    requires Inv(s, q) && Next(s, Draw(addr, Callback), s')
    requires p < |s.ops| && s.ops[p].tail && s.ops[p].addr == addr
    ensures Next(s', Tail(p, 0), s'')
    ensures s''.slots[addr].free && HasOwner(s''.ops, addr)
  {
    assert OpOk(s, q, p);
    var n := |s.ops|;
    assert s'.ops[n].addr == addr && s'.ops[p] == s.ops[p];
    assert s.ops[p].phase == Done;
    var s1 := s'.(ops := s'.ops[p := s'.ops[p].(tail := false)]);
    s'' := Release(s1, addr, 0);
    assert s''.ops[n] == s'.ops[n];
  }

  /** The frame of a blocking call can meet the same fate with no new submission at all: once
      it is overwritten with the callback kind, the late test releases a stack address into
      the arena. */
  lemma CarelessOverwriteIsFatal(s: State, q: seq<Timer>, addr: Addr, timer: Timer, p: nat, s': State)
    returns (s'': State)
    requires Inv(s, q) && Next(s, Overwrite(addr, Memory(timer, Callback)), s')
    requires p < |s.ops| && s.ops[p].tail && s.ops[p].addr == addr
    ensures Next(s', Tail(p, 0), s'')
    ensures s''.slots[addr].stack && s''.slots[addr].releases == s''.slots[addr].gets + 1
  {
    assert OpOk(s, q, p) && SlotOk(s, addr);
    assert s.ops[p].phase == Done;
    var s1 := s'.(ops := s'.ops[p := s'.ops[p].(tail := false)]);
    s'' := Release(s1, addr, 0);
  }

  /** For a consistent state, taking a slot into use and overwriting a frame keep the
      invariant exactly when they are careful. */
  lemma CarefulIffKept(s: State, q: seq<Timer>, a: Action, s': State)
    requires Inv(s, q) && Next(s, a, s') && (a.Draw? || a.Overwrite?)
    ensures Inv(s', q) <==> Careful(s, a)
  {
    if Careful(s, a) {
      if a.Draw? {
        DrawKeeps(s, q, a.addr, a.kind, s');
      } else {
        OverwriteKeeps(s, q, a.addr, a.mem, s');
      }
    } else {
      var p :| 0 <= p < |s.ops| && s.ops[p].tail && WritesCallbackKind(a, s.ops[p].addr);
      assert OpOk(s, q, p);
      assert s'.ops[p] == s.ops[p] && !MemoryOk(s'.ops[p], s'.slots[a.addr]);
      assert !OpOk(s', q, p);
    }
  }

  // The situation arises with one slot, or one stack frame, and no timers.

  const NO_TIMERS: TP.State :=
    TP.State(DL.Links(0, [0], [0]), [false], [0], [false], [0], 0, false, false, TP.Free, [], [])

  function Demo(stack: bool, k: nat): State {
    var phase := if k == 1 then Drawn else if k == 2 then Ready else if k == 3 then InFlight
                 else if k == 4 then Delivering else if k == 5 then EventualSet else Done;
    State(NO_TIMERS, [false],
          [if k == 0 then Slot(stack, true, ZEROED, 0, 0) else if k < 6 then Slot(stack, false, ZEROED, 1, 0)
           else Slot(stack, true, ZEROED, 1, 1)],
          if k == 0 then [] else [Op(0, Eventual, 0, phase, k >= 5)])
  }

  function DemoAction(k: nat): Action {
    if k == 0 then Draw(0, Eventual) else if k == 1 then NoTimer(0) else if k == 2 then SubmitOk(0)
    else if k == 3 then CbBegin(0) else if k == 4 then Deliver(0) else Wait(0, 0)
  }

  lemma DemoShape(stack: bool, k: nat)
    requires k < 7
    ensures Shape(Demo(stack, k))
  {
  }

  lemma DemoPrivate(stack: bool, k: nat)
    requires 1 <= k < 5 && Shape(Demo(stack, k))
    ensures PrivateStep(Demo(stack, k), DemoAction(k), Demo(stack, k + 1))
  {
  }

  lemma DemoDraw(stack: bool)
    ensures DrawStep(Demo(stack, 0), 0, Eventual, Demo(stack, 1))
  {
  }

  lemma DemoWait(stack: bool)
    requires Shape(Demo(stack, 5))
    ensures GiveBackStep(Demo(stack, 5), Wait(0, 0), Demo(stack, 6))
  {
  }

  lemma DemoStep(stack: bool, k: nat)
    requires k < 6
    ensures Next(Demo(stack, k), DemoAction(k), Demo(stack, k + 1))
  {
    DemoShape(stack, k);
    if k == 0 {
      DemoDraw(stack);
    } else if k < 5 {
      DemoPrivate(stack, k);
    } else {
      DemoWait(stack);
    }
  }

  /** A valid run to a state in which the next callback-kind draw of the slot, or the next
      overwriting of the frame with that kind, is fatal. */
  lemma CarelessStepIsReachable(stack: bool) returns (r: Run)
    ensures ValidRun(r)
    ensures var s := r.states[|r.states| - 1];
            && |s.ops| == 1 && |s.slots| == 1 && s.slots[0].free && s.slots[0].stack == stack
            && s.ops[0].tail && s.ops[0].addr == 0 && s.ops[0].phase == Done
  {
    r := Run(seq(7, (k: nat) => Demo(stack, k)), seq(6, (k: nat) => DemoAction(k)));
    forall k | 0 <= k < |r.actions| ensures StepAt(r, k) && CarefulAt(r, k) {
      DemoStep(stack, k);
    }
    assert r.states[0] == Demo(stack, 0) && r.states[6] == Demo(stack, 6);
    assert Init(Demo(stack, 0));
  }
}
