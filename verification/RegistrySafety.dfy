/** Integrity of the registry under every operation, and the ways to lose it. */
module RegistrySafety {
  import opened Common
  import opened Names
  import opened Registry

  // ---- counting -------------------------------------------------------------

  lemma {:induction false} CountFacts(list: seq<nat>, h: nat)
    ensures Count(list, h) <= |list|
    ensures Count(list, h) > 0 <==> h in list
    decreases |list|
  {
    if list != [] {
      CountFacts(list[..|list| - 1], h);
      assert list == list[..|list| - 1] + [list[|list| - 1]];
    }
  }

  lemma {:induction false} UsesBound(st: State, xs: seq<Xstream>, h: nat)
    ensures Uses(st, xs, h) <= Slots(st, xs)
    decreases |xs|
  {
    if xs != [] {
      UsesBound(st, xs[..|xs| - 1], h);
      CountFacts(SchedOf(st, xs[|xs| - 1].handle), h);
    }
  }

  lemma UsesAppend(st: State, xs: seq<Xstream>, x: Xstream, h: nat)
    ensures Uses(st, xs + [x], h) == Uses(st, xs, h) + Count(SchedOf(st, x.handle), h)
    ensures Slots(st, xs + [x]) == Slots(st, xs) + |SchedOf(st, x.handle)|
  {
    assert (xs + [x])[..|xs + [x]| - 1] == xs;
  }

  /** Only the schedulers of the xstreams matter. */
  lemma {:induction false} UsesFrame(st: State, st': State, xs: seq<Xstream>, h: nat)
    requires forall j :: 0 <= j < |xs| ==> SchedOf(st', xs[j].handle) == SchedOf(st, xs[j].handle)
    ensures Uses(st', xs, h) == Uses(st, xs, h) && Slots(st', xs) == Slots(st, xs)
    decreases |xs|
  {
    if xs != [] {
      UsesFrame(st, st', xs[..|xs| - 1], h);
    }
  }

  lemma {:induction false} UsesUpdate(st: State, xs: seq<Xstream>, j: nat, x: Xstream, h: nat)
    requires j < |xs|
    ensures Uses(st, xs[j := x], h) + Count(SchedOf(st, xs[j].handle), h) ==
            Uses(st, xs, h) + Count(SchedOf(st, x.handle), h)
    ensures Slots(st, xs[j := x]) + |SchedOf(st, xs[j].handle)| == Slots(st, xs) + |SchedOf(st, x.handle)|
    decreases |xs|
  {
    var n := |xs| - 1;
    if j == n {
      assert xs[j := x][..n] == xs[..n];
    } else {
      UsesUpdate(st, xs[..n], j, x, h);
      assert xs[j := x][..n] == xs[..n][j := x];
    }
  }

  lemma UsesSwapRemove(st: State, xs: seq<Xstream>, j: nat, h: nat)
    requires j < |xs|
    ensures Uses(st, SwapRemove(xs, j), h) + Count(SchedOf(st, xs[j].handle), h) == Uses(st, xs, h)
    ensures Slots(st, SwapRemove(xs, j)) + |SchedOf(st, xs[j].handle)| == Slots(st, xs)
  {
    var ys := xs[j := xs[|xs| - 1]];
    UsesUpdate(st, xs, j, xs[|xs| - 1], h);
    assert ys[|ys| - 1] == xs[|xs| - 1];
    assert ys[..|ys| - 1] == SwapRemove(xs, j);
  }

  /** One xstream's references are part of the total. */
  lemma {:induction false} UsesAtLeast(st: State, xs: seq<Xstream>, j: nat, h: nat)
    requires j < |xs|
    ensures Count(SchedOf(st, xs[j].handle), h) <= Uses(st, xs, h)
    decreases |xs|
  {
    var n := |xs| - 1;
    if j < n {
      UsesAtLeast(st, xs[..n], j, h);
    }
  }

  // ---- handles --------------------------------------------------------------

  ghost predicate SameHandles(ps: seq<Pool>, ps': seq<Pool>) {
    forall i: int, h: nat :: HasHandle(ps', i, h) <==> HasHandle(ps, i, h)
  }

  lemma AdjustHandles(ps: seq<Pool>, list: seq<nat>, d: int, primary: bool)
    ensures SameHandles(ps, AdjustAll(ps, list, d, primary))
  {
  }

  lemma RegisteredFrame(ps: seq<Pool>, ps': seq<Pool>, h: nat)
    requires SameHandles(ps, ps')
    ensures Registered(ps', h) <==> Registered(ps, h)
  {
    if Registered(ps, h) {
      var i :| HasHandle(ps, i, h);
      assert HasHandle(ps', i, h);
    }
    if Registered(ps', h) {
      var i :| HasHandle(ps', i, h);
      assert HasHandle(ps, i, h);
    }
  }

  lemma AllRegisteredFrame(ps: seq<Pool>, ps': seq<Pool>, list: seq<nat>)
    requires SameHandles(ps, ps')
    ensures AllRegistered(ps', list) <==> AllRegistered(ps, list)
  {
    forall k | 0 <= k < |list| ensures Registered(ps', list[k]) <==> Registered(ps, list[k]) {
      RegisteredFrame(ps, ps', list[k]);
    }
  }

  lemma KnownIsAll(ps: seq<Pool>, list: seq<nat>)
    requires AllRegistered(ps, list)
    ensures Known(ps, list) == |list| && list[..Known(ps, list)] == list
  {
  }

  // ---- adding a pool --------------------------------------------------------

  lemma UnusedPoolUses(st: State, h: nat)
    requires forall j :: RefersOk(st, j)
    requires !Registered(st.pools, h)
    ensures Uses(st, st.xstreams, h) == 0
  {
    NoReference(st, st.xstreams, h);
  }

  lemma {:induction false} NoReference(st: State, xs: seq<Xstream>, h: nat)
    requires |xs| <= |st.xstreams| && xs == st.xstreams[..|xs|]
    requires forall j :: RefersOk(st, j)
    requires !Registered(st.pools, h)
    ensures Uses(st, xs, h) == 0
    decreases |xs|
  {
    if xs != [] {
      var n := |xs| - 1;
      assert xs[..n] == st.xstreams[..n];
      NoReference(st, xs[..n], h);
      assert RefersOk(st, n) && xs[n] == st.xstreams[n];
      CountFacts(SchedOf(st, xs[n].handle), h);
    }
  }

  lemma AppendedHandles(ps: seq<Pool>, p: Pool)
    requires HandlesOk(ps) && !Registered(ps, p.handle)
    ensures HandlesOk(ps + [p])
  {
    var ps' := ps + [p];
    forall i: int, g: nat ensures HasHandle(ps', i, g) <==> HasHandle(ps, i, g) || (i == |ps| && g == p.handle) {
    }
    forall i, j, g | HasHandle(ps', i, g) && HasHandle(ps', j, g) && i != j ensures g == 0 {
      assert HasHandle(ps, i, g) || HasHandle(ps, j, g);
    }
  }

  /** Adding a pool keeps integrity when its handle is new; a NULL handle counts as new. */
  lemma AddPoolKeeps(st: State, name: Option<string>, created: Option<nat>)
    requires Integrity(st) && (created.Some? ==> !Registered(st.pools, created.value))
    ensures Integrity(AddPool(st, name, created).0)
  {
    var st' := AddPool(st, name, created).0;
    if st' != st {
      var ps, ps', h := st.pools, st'.pools, created.value;
      AppendedHandles(ps, ps'[|ps|]);
      UnusedPoolUses(st, h);
      forall i ensures CountOk(st', i) {
        assert CountOk(st, i);
        if 0 <= i < |ps'| {
          UsesFrame(st, st', st.xstreams, ps'[i].handle);
        }
      }
      UsesFrame(st, st', st.xstreams, 0);
      forall j ensures RefersOk(st', j) {
        assert RefersOk(st, j);
        if 0 <= j < |st.xstreams| {
          MorePools(ps, ps', SchedOf(st, st.xstreams[j].handle));
        }
      }
    }
  }

  lemma MorePools(ps: seq<Pool>, ps': seq<Pool>, list: seq<nat>)
    requires AllRegistered(ps, list)
    requires forall i, h: nat :: HasHandle(ps, i, h) ==> HasHandle(ps', i, h)
    ensures AllRegistered(ps', list)
  {
    forall k | 0 <= k < |list| ensures Registered(ps', list[k]) {
      assert Registered(ps, list[k]);
      var i :| HasHandle(ps, i, list[k]);
      assert HasHandle(ps', i, list[k]);
    }
  }

  lemma AddExternalPoolKeeps(st: State, name: Option<string>, h: nat)
    requires Integrity(st)
    ensures Integrity(AddExternalPool(st, name, h).0)
  {
    if !Registered(st.pools, h) {
      AddPoolKeeps(st, name, Some(h));
    }
  }

  ghost predicate AllDistinct(ps: seq<Pool>) {
    forall i, j, h: nat :: HasHandle(ps, i, h) && HasHandle(ps, j, h) ==> i == j
  }

  /** The handles stay distinct exactly when a NULL handle is not registered again. */
  lemma HandlesDistinctIff(st: State, name: Option<string>, h: nat)
    requires AllDistinct(st.pools) && AddExternalPool(st, name, h).1
    ensures AllDistinct(AddExternalPool(st, name, h).0.pools) <==>
            !(h == 0 && exists i :: HasHandle(st.pools, i, 0))
  {
    var ps, ps' := st.pools, AddExternalPool(st, name, h).0.pools;
    forall i: int, g: nat ensures HasHandle(ps', i, g) <==> HasHandle(ps, i, g) || (i == |ps| && g == h) {
    }
    if exists i :: HasHandle(ps, i, h) {
      var i :| HasHandle(ps, i, h);
      assert HasHandle(ps', i, h) && HasHandle(ps', |ps|, h);
    }
  }

  /** The NULL handle is never found, so it can be registered twice. */
  lemma NullTwice()
    ensures var st := State([Pool("a", 0, 0, 0, false)], [], map[]);
      && Integrity(st) && AllDistinct(st.pools) && AddExternalPool(st, Some("b"), 0).1
      && !AllDistinct(AddExternalPool(st, Some("b"), 0).0.pools)
  {
    var st := State([Pool("a", 0, 0, 0, false)], [], map[]);
    assert HasHandle(st.pools, 0, 0);
    assert AddExternalPool(st, Some("b"), 0).1;
    HandlesDistinctIff(st, Some("b"), 0);
  }

  // ---- counting up and down -------------------------------------------------

  /** Taking off what was put on gives the counts back. */
  lemma AdjustUndoes(p: Pool, list: seq<nat>, primary: bool)
    requires p.numXstreams < UintRange
    ensures Adjust(Adjust(p, list, 1, primary), list, -1, false) ==
            p.(usedByPrimary := p.usedByPrimary || (primary && Count(list, p.handle) > 0))
  {
    var n, c := p.numXstreams, Count(list, p.handle);
    assert ((n + c) % UintRange - c) % UintRange == n;
  }

  lemma CountInRange(st: State, i: nat)
    requires Integrity(st) && i < |st.pools|
    ensures st.pools[i].numXstreams < UintRange
  {
    assert CountOk(st, i);
    UsesBound(st, st.xstreams, st.pools[i].handle);
  }

  /** Marks of the primary xstream and references do not matter for integrity. */
  lemma FlagsOnly(st: State, st': State)
    requires Integrity(st) && st' == st.(pools := st'.pools) && |st'.pools| == |st.pools|
    requires forall i :: 0 <= i < |st.pools| ==>
               st'.pools[i] == st.pools[i].(usedByPrimary := st'.pools[i].usedByPrimary,
                   refcount := st'.pools[i].refcount)
    ensures Integrity(st')
  {
    assert SameHandles(st.pools, st'.pools);
    UsesFrame(st, st', st.xstreams, 0);
    forall i ensures CountOk(st', i) {
      assert CountOk(st, i);
      if 0 <= i < |st.pools| {
        UsesFrame(st, st', st.xstreams, st.pools[i].handle);
      }
    }
    forall j ensures RefersOk(st', j) {
      assert RefersOk(st, j);
      if 0 <= j < |st.xstreams| {
        AllRegisteredFrame(st.pools, st'.pools, SchedOf(st, st.xstreams[j].handle));
      }
    }
  }

  lemma CountedBackKeeps(st: State, list: seq<nat>, primary: bool)
    requires Integrity(st)
    ensures Integrity(st.(pools := CountedBack(st.pools, list, primary)))
  {
    var st' := st.(pools := CountedBack(st.pools, list, primary));
    forall i | 0 <= i < |st.pools| ensures st'.pools[i] == st.pools[i].(usedByPrimary := st'.pools[i].usedByPrimary) {
      CountInRange(st, i);
      AdjustUndoes(st.pools[i], list[..Known(st.pools, list)], primary);
    }
    FlagsOnly(st, st');
  }

  lemma AdjustCounts(st: State, st': State, list: seq<nat>, d: int, primary: bool)
    requires Integrity(st) && st'.pools == AdjustAll(st.pools, list, d, primary)
    requires Slots(st', st'.xstreams) < UintRange
    requires forall h: nat :: Uses(st', st'.xstreams, h) == Uses(st, st.xstreams, h) + d * Count(list, h)
    ensures forall i :: CountOk(st', i)
    ensures HandlesOk(st'.pools)
  {
    AdjustHandles(st.pools, list, d, primary);
    forall i ensures CountOk(st', i) {
      if 0 <= i < |st'.pools| {
        var h := st.pools[i].handle;
        assert CountOk(st, i);
        UsesBound(st', st'.xstreams, h);
      }
    }
  }

  // ---- adding an xstream ----------------------------------------------------

  ghost predicate NewXstream(st: State, h: nat) {
    h != 0 && !exists j :: HasXstream(st.xstreams, j, h)
  }

  ghost function WithXstream(st: State, name: string, h: nat, list: seq<nat>): State {
    State(AdjustAll(st.pools, list, 1, IsPrimary(name)), st.xstreams + [Xstream(name, h, 0)], st.sched[h := list])
  }

  lemma WithXstreamSched(st: State, name: string, h: nat, list: seq<nat>, j: nat)
    requires NewXstream(st, h) && j <= |st.xstreams|
    ensures var st' := WithXstream(st, name, h, list);
            SchedOf(st', st'.xstreams[j].handle) ==
                if j < |st.xstreams| then SchedOf(st, st.xstreams[j].handle) else list
  {
    assert j < |st.xstreams| ==> HasXstream(st.xstreams, j, st.xstreams[j].handle);
  }

  lemma WithXstreamUses(st: State, name: string, h: nat, list: seq<nat>, g: nat)
    requires NewXstream(st, h)
    ensures var st' := WithXstream(st, name, h, list);
            && Uses(st', st'.xstreams, g) == Uses(st, st.xstreams, g) + Count(list, g)
            && Slots(st', st'.xstreams) == Slots(st, st.xstreams) + |list|
  {
    var st' := WithXstream(st, name, h, list);
    forall j | 0 <= j < |st.xstreams|
      ensures SchedOf(st', st.xstreams[j].handle) == SchedOf(st, st.xstreams[j].handle)
    {
      WithXstreamSched(st, name, h, list, j);
    }
    UsesAppend(st', st.xstreams, Xstream(name, h, 0), g);
    UsesFrame(st, st', st.xstreams, g);
  }

  lemma WithXstreamRefers(st: State, name: string, h: nat, list: seq<nat>, j: int)
    requires NewXstream(st, h) && AllRegistered(st.pools, list) && RefersOk(st, j)
    ensures RefersOk(WithXstream(st, name, h, list), j)
  {
    var st' := WithXstream(st, name, h, list);
    AdjustHandles(st.pools, list, 1, IsPrimary(name));
    if 0 <= j < |st'.xstreams| {
      WithXstreamSched(st, name, h, list, j);
      AllRegisteredFrame(st.pools, st'.pools, SchedOf(st', st'.xstreams[j].handle));
    }
  }

  lemma AppendXstreamKeeps(st: State, name: string, h: nat, list: seq<nat>)
    requires Integrity(st) && NewXstream(st, h) && AllRegistered(st.pools, list)
    requires Slots(st, st.xstreams) + |list| < UintRange
    ensures Integrity(WithXstream(st, name, h, list))
  {
    var st' := WithXstream(st, name, h, list);
    forall g: nat ensures Uses(st', st'.xstreams, g) == Uses(st, st.xstreams, g) + 1 * Count(list, g) {
      WithXstreamUses(st, name, h, list, g);
    }
    WithXstreamUses(st, name, h, list, 0);
    AdjustCounts(st, st', list, 1, IsPrimary(name));
    forall j ensures RefersOk(st', j) {
      assert RefersOk(st, j);
      WithXstreamRefers(st, name, h, list, j);
    }
  }

  /** Setting up an xstream changes counts that no registered scheduler accounts for: the
      xstream was not created, or the primary one kept its scheduler, and the first pool of
      the scheduler concerned is registered. */
  ghost predicate CreationMiscounts(st: State, name: Option<string>, list: seq<nat>, answer: Answer) {
    && !NameTaken(st, name)
    && match answer
       case NoHandle => !IsPrimary(ChosenName(st, name)) && FirstRegistered(st, list)
       case KeepsScheduler(h) => FirstRegistered(st, SchedOf(st, h))
       case _ => false
  }

  ghost predicate FirstRegistered(st: State, list: seq<nat>) {
    list != [] && Registered(st.pools, list[0])
  }

  lemma AdjustMoves(p: Pool, list: seq<nat>, d: int)
    requires p.numXstreams < UintRange && p.handle in list && |list| < UintRange && (d == 1 || d == -1)
    ensures Adjust(p, list, d, false).numXstreams != p.numXstreams
  {
    CountFacts(list, p.handle);
    Drifts(p.numXstreams, Count(list, p.handle), d);
  }

  /** Counting up or down by the leading registered pools alone breaks a count, unless there
      are none. */
  lemma LoneAdjustBreaks(st: State, st': State, list: seq<nat>, d: int)
    requires Integrity(st) && FirstRegistered(st, list) && |list| < UintRange && (d == 1 || d == -1)
    requires st'.pools == AdjustAll(st.pools, list[..Known(st.pools, list)], d, false)
    requires Uses(st', st'.xstreams, list[0]) == Uses(st, st.xstreams, list[0])
    ensures !Integrity(st') && st'.pools != st.pools
  {
    var i :| HasHandle(st.pools, i, list[0]);
    CountInRange(st, i);
    assert list[..Known(st.pools, list)][0] == list[0];
    AdjustMoves(st.pools[i], list[..Known(st.pools, list)], d);
    assert CountOk(st, i) && !CountOk(st', i);
  }

  lemma LoneAdjustKeeps(st: State, list: seq<nat>, d: int)
    requires Integrity(st) && !FirstRegistered(st, list)
    ensures AdjustAll(st.pools, list[..Known(st.pools, list)], d, false) == st.pools
  {
    assert Known(st.pools, list) == 0;
    forall i | 0 <= i < |st.pools| ensures Adjust(st.pools[i], list[..0], d, false) == st.pools[i] {
      CountInRange(st, i);
    }
  }

  lemma Drifts(n: nat, c: nat, d: int)
    requires n < UintRange && 0 < c < UintRange && (d == 1 || d == -1)
    ensures (n + d * c) % UintRange != n
  {
    assert 0 <= n + d * c < UintRange ==> (n + d * c) % UintRange == n + d * c;
    assert n + d * c < 0 ==> (n + d * c) % UintRange == n + d * c + UintRange;
    assert n + d * c >= UintRange ==> (n + d * c) % UintRange == n + d * c - UintRange;
  }

  /** An entry without a handle uses no pool as far as anyone can tell. */
  lemma NullEntryUses(st: State, st': State, name: string, h: nat)
    requires st' == st.(pools := st'.pools, xstreams := st.xstreams + [Xstream(name, 0, 0)])
    ensures Uses(st', st'.xstreams, h) == Uses(st, st.xstreams, h)
    ensures Slots(st', st'.xstreams) == Slots(st, st.xstreams)
  {
    UsesAppend(st', st.xstreams, Xstream(name, 0, 0), h);
    UsesFrame(st, st', st.xstreams, h);
  }

  lemma NullEntryKeeps(st: State, name: string)
    requires Integrity(st)
    ensures Integrity(st.(xstreams := st.xstreams + [Xstream(name, 0, 0)]))
  {
    var st' := st.(xstreams := st.xstreams + [Xstream(name, 0, 0)]);
    NullEntryUses(st, st', name, 0);
    forall i ensures CountOk(st', i) {
      assert CountOk(st, i);
      if 0 <= i < |st.pools| { NullEntryUses(st, st', name, st.pools[i].handle); }
    }
    forall j ensures RefersOk(st', j) {
      assert RefersOk(st, j);
    }
  }

  /** An xstream that could not be created: integrity survives exactly when its scheduler does
      not start with a registered pool. */
  lemma UncreatedKeepsIff(st: State, name: Option<string>, list: seq<nat>)
    requires Integrity(st) && |list| < UintRange
    ensures Integrity(AddXstream(st, name, list, NoHandle).0) <==> !CreationMiscounts(st, name, list, NoHandle)
  {
    var chosen := ChosenName(st, name);
    var (st', ok) := AddXstream(st, name, list, NoHandle);
    if !NameTaken(st, name) && !IsPrimary(chosen) {
      if ok { KnownIsAll(st.pools, list); }
      if FirstRegistered(st, list) {
        if ok { NullEntryUses(st, st', chosen, list[0]); } else { UsesFrame(st, st', st.xstreams, list[0]); }
        LoneAdjustBreaks(st, st', list, 1);
      } else {
        LoneAdjustKeeps(st, list, 1);
        NullEntryKeeps(st, chosen);
      }
    }
  }

  /** The clean-up alone: integrity survives exactly when the scheduler it walks does not
      start with a registered pool. */
  lemma UncountedKeepsIff(st: State, h: nat)
    requires Integrity(st) && |SchedOf(st, h)| < UintRange
    ensures Integrity(st.(pools := Uncounted(st, h))) <==> !FirstRegistered(st, SchedOf(st, h))
  {
    if FirstRegistered(st, SchedOf(st, h)) {
      var st' := st.(pools := Uncounted(st, h));
      UsesFrame(st, st', st.xstreams, SchedOf(st, h)[0]);
      LoneAdjustBreaks(st, st', SchedOf(st, h), -1);
    } else {
      LoneAdjustKeeps(st, SchedOf(st, h), -1);
    }
  }

  /** The slots that setting up an xstream can touch. */
  ghost function Touched(st: State, list: seq<nat>, answer: Answer): nat {
    if answer.KeepsScheduler? then |SchedOf(st, answer.handle)| else |list|
  }

  /** What Argobots guarantees: an xstream it sets up has a handle that is not registered yet,
      and only the primary xstream can keep its scheduler. */
  ghost predicate AnswerFits(st: State, name: Option<string>, answer: Answer) {
    && (answer.Ready? ==> NewXstream(st, answer.handle))
    && (answer.KeepsScheduler? ==> IsPrimary(ChosenName(st, name)))
  }

  /** Adding an xstream keeps integrity exactly when it does not miscount. */
  lemma AddXstreamKeepsIff(st: State, name: Option<string>, list: seq<nat>, answer: Answer)
    requires Integrity(st) && AnswerFits(st, name, answer)
    requires Slots(st, st.xstreams) + Touched(st, list, answer) < UintRange
    ensures Integrity(AddXstream(st, name, list, answer).0) <==> !CreationMiscounts(st, name, list, answer)
  {
    if !NameTaken(st, name) {
      match answer
      case NoScheduler =>
      case NoHandle => UncreatedKeepsIff(st, name, list);
      case KeepsScheduler(h) => UncountedKeepsIff(st, h);
      case Ready(h) => ReadyKeeps(st, name, list, h);
    }
  }

  lemma ReadyKeeps(st: State, name: Option<string>, list: seq<nat>, h: nat)
    requires Integrity(st) && NewXstream(st, h) && Slots(st, st.xstreams) + |list| < UintRange
    ensures Integrity(AddXstream(st, name, list, Ready(h)).0)
  {
    var (st', ok) := AddXstream(st, name, list, Ready(h));
    if ok {
      AppendXstreamKeeps(st, ChosenName(st, name), h, list);
    } else if !NameTaken(st, name) {
      CountedBackKeeps(st, list, IsPrimary(ChosenName(st, name)));
      OtherSched(st.(pools := st'.pools), h, list);
    }
  }

  /** The scheduler of an xstream that is not registered does not matter. */
  lemma OtherSched(st: State, h: nat, list: seq<nat>)
    requires Integrity(st) && NewXstream(st, h)
    ensures Integrity(st.(sched := st.sched[h := list]))
  {
    var st' := st.(sched := st.sched[h := list]);
    forall j | 0 <= j < |st.xstreams|
      ensures SchedOf(st', st.xstreams[j].handle) == SchedOf(st, st.xstreams[j].handle)
    {
      assert HasXstream(st.xstreams, j, st.xstreams[j].handle);
    }
    UsesFrame(st, st', st.xstreams, 0);
    forall i ensures CountOk(st', i) {
      assert CountOk(st, i);
      if 0 <= i < |st.pools| { UsesFrame(st, st', st.xstreams, st.pools[i].handle); }
    }
    forall j ensures RefersOk(st', j) {
      assert RefersOk(st, j);
    }
  }

  /** Why the external add fails to register anything and still changes counts. */
  ghost predicate Miscounts(st: State, name: Option<string>, h: nat) {
    && Addable(st, name, h)
    && !AllRegistered(st.pools, SchedOf(st, h))
    && FirstRegistered(st, SchedOf(st, h))
  }

  /** Adding an external xstream keeps integrity exactly when it is not the case that the
      first pool of its scheduler is registered and a later one is not. */
  lemma AddExternalXstreamKeepsIff(st: State, name: Option<string>, h: nat)
    requires Integrity(st) && NameDefined(st, name, h)
    requires Slots(st, st.xstreams) + |SchedOf(st, h)| < UintRange
    ensures Integrity(AddExternalXstream(st, name, h).0) <==> !Miscounts(st, name, h)
  {
    var list := SchedOf(st, h);
    if AddExternalXstream(st, name, h).1 {
      AppendXstreamKeeps(st, name.value, h, list);
      assert st.sched[h := list] == st.sched;
    } else if Addable(st, name, h) {
      UncountedKeepsIff(st, h);
    }
  }

  // ---- removing -------------------------------------------------------------

  lemma RemoveXstreamKeeps(st: State, j: nat)
    requires Integrity(st)
    ensures Integrity(RemoveXstream(st, j).0)
  {
    var st' := RemoveXstream(st, j).0;
    if RemoveXstream(st, j).1 == Success {
      var list := SchedOf(st, st.xstreams[j].handle);
      assert RefersOk(st, j);
      KnownIsAll(st.pools, list);
      assert st'.pools == AdjustAll(st.pools, list, -1, false);
      forall g: nat ensures Uses(st', st'.xstreams, g) == Uses(st, st.xstreams, g) + -1 * Count(list, g) {
        UsesSwapRemove(st, st.xstreams, j, g);
        UsesFrame(st, st', st'.xstreams, g);
      }
      UsesSwapRemove(st, st.xstreams, j, 0);
      UsesFrame(st, st', st'.xstreams, 0);
      AdjustCounts(st, st', list, -1, false);
      AdjustHandles(st.pools, list, -1, false);
      RemovedRefers(st, j, st');
    }
  }

  lemma RemovedRefers(st: State, j: nat, st': State)
    requires (forall k :: RefersOk(st, k)) && j < |st.xstreams| && SameHandles(st.pools, st'.pools)
    requires st'.xstreams == SwapRemove(st.xstreams, j) && st'.sched == st.sched
    ensures forall k :: RefersOk(st', k)
  {
    forall k ensures RefersOk(st', k) {
      if 0 <= k < |st'.xstreams| {
        var k0 := if k == j then |st.xstreams| - 1 else k;
        assert RefersOk(st, k0) && st'.xstreams[k] == st.xstreams[k0];
        AllRegisteredFrame(st.pools, st'.pools, SchedOf(st, st.xstreams[k0].handle));
      }
    }
  }

  /** A pool that can be removed is used by no registered xstream. */
  lemma RemovablePoolUnused(st: State, i: nat, j: nat)
    requires Integrity(st) && i < |st.pools| && j < |st.xstreams| && st.pools[i].numXstreams == 0
    ensures st.pools[i].handle !in SchedOf(st, st.xstreams[j].handle)
  {
    assert CountOk(st, i);
    UsesAtLeast(st, st.xstreams, j, st.pools[i].handle);
    CountFacts(SchedOf(st, st.xstreams[j].handle), st.pools[i].handle);
  }

  lemma SwapRemoveHandles(ps: seq<Pool>, i: nat, h: nat)
    requires i < |ps| && Registered(ps, h) && ps[i].handle != h
    ensures Registered(SwapRemove(ps, i), h)
  {
    var k :| HasHandle(ps, k, h);
    var k' := if k == |ps| - 1 then i else k;
    assert HasHandle(SwapRemove(ps, i), k', h);
  }

  lemma SwapRemoveDistinct(ps: seq<Pool>, i: nat)
    requires i < |ps| && HandlesOk(ps)
    ensures HandlesOk(SwapRemove(ps, i))
  {
    var ps' := SwapRemove(ps, i);
    forall k, m, h | HasHandle(ps', k, h) && HasHandle(ps', m, h) && k != m ensures h == 0 {
      var k0, m0 := if k == i then |ps| - 1 else k, if m == i then |ps| - 1 else m;
      assert HasHandle(ps, k0, h) && HasHandle(ps, m0, h);
    }
  }

  /** After a pool is removed no registered xstream refers to a pool that is not there. */
  lemma RemovePoolKeeps(st: State, i: nat, size: Option<nat>)
    requires Integrity(st)
    ensures Integrity(RemovePool(st, i, size).0)
  {
    var st' := RemovePool(st, i, size).0;
    if RemovePool(st, i, size).1 == Success {
      SwapRemoveDistinct(st.pools, i);
      forall k ensures CountOk(st', k) {
        if 0 <= k < |st'.pools| {
          assert CountOk(st, if k == i then |st.pools| - 1 else k);
          UsesFrame(st, st', st.xstreams, st'.pools[k].handle);
        }
      }
      UsesFrame(st, st', st.xstreams, 0);
      forall j ensures RefersOk(st', j) {
        if 0 <= j < |st.xstreams| {
          assert RefersOk(st, j);
          RemovablePoolUnused(st, i, j);
          var list := SchedOf(st, st.xstreams[j].handle);
          forall k | 0 <= k < |list| ensures Registered(st'.pools, list[k]) {
            SwapRemoveHandles(st.pools, i, list[k]);
          }
        }
      }
    }
  }

  lemma RemoveLast<T>(s: seq<T>, x: T)
    ensures SwapRemove(s + [x], |s|) == s
  {
  }

  lemma NothingToUncount(ps: seq<Pool>)
    requires forall i :: 0 <= i < |ps| ==> ps[i].numXstreams < UintRange
    ensures AdjustAll(ps, [], -1, false) == ps
  {
  }

  /** Counting down after counting up. */
  lemma AdjustAllUndoes(st: State, list: seq<nat>)
    requires Integrity(st)
    ensures AdjustAll(AdjustAll(st.pools, list, 1, false), list, -1, false) == st.pools
  {
    forall i | 0 <= i < |st.pools|
      ensures Adjust(Adjust(st.pools[i], list, 1, false), list, -1, false) == st.pools[i]
    {
      CountInRange(st, i);
      AdjustUndoes(st.pools[i], list, false);
    }
  }

  /** Counting up shows, unless there is nothing to count. */
  lemma CountingShows(st: State, list: seq<nat>)
    requires Integrity(st) && AllRegistered(st.pools, list) && |list| < UintRange
    ensures AdjustAll(st.pools, list, 1, false) == st.pools <==> list == []
  {
    KnownIsAll(st.pools, list);
    if list == [] {
      LoneAdjustKeeps(st, list, 1);
    } else {
      var st' := st.(pools := AdjustAll(st.pools, list, 1, false));
      UsesFrame(st, st', st.xstreams, list[0]);
      LoneAdjustBreaks(st, st', list, 1);
    }
  }

  /** Removing an xstream that was just added gives back the registered entries from before,
      unless the xstream does not exist and its scheduler has pools. */
  lemma RemoveUndoesAddIff(st: State, name: Option<string>, list: seq<nat>, answer: Answer)
    requires Integrity(st) && AnswerFits(st, name, answer) && AddXstream(st, name, list, answer).1
    requires !IsPrimary(ChosenName(st, name)) && |list| < UintRange
    ensures var (st', code) := RemoveXstream(AddXstream(st, name, list, answer).0, |st.xstreams|);
            && code == Success && st'.xstreams == st.xstreams
            && (st'.pools == st.pools <==> !(answer.NoHandle? && list != []))
  {
    var st1 := AddXstream(st, name, list, answer).0;
    var h := if answer.Ready? then answer.handle else 0;
    RemoveLast(st.xstreams, Xstream(ChosenName(st, name), h, 0));
    assert st1.pools == AdjustAll(st.pools, list, 1, false);
    if answer.Ready? {
      AdjustHandles(st.pools, list, 1, false);
      AllRegisteredFrame(st.pools, st1.pools, list);
      KnownIsAll(st1.pools, list);
      AdjustAllUndoes(st, list);
    } else {
      UncreatedAddRemove(st, name, list);
      CountingShows(st, list);
    }
  }

  lemma UncreatedAddRemove(st: State, name: Option<string>, list: seq<nat>)
    requires AddXstream(st, name, list, NoHandle).1
    ensures RemoveXstream(AddXstream(st, name, list, NoHandle).0, |st.xstreams|) ==
            (st.(pools := AdjustAll(st.pools, list, 1, false)), Success)
  {
    var st1 := AddXstream(st, name, list, NoHandle).0;
    RemoveLast(st.xstreams, Xstream(ChosenName(st, name), 0, 0));
    NothingToUncount(st1.pools);
  }

  /** An xstream that was not created holds on to its pools: after it is removed again none of
      them can be removed, although no xstream accounts for the use. */
  lemma UncreatedPinsPools(st: State, name: Option<string>, list: seq<nat>, i: nat, size: Option<nat>)
    requires Integrity(st) && AddXstream(st, name, list, NoHandle).1
    requires Slots(st, st.xstreams) + |list| < UintRange && i < |st.pools| && st.pools[i].handle in list
    ensures var (st1, code1) := RemoveXstream(AddXstream(st, name, list, NoHandle).0, |st.xstreams|);
            && code1 == Success && st1.xstreams == st.xstreams
            && RemovePool(st1, i, size) == (st1, Permission)
  {
    UncreatedAddRemove(st, name, list);
    CountedUp(st, list, i);
  }

  lemma CountedUp(st: State, list: seq<nat>, i: nat)
    requires Integrity(st) && Slots(st, st.xstreams) + |list| < UintRange
    requires i < |st.pools| && st.pools[i].handle in list
    ensures Adjust(st.pools[i], list, 1, false).numXstreams > 0
  {
    assert CountOk(st, i);
    UsesBound(st, st.xstreams, st.pools[i].handle);
    CountFacts(list, st.pools[i].handle);
  }

  // ---- references -----------------------------------------------------------

  lemma PoolRefsKeep(st: State, i: nat, n: nat)
    requires Integrity(st) && i < |st.pools|
    ensures Integrity(SetPoolRefs(st, i, n))
  {
    FlagsOnly(st, SetPoolRefs(st, i, n));
  }

  lemma {:induction false} SameHandlesUses(st: State, st': State, xs: seq<Xstream>, xs': seq<Xstream>, h: nat)
    requires st'.sched == st.sched && |xs'| == |xs| && forall j :: 0 <= j < |xs| ==> xs'[j].handle == xs[j].handle
    ensures Uses(st', xs', h) == Uses(st, xs, h) && Slots(st', xs') == Slots(st, xs)
    decreases |xs|
  {
    if xs != [] {
      SameHandlesUses(st, st', xs[..|xs| - 1], xs'[..|xs| - 1], h);
    }
  }

  lemma XstreamRefsKeep(st: State, j: nat, n: nat)
    requires Integrity(st) && j < |st.xstreams|
    ensures Integrity(SetXstreamRefs(st, j, n))
  {
    var st' := SetXstreamRefs(st, j, n);
    SameHandlesUses(st, st', st.xstreams, st'.xstreams, 0);
    forall i ensures CountOk(st', i) {
      assert CountOk(st, i);
      if 0 <= i < |st.pools| {
        SameHandlesUses(st, st', st.xstreams, st'.xstreams, st.pools[i].handle);
      }
    }
    forall k ensures RefersOk(st', k) {
      assert RefersOk(st, k);
    }
  }
}
