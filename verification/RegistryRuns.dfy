/** Whole runs of registry operations. */
module RegistryRuns {
  import opened Common
  import opened Names
  import opened Registry
  import opened RegistrySafety

  datatype Op =
    | OpAddPool(poolName: Option<string>, poolCreated: Option<nat>)
    | OpAddExternalPool(poolName: Option<string>, pool: nat)
    | OpAddXstream(xstreamName: Option<string>, list: seq<nat>, answer: Answer)
    | OpAddExternalXstream(name: Option<string>, xstream: nat)
    | OpRemovePool(index: nat, size: Option<nat>)
    | OpRemoveXstream(index: nat)
    | OpRefPool(key: Key)
    | OpReleasePool(key: Key)
    | OpRefXstream(key: Key)
    | OpReleaseXstream(key: Key)

  /** What Argobots guarantees: new pools and xstreams have new handles (so has the primary
      xstream, which is configured before it could be registered as external), and there are
      fewer than 2^32 scheduler slots; and what C demands: a name where it is compared. */
  ghost predicate Possible(st: State, op: Op) {
    match op
    case OpAddPool(name, created) => created.Some? ==> !Registered(st.pools, created.value)
    case OpAddExternalPool(name, pool) => true
    case OpAddXstream(name, list, answer) =>
      AnswerFits(st, name, answer) && Slots(st, st.xstreams) + Touched(st, list, answer) < UintRange
    case OpAddExternalXstream(name, xstream) =>
      NameDefined(st, name, xstream) && Slots(st, st.xstreams) + |SchedOf(st, xstream)| < UintRange
    case _ => true
  }

  ghost function Step(st: State, op: Op): State
    requires Possible(st, op)
  {
    match op
    case OpAddPool(name, created) => AddPool(st, name, created).0
    case OpAddExternalPool(name, pool) => AddExternalPool(st, name, pool).0
    case OpAddXstream(name, list, answer) => AddXstream(st, name, list, answer).0
    case OpAddExternalXstream(name, xstream) => AddExternalXstream(st, name, xstream).0
    case OpRemovePool(index, size) => RemovePool(st, index, size).0
    case OpRemoveXstream(index) => RemoveXstream(st, index).0
    case OpRefPool(key) => RefPool(st, key).0
    case OpReleasePool(key) => ReleasePool(st, key).0
    case OpRefXstream(key) => RefXstream(st, key).0
    case OpReleaseXstream(key) => ReleaseXstream(st, key).0
  }

  ghost predicate StepMiscounts(st: State, op: Op) {
    match op
    case OpAddXstream(name, list, answer) => CreationMiscounts(st, name, list, answer)
    case OpAddExternalXstream(name, xstream) => Miscounts(st, name, xstream)
    case _ => false
  }

  /** One step keeps integrity exactly when it is not an add that miscounts. */
  lemma StepKeepsIff(st: State, op: Op)
    requires Integrity(st) && Possible(st, op)
    ensures Integrity(Step(st, op)) <==> !StepMiscounts(st, op)
  {
    match op
    case OpAddPool(name, created) => AddPoolKeeps(st, name, created);
    case OpAddExternalPool(name, pool) => AddExternalPoolKeeps(st, name, pool);
    case OpAddXstream(name, list, answer) => AddXstreamKeepsIff(st, name, list, answer);
    case OpAddExternalXstream(name, xstream) => AddExternalXstreamKeepsIff(st, name, xstream);
    case OpRemovePool(index, size) => RemovePoolKeeps(st, index, size);
    case OpRemoveXstream(index) => RemoveXstreamKeeps(st, index);
    case _ => ReferenceKeeps(st, op);
  }

  predicate IsReference(op: Op) {
    op.OpRefPool? || op.OpReleasePool? || op.OpRefXstream? || op.OpReleaseXstream?
  }

  lemma ReferenceKeeps(st: State, op: Op)
    requires Integrity(st) && IsReference(op)
    ensures Integrity(Step(st, op))
  {
    var i, j := FindPool(st, op.key), FindXstream(st, op.key);
    if (op.OpRefPool? || op.OpReleasePool?) && i < |st.pools| {
      PoolRefsKeep(st, i, OneMore(st.pools[i].refcount));
      if st.pools[i].refcount > 0 { PoolRefsKeep(st, i, st.pools[i].refcount - 1); }
    }
    if (op.OpRefXstream? || op.OpReleaseXstream?) && j < |st.xstreams| {
      XstreamRefsKeep(st, j, OneMore(st.xstreams[j].refcount));
      if st.xstreams[j].refcount > 0 { XstreamRefsKeep(st, j, st.xstreams[j].refcount - 1); }
    }
  }

  ghost predicate PossibleRun(st: State, ops: seq<Op>)
    decreases |ops|
  {
    ops != [] ==> Possible(st, ops[0]) && PossibleRun(Step(st, ops[0]), ops[1..])
  }

  ghost function Final(st: State, ops: seq<Op>): State
    requires PossibleRun(st, ops)
    decreases |ops|
  {
    if ops == [] then st else Final(Step(st, ops[0]), ops[1..])
  }

  ghost predicate NeverMiscounts(st: State, ops: seq<Op>)
    requires PossibleRun(st, ops)
    decreases |ops|
  {
    ops != [] ==> !StepMiscounts(st, ops[0]) && NeverMiscounts(Step(st, ops[0]), ops[1..])
  }

  /** Over any run in which no add miscounts, handles stay distinct, every use
      count is exact and no registered xstream refers to a removed pool. */
  lemma {:induction false} RunKeepsIntegrity(st: State, ops: seq<Op>)
    requires Integrity(st) && PossibleRun(st, ops) && NeverMiscounts(st, ops)
    ensures Integrity(Final(st, ops))
    decreases |ops|
  {
    if ops != [] {
      StepKeepsIff(st, ops[0]);
      RunKeepsIntegrity(Step(st, ops[0]), ops[1..]);
    }
  }

  // ---- names ----------------------------------------------------------------

  ghost predicate NamesOk(st: State) {
    DistinctNames(PoolNames(st.pools)) && DistinctNames(XstreamNames(st.xstreams))
  }

  lemma AppendName(names: seq<string>, name: string)
    requires DistinctNames(names) && name !in names
    ensures DistinctNames(names + [name])
  {
  }

  lemma SwapRemoveNames(names: seq<string>, i: nat)
    requires DistinctNames(names) && i < |names|
    ensures DistinctNames(SwapRemove(names, i))
  {
  }

  lemma AdjustNames(ps: seq<Pool>, list: seq<nat>, d: int, primary: bool)
    ensures PoolNames(AdjustAll(ps, list, d, primary)) == PoolNames(ps)
  {
  }

  lemma StepKeepsNames(st: State, op: Op)
    requires NamesOk(st) && Possible(st, op)
    ensures NamesOk(Step(st, op))
  {
    var st' := Step(st, op);
    match op
    case OpAddPool(name, created) => AddedPoolName(st, name, created);
    case OpAddExternalPool(name, pool) => AddedPoolName(st, name, Some(pool));
    case OpAddXstream(name, list, answer) => AddedXstreamName(st, name, list, answer);
    case OpAddExternalXstream(name, xstream) => AddedExternalName(st, name, xstream);
    case OpRemovePool(index, size) =>
      if RemovePool(st, index, size).1 == Success {
        SwapRemoveNames(PoolNames(st.pools), index);
        assert PoolNames(st'.pools) == SwapRemove(PoolNames(st.pools), index);
      }
    case OpRemoveXstream(index) =>
      if RemoveXstream(st, index).1 == Success {
        UncountedNames(st, st.xstreams[index].handle);
        SwapRemoveNames(XstreamNames(st.xstreams), index);
        assert XstreamNames(st'.xstreams) == SwapRemove(XstreamNames(st.xstreams), index);
      }
    case _ =>
      assert PoolNames(st'.pools) == PoolNames(st.pools) && XstreamNames(st'.xstreams) == XstreamNames(st.xstreams);
  }

  lemma AddedPoolName(st: State, name: Option<string>, created: Option<nat>)
    requires NamesOk(st)
    ensures NamesOk(AddPool(st, name, created).0)
  {
    var (st', ok) := AddPool(st, name, created);
    if ok {
      var names := PoolNames(st.pools);
      AppendName(names, NameFor("__pool_", name, names));
      assert PoolNames(st'.pools) == names + [NameFor("__pool_", name, names)];
    }
  }

  lemma AddedXstreamName(st: State, name: Option<string>, list: seq<nat>, answer: Answer)
    requires NamesOk(st) && AnswerFits(st, name, answer)
    ensures NamesOk(AddXstream(st, name, list, answer).0)
  {
    var (st', ok) := AddXstream(st, name, list, answer);
    var chosen := ChosenName(st, name);
    var known := list[..Known(st.pools, list)];
    AdjustNames(st.pools, known, 1, false);
    AdjustNames(st.pools, known, 1, IsPrimary(chosen));
    AdjustNames(AdjustAll(st.pools, known, 1, IsPrimary(chosen)), known, -1, false);
    if answer.KeepsScheduler? { UncountedNames(st, answer.handle); }
    if ok {
      AppendName(XstreamNames(st.xstreams), chosen);
      assert XstreamNames(st'.xstreams) == XstreamNames(st.xstreams) + [chosen];
      AdjustNames(st.pools, list, 1, false);
      AdjustNames(st.pools, list, 1, IsPrimary(chosen));
    }
  }

  lemma UncountedNames(st: State, h: nat)
    ensures PoolNames(Uncounted(st, h)) == PoolNames(st.pools)
  {
    AdjustNames(st.pools, SchedOf(st, h)[..Known(st.pools, SchedOf(st, h))], -1, false);
  }

  lemma AddedExternalName(st: State, name: Option<string>, xstream: nat)
    requires NamesOk(st) && NameDefined(st, name, xstream)
    ensures NamesOk(AddExternalXstream(st, name, xstream).0)
  {
    var (st', ok) := AddExternalXstream(st, name, xstream);
    UncountedNames(st, xstream);
    if ok {
      AdjustNames(st.pools, SchedOf(st, xstream), 1, IsPrimary(name.value));
      AppendName(XstreamNames(st.xstreams), name.value);
      assert XstreamNames(st'.xstreams) == XstreamNames(st.xstreams) + [name.value];
    }
  }

  /** Names stay distinct over any run, miscounting or not. */
  lemma {:induction false} RunKeepsNames(st: State, ops: seq<Op>)
    requires NamesOk(st) && PossibleRun(st, ops)
    ensures NamesOk(Final(st, ops))
    decreases |ops|
  {
    if ops != [] {
      StepKeepsNames(st, ops[0]);
      RunKeepsNames(Step(st, ops[0]), ops[1..]);
    }
  }

  // ---- the run that loses a pool --------------------------------------------

  /** Pool 1 and xstream 5 on it; external xstream 7 uses pool 1 and the unknown pool 2. */
  function Start(): State {
    State([], [], map[7 := [1, 2]])
  }

  function WithPool(count: nat): State {
    State([Pool("a", 1, 0, count, false)], [Xstream("x", 5, 0)], map[7 := [1, 2], 5 := [1]])
  }

  lemma SlotsOfOne(st: State)
    ensures |st.xstreams| == 0 ==> Slots(st, st.xstreams) == 0
    ensures |st.xstreams| == 1 ==> Slots(st, st.xstreams) == |SchedOf(st, st.xstreams[0].handle)|
  {
  }

  function OnlyPool(): State {
    State([Pool("a", 1, 0, 0, false)], [], Start().sched)
  }

  lemma UseCounted()
    ensures AllRegistered(OnlyPool().pools, [1]) && FirstRegistered(OnlyPool(), [1])
    ensures AdjustAll(OnlyPool().pools, [1], 1, false) == WithPool(1).pools
  {
    assert HasHandle(OnlyPool().pools, 0, 1);
    assert [1][..0] == [];
    assert Count([1], 1) == 1;
  }

  lemma PoolStep()
    ensures var add := OpAddPool(Some("a"), Some(1)); Possible(Start(), add) && Step(Start(), add) == OnlyPool()
  {
  }

  lemma XstreamStep()
    ensures var add := OpAddXstream(Some("x"), [1], Ready(5));
            Possible(OnlyPool(), add) && Step(OnlyPool(), add) == WithPool(1)
  {
    SlotsOfOne(OnlyPool());
    UseCounted();
  }

  /** The scheduler of xstream 7: its first pool is registered, its second one is not. */
  lemma OneKnown()
    ensures var st := WithPool(1);
            && SchedOf(st, 7) == [1, 2] && !AllRegistered(st.pools, [1, 2]) && FirstRegistered(st, [1, 2])
            && Uncounted(st, 7) == WithPool(0).pools
  {
    var st := WithPool(1);
    assert HasHandle(st.pools, 0, 1);
    assert !Registered(st.pools, 2) && [1, 2][1] == 2;
    assert Known(st.pools, [1, 2]) == 1 by {
      assert [1, 2][1..] == [2];
      assert Known(st.pools, [2]) == 0;
    }
    assert [1, 2][..1] == [1] && [1][..0] == [];
    assert Count([1], 1) == 1;
    assert AdjustAll(st.pools, [1], -1, false) == WithPool(0).pools;
  }

  /** Adding xstream 7 as external, or setting it up as the primary one in vain. */
  predicate BadOp(op: Op) {
    op == OpAddExternalXstream(Some("e"), 7) || op == OpAddXstream(Some("__primary__"), [1], KeepsScheduler(7))
  }

  lemma BadStep(op: Op)
    requires BadOp(op)
    ensures Possible(WithPool(1), op) && StepMiscounts(WithPool(1), op) && Step(WithPool(1), op) == WithPool(0)
  {
    var st := WithPool(1);
    SlotsOfOne(st);
    OneKnown();
    assert !exists j :: HasXstream(st.xstreams, j, 7);
  }

  lemma RunCons(st: State, op: Op, rest: seq<Op>)
    requires Possible(st, op) && PossibleRun(Step(st, op), rest)
    ensures PossibleRun(st, [op] + rest) && Final(st, [op] + rest) == Final(Step(st, op), rest)
  {
    assert ([op] + rest)[1..] == rest;
  }

  lemma LastSteps(op: Op, ops: seq<Op>, end: State)
    requires BadOp(op) && ops == [op] + ([OpRemovePool(0, Some(0))] + [])
    requires end == State([], [Xstream("x", 5, 0)], WithPool(0).sched)
    ensures PossibleRun(WithPool(1), ops) && Final(WithPool(1), ops) == end && !RefersOk(end, 0)
  {
    BadStep(op);
    assert Step(WithPool(0), OpRemovePool(0, Some(0))) == end;
    RunCons(WithPool(0), OpRemovePool(0, Some(0)), []);
    RunCons(WithPool(1), op, [OpRemovePool(0, Some(0))] + []);
    assert SchedOf(end, 5) == [1];
    assert !Registered(end.pools, [1][0]);
  }

  lemma FirstRun(rest: seq<Op>) returns (ops: seq<Op>)
    requires PossibleRun(WithPool(1), rest)
    ensures ops == [OpAddPool(Some("a"), Some(1))] + ([OpAddXstream(Some("x"), [1], Ready(5))] + rest)
    ensures PossibleRun(Start(), ops) && Final(Start(), ops) == Final(WithPool(1), rest)
  {
    PoolStep();
    XstreamStep();
    RunCons(OnlyPool(), OpAddXstream(Some("x"), [1], Ready(5)), rest);
    ops := [OpAddXstream(Some("x"), [1], Ready(5))] + rest;
    RunCons(Start(), OpAddPool(Some("a"), Some(1)), ops);
    ops := [OpAddPool(Some("a"), Some(1))] + ops;
  }

  /** A failed add hides the use of pool 1 by xstream 5, and the pool can then be removed under
      it: a failed external add, with every Argobots call successful, or a primary xstream that
      does not accept its new scheduler. */
  lemma FailedAddLosesPool(op: Op) returns (ops: seq<Op>)
    requires BadOp(op)
    ensures Integrity(Start()) && PossibleRun(Start(), ops)
    ensures ops == [OpAddPool(Some("a"), Some(1)), OpAddXstream(Some("x"), [1], Ready(5)), op, OpRemovePool(0, Some(0))]
    ensures |Final(Start(), ops).xstreams| == 1 && !RefersOk(Final(Start(), ops), 0)
  {
    var rest := [op] + ([OpRemovePool(0, Some(0))] + []);
    LastSteps(op, rest, State([], [Xstream("x", 5, 0)], WithPool(0).sched));
    ops := FirstRun(rest);
    SlotsOfOne(Start());
  }

  // ---- the run that pins a pool ---------------------------------------------

  function WithoutHandle(): State {
    State(WithPool(1).pools, [Xstream("x", 0, 0)], Start().sched)
  }

  lemma UncreatedStep()
    ensures AddXstream(OnlyPool(), Some("x"), [1], NoHandle) == (WithoutHandle(), true)
    ensures var add := OpAddXstream(Some("x"), [1], NoHandle);
            Possible(OnlyPool(), add) && StepMiscounts(OnlyPool(), add)
  {
    SlotsOfOne(OnlyPool());
    UseCounted();
    var (st, ok) := AddXstream(OnlyPool(), Some("x"), [1], NoHandle);
    assert ok && st.pools == WithPool(1).pools && st.xstreams == [Xstream("x", 0, 0)];
  }

  lemma RemoveStep()
    ensures Step(WithoutHandle(), OpRemoveXstream(0)) == WithoutHandle().(xstreams := [])
  {
    NothingToUncount(WithoutHandle().pools);
  }

  /** ABT_xstream_create fails for an xstream on pool 1: it is registered all the same, and when
      it has been removed, pool 1 has a use that nobody will ever take off. */
  lemma UncreatedXstreamPinsPool() returns (ops: seq<Op>)
    ensures Integrity(Start()) && PossibleRun(Start(), ops)
    ensures ops == [OpAddPool(Some("a"), Some(1)), OpAddXstream(Some("x"), [1], NoHandle), OpRemoveXstream(0)]
    ensures var st := Final(Start(), ops);
            && st.xstreams == [] && |st.pools| == 1
            && forall size :: RemovePool(st, 0, size) == (st, Permission)
  {
    SlotsOfOne(Start());
    PoolStep();
    UncreatedStep();
    RemoveStep();
    RunCons(WithoutHandle(), OpRemoveXstream(0), []);
    RunCons(OnlyPool(), OpAddXstream(Some("x"), [1], NoHandle), [OpRemoveXstream(0)] + []);
    ops := [OpAddXstream(Some("x"), [1], NoHandle)] + ([OpRemoveXstream(0)] + []);
    RunCons(Start(), OpAddPool(Some("a"), Some(1)), ops);
    ops := [OpAddPool(Some("a"), Some(1))] + ops;
  }
}
