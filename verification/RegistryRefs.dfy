/** References to registered entries: what is referenced stays registered, what is not used can
    be removed, and the primary xstream and its pools keep their standing. */
module RegistryRefs {
  import opened Common
  import opened Names
  import opened Registry
  import opened RegistrySafety
  import opened RegistryRuns

  // ---- what removing answers ------------------------------------------------

  lemma SwapRemoveMultiset<T>(s: seq<T>, i: nat)
    requires i < |s|
    ensures multiset(SwapRemove(s, i)) + multiset{s[i]} == multiset(s)
  {
    var n := |s| - 1;
    assert s == s[..n] + [s[n]];
    if i < n {
      assert SwapRemove(s, i) == s[..n][i := s[n]];
      assert s[..n] == s[..i] + [s[i]] + s[i + 1..n];
      assert s[..n][i := s[n]] == s[..i] + [s[n]] + s[i + 1..n];
    } else {
      assert SwapRemove(s, i) == s[..n];
    }
  }

  /** The removal of a pool succeeds exactly when the pool exists, is not referenced, is in no
      registered xstream's scheduler, and is empty; it then takes off exactly that pool, and
      otherwise changes nothing and says why. */
  lemma RemovePoolCode(st: State, i: nat, size: Option<nat>)
    requires Integrity(st)
    ensures var (st', code) := RemovePool(st, i, size);
            var unused := i < |st.pools| && st.pools[i].refcount == 0 && Uses(st, st.xstreams, st.pools[i].handle) == 0;
            && (code == Success <==> unused && size == Some(0))
            && (code == InvalidArg <==> i >= |st.pools|)
            && (code == OtherError <==> unused && size.None?)
            && code != NoEntry
            && (code != Success ==> st' == st)
            && (code == Success ==> st' == st.(pools := st'.pools)
                                    && multiset(st'.pools) + multiset{st.pools[i]} == multiset(st.pools))
  {
    if i < |st.pools| {
      assert CountOk(st, i);
      SwapRemoveMultiset(st.pools, i);
    }
  }

  /** The removal of an xstream succeeds exactly when it exists, is not the primary one and is
      not referenced; it then takes off exactly that xstream. */
  lemma RemoveXstreamCode(st: State, j: nat)
    ensures var (st', code) := RemoveXstream(st, j);
            && (code == Success <==>
                j < |st.xstreams| && st.xstreams[j].name != "__primary__" && st.xstreams[j].refcount == 0)
            && (code == InvalidArg <==> j >= |st.xstreams|)
            && code != NoEntry && code != OtherError
            && (code != Success ==> st' == st)
            && (code == Success ==> multiset(st'.xstreams) + multiset{st.xstreams[j]} == multiset(st.xstreams))
  {
    if j < |st.xstreams| {
      SwapRemoveMultiset(st.xstreams, j);
    }
  }

  /** The counts are unsigned 32-bit numbers: taking one off none gives 2^32 - 1, and one more
      than that many references gives none. */
  lemma CountsWrapAround(name: string, h: nat)
    ensures Adjust(Pool(name, h, 0, 0, false), [h], -1, false).numXstreams == 0xFFFF_FFFF
    ensures OneMore(0xFFFF_FFFF) == 0 && OneMore(0xFFFF_FFFE) == 0xFFFF_FFFF
  {
    assert [h][..0] == [];
    assert Count([h], h) == 1;
  }

  // ---- what referencing answers ---------------------------------------------

  /** What a key finds: the entry at an index, or the first one with the handle or the name. */
  ghost predicate Finds(names: seq<string>, handles: seq<nat>, key: Key, i: nat)
    requires |names| == |handles|
  {
    && i < |names|
    && match key
       case Index(k) => i == k
       case Handle(h) => h != 0 && handles[i] == h && h !in handles[..i]
       case Name(n) => names[i] == n && n !in names[..i]
  }

  lemma LookupFinds(names: seq<string>, handles: seq<nat>, key: Key)
    requires |names| == |handles|
    ensures Lookup(names, handles, key) < |names| ==> Finds(names, handles, key, Lookup(names, handles, key))
    ensures Lookup(names, handles, key) >= |names| ==> forall i :: !Finds(names, handles, key, i)
  {
  }

  /** The answers of taking and giving back a reference to a pool: an entry is found or not,
      and only a reference that was taken can be given back. */
  lemma PoolReferenceCodes(st: State, key: Key)
    ensures var names, handles := PoolNames(st.pools), PoolHandles(st.pools);
            if exists i :: Finds(names, handles, key, i) then
              var i := FindPool(st, key);
              && Finds(names, handles, key, i) && RefPool(st, key).1 == Success
              && ReleasePool(st, key).1 == (if st.pools[i].refcount == 0 then Permission else Success)
              && (st.pools[i].refcount == 0 ==> ReleasePool(st, key).0 == st)
            else
              var code := if key.Index? || key == Handle(0) then InvalidArg else NoEntry;
              RefPool(st, key) == (st, code) == ReleasePool(st, key)
  {
    LookupFinds(PoolNames(st.pools), PoolHandles(st.pools), key);
  }

  lemma XstreamReferenceCodes(st: State, key: Key)
    ensures var names, handles := XstreamNames(st.xstreams), XstreamHandles(st.xstreams);
            if exists i :: Finds(names, handles, key, i) then
              var i := FindXstream(st, key);
              && Finds(names, handles, key, i) && RefXstream(st, key).1 == Success
              && ReleaseXstream(st, key).1 == (if st.xstreams[i].refcount == 0 then Permission else Success)
              && (st.xstreams[i].refcount == 0 ==> ReleaseXstream(st, key).0 == st)
            else
              var code := if key.Index? || key == Handle(0) then InvalidArg else NoEntry;
              RefXstream(st, key) == (st, code) == ReleaseXstream(st, key)
  {
    LookupFinds(XstreamNames(st.xstreams), XstreamHandles(st.xstreams), key);
  }

  /** Releasing undoes referencing, unless the 32-bit count wraps around. */
  lemma ReleaseUndoesRef(st: State, key: Key)
    requires RefPool(st, key).1 == Success
    ensures var i := FindPool(st, key);
            i < |st.pools| && (st.pools[i].refcount + 1 < UintRange ==>
                ReleasePool(RefPool(st, key).0, key) == (st, Success))
  {
    var i := FindPool(st, key);
    var st' := RefPool(st, key).0;
    assert PoolNames(st'.pools) == PoolNames(st.pools) && PoolHandles(st'.pools) == PoolHandles(st.pools);
    if st.pools[i].refcount + 1 < UintRange {
      assert ReleasePool(st', key).0.pools == st.pools;
    }
  }

  lemma ReleaseUndoesRefXstream(st: State, key: Key)
    requires RefXstream(st, key).1 == Success
    ensures var i := FindXstream(st, key);
            && i < |st.xstreams|
            && (st.xstreams[i].refcount + 1 < UintRange ==> ReleaseXstream(RefXstream(st, key).0, key) == (st, Success))
  {
    var i := FindXstream(st, key);
    var st' := RefXstream(st, key).0;
    assert XstreamNames(st'.xstreams) == XstreamNames(st.xstreams);
    assert XstreamHandles(st'.xstreams) == XstreamHandles(st.xstreams);
    if st.xstreams[i].refcount + 1 < UintRange {
      assert ReleaseXstream(st', key).0.xstreams == st.xstreams;
    }
  }

  // ---- referenced pools stay ------------------------------------------------

  predicate IsPool(st: State, k: int, name: string, h: nat, n: nat) {
    0 <= k < |st.pools| && st.pools[k].name == name && st.pools[k].handle == h && st.pools[k].refcount == n
  }

  /** A pool with this name and handle is registered, with n references. */
  ghost predicate HasPool(st: State, name: string, h: nat, n: nat) {
    exists k :: IsPool(st, k, name, h, n)
  }

  /** What an operation does to the references of the pool with this name. */
  function PoolDelta(st: State, op: Op, name: string): int {
    if (op.OpRefPool? || op.OpReleasePool?) && FindPool(st, op.key) < |st.pools|
       && st.pools[FindPool(st, op.key)].name == name
    then if op.OpRefPool? then 1 else -1
    else 0
  }

  /** The operation leaves the registered pools at their places, counts and marks aside. */
  lemma PoolInPlace(st: State, st': State, k: int, name: string, h: nat, n: nat)
    requires IsPool(st, k, name, h, n) && |st'.pools| >= |st.pools|
    requires st'.pools[k] == st.pools[k].(numXstreams := st'.pools[k].numXstreams,
             usedByPrimary := st'.pools[k].usedByPrimary)
    ensures HasPool(st', name, h, n)
  {
    assert IsPool(st', k, name, h, n);
  }

  lemma ReferencedPoolStays(st: State, op: Op, name: string, h: nat, n: nat)
    requires Possible(st, op) && NamesOk(st) && HasPool(st, name, h, n) && 0 < n < UintRange - 1
    ensures HasPool(Step(st, op), name, h, n + PoolDelta(st, op, name))
  {
    var k :| IsPool(st, k, name, h, n);
    if op.OpRefPool? || op.OpReleasePool? {
      ReferenceCounts(st, op, name, h, n, k);
    } else if op.OpRemovePool? {
      RemovalSpares(st, op.index, op.size, name, h, n, k);
    } else {
      OthersInPlace(st, op, k);
      PoolInPlace(st, Step(st, op), k, name, h, n);
    }
  }

  lemma RemovalSpares(st: State, i: nat, size: Option<nat>, name: string, h: nat, n: nat, k: int)
    requires IsPool(st, k, name, h, n) && n > 0
    ensures HasPool(RemovePool(st, i, size).0, name, h, n)
  {
    var (st', code) := RemovePool(st, i, size);
    assert IsPool(st', if code == Success && k == |st.pools| - 1 then i else k, name, h, n);
  }

  lemma AddXstreamInPlace(st: State, name: Option<string>, list: seq<nat>, answer: Answer, k: nat)
    requires AnswerFits(st, name, answer) && k < |st.pools|
    ensures var st' := AddXstream(st, name, list, answer).0;
            && |st'.pools| == |st.pools|
            && st'.pools[k] == st.pools[k].(numXstreams := st'.pools[k].numXstreams,
               usedByPrimary := st'.pools[k].usedByPrimary)
  {
  }

  /** Only removals and references change what is registered as a pool at a place. */
  lemma OthersInPlace(st: State, op: Op, k: nat)
    requires Possible(st, op) && !op.OpRemovePool? && !op.OpRefPool? && !op.OpReleasePool? && k < |st.pools|
    ensures var st' := Step(st, op);
            && |st'.pools| >= |st.pools|
            && st'.pools[k] == st.pools[k].(numXstreams := st'.pools[k].numXstreams,
               usedByPrimary := st'.pools[k].usedByPrimary)
  {
    if op.OpAddXstream? {
      AddXstreamInPlace(st, op.xstreamName, op.list, op.answer, k);
    }
  }

  lemma ReferenceCounts(st: State, op: Op, name: string, h: nat, n: nat, k: int)
    requires NamesOk(st) && IsPool(st, k, name, h, n) && 0 < n < UintRange - 1 && (op.OpRefPool? || op.OpReleasePool?)
    ensures HasPool(Step(st, op), name, h, n + PoolDelta(st, op, name))
  {
    var i := FindPool(st, op.key);
    assert PoolNames(st.pools)[k] == name;
    if i < |st.pools| {
      assert PoolNames(st.pools)[i] == st.pools[i].name;
      assert i == k <==> st.pools[i].name == name;
    }
    assert IsPool(Step(st, op), k, name, h, n + PoolDelta(st, op, name));
  }

  /** Over the run the pool is always referenced: n references at first, and never none left,
      nor so many that the count wraps around. */
  ghost predicate AlwaysHeld(st: State, ops: seq<Op>, name: string, n: int)
    requires PossibleRun(st, ops)
    decreases |ops|
  {
    && 0 < n < UintRange - 1
    && (ops != [] ==> AlwaysHeld(Step(st, ops[0]), ops[1..], name, n + PoolDelta(st, ops[0], name)))
  }

  /** References taken minus references given back. */
  ghost function PoolBalance(st: State, ops: seq<Op>, name: string): int
    requires PossibleRun(st, ops)
    decreases |ops|
  {
    if ops == [] then 0 else PoolDelta(st, ops[0], name) + PoolBalance(Step(st, ops[0]), ops[1..], name)
  }

  /** A referenced pool is never removed: as long as fewer references were given back than there
      were and were taken, the pool is registered under its name with its handle, and the count
      is exact. */
  lemma {:induction false} HeldPoolStays(st: State, ops: seq<Op>, name: string, h: nat, n: nat)
    requires PossibleRun(st, ops) && NamesOk(st) && HasPool(st, name, h, n) && AlwaysHeld(st, ops, name, n)
    ensures n + PoolBalance(st, ops, name) > 0
    ensures HasPool(Final(st, ops), name, h, n + PoolBalance(st, ops, name))
    decreases |ops|
  {
    if ops != [] {
      ReferencedPoolStays(st, ops[0], name, h, n);
      StepKeepsNames(st, ops[0]);
      HeldPoolStays(Step(st, ops[0]), ops[1..], name, h, n + PoolDelta(st, ops[0], name));
    }
  }

  // ---- referenced xstreams and the primary one stay -------------------------

  predicate IsXstream(st: State, k: int, name: string, h: nat, n: nat) {
    0 <= k < |st.xstreams| && st.xstreams[k] == Xstream(name, h, n)
  }

  ghost predicate HasXstreamNamed(st: State, name: string, h: nat, n: nat) {
    exists k :: IsXstream(st, k, name, h, n)
  }

  function XstreamDelta(st: State, op: Op, name: string): int {
    if (op.OpRefXstream? || op.OpReleaseXstream?) && FindXstream(st, op.key) < |st.xstreams|
       && st.xstreams[FindXstream(st, op.key)].name == name
       && (op.OpReleaseXstream? ==> st.xstreams[FindXstream(st, op.key)].refcount > 0)
    then if op.OpRefXstream? then 1 else -1
    else 0
  }

  /** An xstream that is referenced, or primary, is still there after any operation. */
  lemma ReferencedXstreamStays(st: State, op: Op, name: string, h: nat, n: nat)
    requires Possible(st, op) && NamesOk(st) && HasXstreamNamed(st, name, h, n) && n < UintRange - 1
    requires n > 0 || name == "__primary__"
    ensures n + XstreamDelta(st, op, name) >= 0
    ensures HasXstreamNamed(Step(st, op), name, h, n + XstreamDelta(st, op, name))
  {
    var k :| IsXstream(st, k, name, h, n);
    var st' := Step(st, op);
    assert XstreamNames(st.xstreams)[k] == name;
    match op
    case OpRemoveXstream(index) =>
      if RemoveXstream(st, index).1 == Success {
        assert IsXstream(st', if k == |st.xstreams| - 1 then index else k, name, h, n);
      } else {
        assert IsXstream(st', k, name, h, n);
      }
    case OpRefXstream(key) => XstreamReferenceCounts(st, op, name, h, n, k);
    case OpReleaseXstream(key) => XstreamReferenceCounts(st, op, name, h, n, k);
    case _ => assert IsXstream(st', k, name, h, n);
  }

  lemma XstreamReferenceCounts(st: State, op: Op, name: string, h: nat, n: nat, k: int)
    requires NamesOk(st) && IsXstream(st, k, name, h, n) && n < UintRange - 1 && (op.OpRefXstream? ||
             op.OpReleaseXstream?)
    ensures n + XstreamDelta(st, op, name) >= 0
    ensures HasXstreamNamed(Step(st, op), name, h, n + XstreamDelta(st, op, name))
  {
    var i := FindXstream(st, op.key);
    assert XstreamNames(st.xstreams)[k] == name;
    if i < |st.xstreams| {
      assert XstreamNames(st.xstreams)[i] == st.xstreams[i].name;
      assert i == k <==> st.xstreams[i].name == name;
    }
    assert IsXstream(Step(st, op), k, name, h, n + XstreamDelta(st, op, name));
  }

  /** Over the run the xstream is primary or referenced all the time. */
  ghost predicate AlwaysNeeded(st: State, ops: seq<Op>, name: string, n: int)
    requires PossibleRun(st, ops)
    decreases |ops|
  {
    && 0 <= n < UintRange - 1 && (n > 0 || name == "__primary__")
    && (ops != [] ==> AlwaysNeeded(Step(st, ops[0]), ops[1..], name, n + XstreamDelta(st, ops[0], name)))
  }

  ghost function XstreamBalance(st: State, ops: seq<Op>, name: string): int
    requires PossibleRun(st, ops)
    decreases |ops|
  {
    if ops == [] then 0 else XstreamDelta(st, ops[0], name) + XstreamBalance(Step(st, ops[0]), ops[1..], name)
  }

  /** A referenced xstream is never removed, and the primary xstream never at all. */
  lemma {:induction false} NeededXstreamStays(st: State, ops: seq<Op>, name: string, h: nat, n: nat)
    requires PossibleRun(st, ops) && NamesOk(st) && HasXstreamNamed(st, name, h, n) && AlwaysNeeded(st, ops, name, n)
    ensures n + XstreamBalance(st, ops, name) >= 0
    ensures HasXstreamNamed(Final(st, ops), name, h, n + XstreamBalance(st, ops, name))
    decreases |ops|
  {
    if ops != [] {
      ReferencedXstreamStays(st, ops[0], name, h, n);
      StepKeepsNames(st, ops[0]);
      NeededXstreamStays(Step(st, ops[0]), ops[1..], name, h, n + XstreamDelta(st, ops[0], name));
    }
  }

  // ---- what was added is found ----------------------------------------------

  lemma FirstIndexOfLast<T>(s: seq<T>, x: T)
    requires x !in s
    ensures FirstIndex(s + [x], x) == |s|
  {
    assert (s + [x])[|s|] == x;
  }

  /** A pool is added exactly when its name is free and Argobots made it; it is then found under
      its name and its handle, behind the others, without references and unused. */
  lemma AddedPoolIsFound(st: State, name: Option<string>, created: Option<nat>)
    requires created.Some? ==> !Registered(st.pools, created.value)
    ensures AddPool(st, name, created).1 <==> created.Some? && (name.Some? ==> name.value !in PoolNames(st.pools))
    ensures var (st', ok) := AddPool(st, name, created);
            if ok then
              && |st'.pools| == |st.pools| + 1 && st'.pools[..|st.pools|] == st.pools
              && st' == st.(pools := st'.pools)
              && var p := st'.pools[|st.pools|];
                 && p.handle == created.value && p.refcount == 0 && p.numXstreams == 0 && !p.usedByPrimary
                 && p.name == (if name.Some? then name.value else DefaultName("__pool_", PoolNames(st.pools)))
                 && FindPool(st', Name(p.name)) == |st.pools|
                 && (p.handle != 0 ==> FindPool(st', Handle(p.handle)) == |st.pools|)
            else st' == st
  {
    var (st', ok) := AddPool(st, name, created);
    if ok {
      var p := st'.pools[|st.pools|];
      assert PoolNames(st'.pools) == PoolNames(st.pools) + [p.name];
      assert PoolHandles(st'.pools) == PoolHandles(st.pools) + [p.handle];
      FirstIndexOfLast(PoolNames(st.pools), p.name);
      if p.handle != 0 {
        forall i | 0 <= i < |st.pools| ensures PoolHandles(st.pools)[i] != p.handle {
          assert st.pools[i].handle == p.handle ==> HasHandle(st.pools, i, p.handle);
        }
        FirstIndexOfLast(PoolHandles(st.pools), p.handle);
      }
    }
  }

  /** The same for an xstream that Argobots set up: it is added exactly when its name is free and
      all pools of its scheduler are registered. */
  lemma AddedXstreamIsFound(st: State, name: Option<string>, list: seq<nat>, h: nat)
    requires NewXstream(st, h)
    ensures AddXstream(st, name, list, Ready(h)).1 <==>
            AllRegistered(st.pools, list) && (name.Some? ==> name.value !in XstreamNames(st.xstreams))
    ensures var (st', ok) := AddXstream(st, name, list, Ready(h));
            if ok then
              && |st'.xstreams| == |st.xstreams| + 1 && st'.xstreams[..|st.xstreams|] == st.xstreams
              && SchedOf(st', h) == list
              && var x := st'.xstreams[|st.xstreams|];
                 && x.handle == h && x.refcount == 0
                 && x.name == (if name.Some? then name.value else DefaultName("__xstream_", XstreamNames(st.xstreams)))
                 && FindXstream(st', Name(x.name)) == |st.xstreams| == FindXstream(st', Handle(h))
            else st'.xstreams == st.xstreams
  {
    var (st', ok) := AddXstream(st, name, list, Ready(h));
    if ok {
      var x := st'.xstreams[|st.xstreams|];
      assert XstreamNames(st'.xstreams) == XstreamNames(st.xstreams) + [x.name];
      assert XstreamHandles(st'.xstreams) == XstreamHandles(st.xstreams) + [x.handle];
      FirstIndexOfLast(XstreamNames(st.xstreams), x.name);
      forall i | 0 <= i < |st.xstreams| ensures XstreamHandles(st.xstreams)[i] != h {
        assert st.xstreams[i].handle == h ==> HasXstream(st.xstreams, i, h);
      }
      FirstIndexOfLast(XstreamHandles(st.xstreams), h);
    }
  }

  /** In all: an xstream is registered exactly when its name is free, all pools of its scheduler
      are registered, and Argobots set it up or failed to create it unnoticed. */
  lemma AddXstreamAnswers(st: State, name: Option<string>, list: seq<nat>, answer: Answer)
    requires AnswerFits(st, name, answer)
    ensures var (st', ok) := AddXstream(st, name, list, answer);
            && (ok <==> && (name.Some? ==> name.value !in XstreamNames(st.xstreams)) && AllRegistered(st.pools, list)
                        && (answer.Ready? || (answer.NoHandle? && !IsPrimary(ChosenName(st, name)))))
            && (!ok ==> st'.xstreams == st.xstreams)
            && (ok && answer.NoHandle? ==> st'.xstreams == st.xstreams + [Xstream(ChosenName(st, name), 0, 0)])
  {
  }

  /** The same for an external xstream. */
  lemma AddedExternalIsFound(st: State, name: Option<string>, h: nat)
    requires NameDefined(st, name, h)
    ensures var ok := AddExternalXstream(st, name, h).1;
            ok <==> && name.Some? && name.value !in XstreamNames(st.xstreams)
                    && NewXstream(st, h) && h in st.sched && AllRegistered(st.pools, SchedOf(st, h))
    ensures var (st', ok) := AddExternalXstream(st, name, h);
            if ok then st'.xstreams == st.xstreams + [Xstream(name.value, h, 0)] && st'.sched == st.sched
            else st'.xstreams == st.xstreams
  {
  }

  // ---- the primary xstream's pools ------------------------------------------

  /** The pools of the primary xstream are marked, so that margo does not free them. */
  ghost predicate MarkedAt(st: State, j: int, i: int) {
    && 0 <= j < |st.xstreams| && 0 <= i < |st.pools| && IsPrimary(st.xstreams[j].name)
    && st.pools[i].handle in SchedOf(st, st.xstreams[j].handle)
    ==> st.pools[i].usedByPrimary
  }

  ghost predicate PrimaryMarked(st: State) {
    forall j, i :: MarkedAt(st, j, i)
  }

  lemma AddPoolKeepsMarks(st: State, name: Option<string>, created: Option<nat>)
    requires Integrity(st) && PrimaryMarked(st) && (created.Some? ==> !Registered(st.pools, created.value))
    ensures PrimaryMarked(AddPool(st, name, created).0)
  {
    var st' := AddPool(st, name, created).0;
    forall j, i ensures MarkedAt(st', j, i) {
      assert MarkedAt(st, j, i);
      if 0 <= j < |st.xstreams| && i == |st.pools| && |st'.pools| > |st.pools| {
        assert RefersOk(st, j);
      }
    }
  }

  lemma AdjustKeepsMarks(st: State, list: seq<nat>, d: int, primary: bool)
    requires PrimaryMarked(st)
    ensures PrimaryMarked(st.(pools := AdjustAll(st.pools, list, d, primary)))
  {
    var st' := st.(pools := AdjustAll(st.pools, list, d, primary));
    forall j, i ensures MarkedAt(st', j, i) {
      assert MarkedAt(st, j, i);
    }
  }

  lemma AppendKeepsMarks(st: State, x: Xstream, list: seq<nat>)
    requires PrimaryMarked(st) && NewXstream(st, x.handle)
    ensures PrimaryMarked(State(AdjustAll(st.pools, list, 1, IsPrimary(x.name)), st.xstreams + [x],
            st.sched[x.handle := list]))
  {
    var st' := State(AdjustAll(st.pools, list, 1, IsPrimary(x.name)), st.xstreams + [x], st.sched[x.handle := list]);
    forall j, i ensures MarkedAt(st', j, i) {
      assert MarkedAt(st, j, i);
      if 0 <= j < |st'.xstreams| && 0 <= i < |st'.pools| {
        if j < |st.xstreams| {
          assert HasXstream(st.xstreams, j, st.xstreams[j].handle);
        } else {
          CountFacts(list, st.pools[i].handle);
        }
      }
    }
  }

  lemma SchedKeepsMarks(st: State, h: nat, list: seq<nat>)
    requires PrimaryMarked(st) && NewXstream(st, h)
    ensures PrimaryMarked(st.(sched := st.sched[h := list]))
  {
    var st' := st.(sched := st.sched[h := list]);
    forall j, i ensures MarkedAt(st', j, i) {
      assert MarkedAt(st, j, i);
      if 0 <= j < |st.xstreams| {
        assert HasXstream(st.xstreams, j, st.xstreams[j].handle);
      }
    }
  }

  lemma NullEntryKeepsMarks(st: State, name: string)
    requires PrimaryMarked(st)
    ensures PrimaryMarked(st.(xstreams := st.xstreams + [Xstream(name, 0, 0)]))
  {
    var st' := st.(xstreams := st.xstreams + [Xstream(name, 0, 0)]);
    forall j, i ensures MarkedAt(st', j, i) {
      assert MarkedAt(st, j, i);
    }
  }

  lemma AddXstreamKeepsMarks(st: State, name: Option<string>, list: seq<nat>, answer: Answer)
    requires PrimaryMarked(st) && AnswerFits(st, name, answer)
    ensures PrimaryMarked(AddXstream(st, name, list, answer).0)
  {
    var (st', ok) := AddXstream(st, name, list, answer);
    var chosen := ChosenName(st, name);
    var known := list[..Known(st.pools, list)];
    match answer
    case NoScheduler =>
    case NoHandle =>
      AdjustKeepsMarks(st, list, 1, false);
      AdjustKeepsMarks(st, known, 1, false);
      NullEntryKeepsMarks(st.(pools := AdjustAll(st.pools, list, 1, false)), chosen);
    case KeepsScheduler(h) =>
      AdjustKeepsMarks(st, SchedOf(st, h)[..Known(st.pools, SchedOf(st, h))], -1, false);
    case Ready(h) =>
      if ok {
        AppendKeepsMarks(st, Xstream(chosen, h, 0), list);
      } else if !NameTaken(st, name) {
        var st1 := st.(pools := AdjustAll(st.pools, known, 1, IsPrimary(chosen)));
        AdjustKeepsMarks(st, known, 1, IsPrimary(chosen));
        AdjustKeepsMarks(st1, known, -1, false);
        SchedKeepsMarks(st1.(pools := st'.pools), h, list);
      }
  }

  lemma AddExternalKeepsMarks(st: State, name: Option<string>, h: nat)
    requires PrimaryMarked(st) && NameDefined(st, name, h)
    ensures PrimaryMarked(AddExternalXstream(st, name, h).0)
  {
    if AddExternalXstream(st, name, h).1 {
      AppendKeepsMarks(st, Xstream(name.value, h, 0), SchedOf(st, h));
      assert st.sched[h := SchedOf(st, h)] == st.sched;
    } else {
      AdjustKeepsMarks(st, SchedOf(st, h)[..Known(st.pools, SchedOf(st, h))], -1, false);
    }
  }

  lemma RemoveKeepsMarks(st: State, st': State, a: nat, b: nat)
    requires PrimaryMarked(st) && st'.sched == st.sched
    requires st'.pools == st.pools || (a < |st.pools| && st'.pools == SwapRemove(st.pools, a))
    requires st'.xstreams == st.xstreams || (b < |st.xstreams| && st'.xstreams == SwapRemove(st.xstreams, b))
    ensures PrimaryMarked(st')
  {
    forall j, i ensures MarkedAt(st', j, i) {
      var i0 := if st'.pools != st.pools && i == a then |st.pools| - 1 else i;
      var j0 := if st'.xstreams != st.xstreams && j == b then |st.xstreams| - 1 else j;
      assert MarkedAt(st, j0, i0);
    }
  }

  lemma ReferenceKeepsMarks(st: State, op: Op)
    requires PrimaryMarked(st) && IsReference(op)
    ensures PrimaryMarked(Step(st, op))
  {
    forall j, i ensures MarkedAt(Step(st, op), j, i) {
      assert MarkedAt(st, j, i);
    }
  }

  lemma StepKeepsMarks(st: State, op: Op)
    requires Integrity(st) && PrimaryMarked(st) && Possible(st, op)
    ensures PrimaryMarked(Step(st, op))
  {
    match op
    case OpAddPool(name, created) => AddPoolKeepsMarks(st, name, created);
    case OpAddExternalPool(name, pool) =>
      if !Registered(st.pools, pool) { AddPoolKeepsMarks(st, name, Some(pool)); }
    case OpAddXstream(name, list, answer) => AddXstreamKeepsMarks(st, name, list, answer);
    case OpAddExternalXstream(name, xstream) => AddExternalKeepsMarks(st, name, xstream);
    case OpRemovePool(index, size) => RemoveKeepsMarks(st, Step(st, op), index, 0);
    case OpRemoveXstream(index) =>
      if RemoveXstream(st, index).1 == Success {
        var list := SchedOf(st, st.xstreams[index].handle);
        AdjustKeepsMarks(st, list[..Known(st.pools, list)], -1, false);
        RemoveKeepsMarks(st.(pools := Step(st, op).pools), Step(st, op), 0, index);
      }
    case _ => ReferenceKeepsMarks(st, op);
  }

  /** Over any run in which no add miscounts, every pool of the primary xstream's scheduler is
      marked. */
  lemma {:induction false} RunKeepsMarks(st: State, ops: seq<Op>)
    requires Integrity(st) && PrimaryMarked(st) && PossibleRun(st, ops) && NeverMiscounts(st, ops)
    ensures PrimaryMarked(Final(st, ops))
    decreases |ops|
  {
    if ops != [] {
      StepKeepsIff(st, ops[0]);
      StepKeepsMarks(st, ops[0]);
      RunKeepsMarks(Step(st, ops[0]), ops[1..]);
    }
  }

  /** The operation sets up the primary xstream. */
  predicate AddsPrimary(op: Op) {
    || (op.OpAddXstream? && op.xstreamName == Some("__primary__"))
    || (op.OpAddExternalXstream? && op.name == Some("__primary__"))
  }

  ghost predicate NothingMarked(st: State) {
    forall i :: 0 <= i < |st.pools| ==> !st.pools[i].usedByPrimary
  }

  /** Default names start with "__xstream_". */
  lemma DefaultNotPrimary(names: seq<string>)
    ensures DefaultName("__xstream_", names) != "__primary__"
  {
    var name := DefaultName("__xstream_", names);
    DefaultNamePrefix("__xstream_", names);
    assert name[..10][2] == 'x' && name[2] == 'x';
  }

  lemma StepMarksNothing(st: State, op: Op)
    requires NothingMarked(st) && Possible(st, op) && !AddsPrimary(op)
    ensures NothingMarked(Step(st, op))
  {
    DefaultNotPrimary(XstreamNames(st.xstreams));
  }

  /** Only the primary xstream marks pools. */
  lemma {:induction false} MarksComeFromPrimary(st: State, ops: seq<Op>)
    requires NothingMarked(st) && PossibleRun(st, ops) && forall k :: 0 <= k < |ops| ==> !AddsPrimary(ops[k])
    ensures NothingMarked(Final(st, ops))
    decreases |ops|
  {
    if ops != [] {
      StepMarksNothing(st, ops[0]);
      MarksComeFromPrimary(Step(st, ops[0]), ops[1..]);
    }
  }
}
