/** The registry as the program keeps it: two growing arrays with swap-removal, refining the
    operations of Registry. */
module RegistryTable {
  import opened Common
  import opened Names
  import opened Registry
  import opened RegistrySafety

  const NoPool: Pool := Pool("", 0, 0, 0, false)
  const NoXstream: Xstream := Xstream("", 0, 0)

  ghost predicate InRange(ps: seq<Pool>) {
    forall i :: 0 <= i < |ps| ==> ps[i].numXstreams < UintRange
  }

  /** __margo_abt_find_pool_by_handle */
  method FindPoolByHandle(ps: seq<Pool>, h: nat) returns (index: int)
    ensures index == -1 <==> !Registered(ps, h)
    ensures index != -1 ==> HasHandle(ps, index, h) && forall i :: 0 <= i < index ==> ps[i].handle != h
  {
    if h == 0 {
      return -1;
    }
    for i := 0 to |ps|
      invariant forall k :: 0 <= k < i ==> ps[k].handle != h
    {
      if ps[i].handle == h {
        assert HasHandle(ps, i, h);
        return i;
      }
    }
    assert !exists i :: HasHandle(ps, i, h);
    return -1;
  }

  /** __margo_abt_find_pool_by_name and __margo_abt_find_xstream_by_name, on the names */
  method FindName(names: seq<string>, name: string) returns (index: int)
    ensures index == -1 <==> name !in names
    ensures index != -1 ==> 0 <= index < |names| && names[index] == name && name !in names[..index]
  {
    for i := 0 to |names|
      invariant forall k :: 0 <= k < i ==> names[k] != name
    {
      if names[i] == name {
        return i;
      }
    }
    return -1;
  }

  /** __margo_abt_find_xstream_by_handle */
  method FindXstreamByHandle(xs: seq<Xstream>, h: nat) returns (index: int)
    ensures index == -1 <==> h == 0 || !exists j :: HasXstream(xs, j, h)
    ensures index != -1 ==> HasXstream(xs, index, h)
  {
    if h == 0 {
      return -1;
    }
    for i := 0 to |xs|
      invariant forall k :: 0 <= k < i ==> !HasXstream(xs, k, h)
    {
      if xs[i].handle == h {
        assert HasXstream(xs, i, h);
        return i;
      }
    }
    return -1;
  }

  lemma FirstIndexIs<T>(s: seq<T>, x: T, i: nat)
    requires i <= |s| && (i < |s| ==> s[i] == x) && forall k :: 0 <= k < i ==> s[k] != x
    ensures FirstIndex(s, x) == i
  {
  }

  /** The loops of the margo_pool_* and margo_xstream_* functions over the entries; the number
      of entries stands for none. */
  method Find(names: seq<string>, handles: seq<nat>, key: Key) returns (i: nat)
    requires |names| == |handles|
    ensures i == Lookup(names, handles, key)
  {
    i := 0;
    match key {
      case Index(k) => i := k;
      case Handle(h) =>
        if h == 0 {
          return |handles|;
        }
        while i < |handles| && handles[i] != h
          invariant 0 <= i <= |handles|
          invariant forall k :: 0 <= k < i ==> handles[k] != h
        {
          i := i + 1;
        }
        FirstIndexIs(handles, h, i);
      case Name(n) =>
        while i < |names| && names[i] != n
          invariant 0 <= i <= |names|
          invariant forall k :: 0 <= k < i ==> names[k] != n
        {
          i := i + 1;
        }
        FirstIndexIs(names, n, i);
    }
  }

  lemma AdjustNone(ps: seq<Pool>, d: int, primary: bool)
    requires InRange(ps)
    ensures AdjustAll(ps, [], d, primary) == ps
  {
  }

  lemma AdjustMore(p: Pool, list: seq<nat>, k: nat, d: int, primary: bool)
    requires k < |list|
    ensures p.handle != list[k] ==> Adjust(p, list[..k + 1], d, primary) == Adjust(p, list[..k], d, primary)
    ensures p.handle == list[k] ==>
      Adjust(p, list[..k + 1], d, primary) == Bumped(Adjust(p, list[..k], d, primary), d, primary)
  {
    assert list[..k + 1][..k] == list[..k];
    var n, c := p.numXstreams, Count(list[..k], p.handle);
    StepMod(n + d * c, d);
    assert n + d * (c + 1) == n + d * c + d;
  }

  function Bumped(p: Pool, d: int, primary: bool): Pool {
    p.(numXstreams := (p.numXstreams + d) % UintRange, usedByPrimary := p.usedByPrimary || primary)
  }

  /** One more slot adjusts exactly the entry of its pool. */
  lemma AdjustOne(ps: seq<Pool>, list: seq<nat>, k: nat, d: int, primary: bool, index: nat)
    requires k < |list| && HandlesOk(ps) && list[k] != 0 && HasHandle(ps, index, list[k])
    ensures var qs := AdjustAll(ps, list[..k], d, primary);
      AdjustAll(ps, list[..k + 1], d, primary) == qs[index := Bumped(qs[index], d, primary)]
  {
    forall i | 0 <= i < |ps|
      ensures Adjust(ps[i], list[..k + 1], d, primary) ==
        if i == index then Bumped(Adjust(ps[i], list[..k], d, primary), d, primary)
        else Adjust(ps[i], list[..k], d, primary)
    {
      AdjustMore(ps[i], list, k, d, primary);
      assert HasHandle(ps, i, ps[i].handle);
    }
  }

  lemma StepMod(a: int, d: int)
    ensures (a % UintRange + d) % UintRange == (a + d) % UintRange
  {
  }

  lemma KnownStops(ps: seq<Pool>, list: seq<nat>, k: nat)
    requires k <= |list| && AllRegistered(ps, list[..k])
    requires k < |list| ==> !Registered(ps, list[k])
    ensures Known(ps, list) == k
  {
  }

  /** The loops over a scheduler's pools in xstream initialisation (d = 1) and destruction
      (d = -1): they stop at the first pool that is not registered. */
  method AdjustUses(ps: seq<Pool>, list: seq<nat>, d: int, primary: bool) returns (ps': seq<Pool>, ok: bool)
    requires HandlesOk(ps) && InRange(ps)
    ensures ps' == AdjustAll(ps, list[..Known(ps, list)], d, primary)
    ensures ok <==> AllRegistered(ps, list)
  {
    ps' := ps;
    AdjustNone(ps, d, primary);
    assert list[..0] == [];
    for k := 0 to |list|
      invariant ps' == AdjustAll(ps, list[..k], d, primary)
      invariant AllRegistered(ps, list[..k])
    {
      AdjustHandles(ps, list[..k], d, primary);
      RegisteredFrame(ps, ps', list[k]);
      var index := FindPoolByHandle(ps', list[k]);
      if index < 0 {
        KnownStops(ps, list, k);
        return ps', false;
      }
      AdjustOne(ps, list, k, d, primary, index);
      ps' := ps'[index := Bumped(ps'[index], d, primary)];
      assert list[..k + 1] == list[..k] + [list[k]];
    }
    assert list[..|list|] == list;
    KnownStops(ps, list, |list|);
    ok := true;
  }

  /** Growth by half, plus one. */
  function Grown<T>(s: seq<T>, fill: T): (r: seq<T>)
    ensures |r| == |s| + |s| / 2 + 1 && r[..|s|] == s
  {
    s + seq(|s| / 2 + 1, _ => fill)
  }

  /** Swap-removal in place: the last entry moves to index i and its slot is cleared. */
  lemma SwapInPlace<T>(s: seq<T>, len: nat, i: nat, fill: T)
    requires i < len <= |s|
    ensures s[i := s[len - 1]][len - 1 := fill][..len - 1] == SwapRemove(s[..len], i)
  {
  }

  class Table {
    var pools: seq<Pool>        // as long as the capacity
    var poolsLen: nat
    var xstreams: seq<Xstream>  // as long as the capacity
    var xstreamsLen: nat
    var sched: map<nat, seq<nat>>

    ghost predicate Shaped()
      reads this
    {
      poolsLen <= |pools| && xstreamsLen <= |xstreams|
    }

    ghost function Abs(): State
      requires Shaped()
      reads this
    {
      State(pools[..poolsLen], xstreams[..xstreamsLen], sched)
    }

    ghost predicate Valid()
      reads this
    {
      Shaped() && Integrity(Abs())
    }

    /** What the operations need: no integrity, so that they also apply after a miscount. */
    ghost predicate Usable()
      reads this
    {
      Shaped() && HandlesOk(pools[..poolsLen]) && InRange(pools[..poolsLen])
    }

    /** Integrity is more than enough. */
    lemma ValidIsUsable()
      requires Valid()
      ensures Usable()
    {
      var st := Abs();
      forall i | 0 <= i < |st.pools| ensures st.pools[i].numXstreams < UintRange {
        assert CountOk(st, i);
        UsesBound(st, st.xstreams, st.pools[i].handle);
      }
    }

    /** Room for one more pool; false when realloc fails. */
    method MakePoolRoom(allocOk: bool) returns (ok: bool)
      requires Shaped()
      modifies this`pools
      ensures Shaped() && Abs() == old(Abs()) && (ok ==> poolsLen < |pools|)
      ensures ok == (allocOk || old(poolsLen < |pools|))
    {
      if poolsLen == |pools| {
        if !allocOk {
          return false;
        }
        pools := Grown(pools, NoPool);
        assert pools[..poolsLen] == old(pools[..poolsLen]);
      }
      ok := true;
    }

    method MakeXstreamRoom(allocOk: bool) returns (ok: bool)
      requires Shaped()
      modifies this`xstreams
      ensures Shaped() && Abs() == old(Abs()) && (ok ==> xstreamsLen < |xstreams|)
      ensures ok == (allocOk || old(xstreamsLen < |xstreams|))
    {
      if xstreamsLen == |xstreams| {
        if !allocOk {
          return false;
        }
        xstreams := Grown(xstreams, NoXstream);
        assert xstreams[..xstreamsLen] == old(xstreams[..xstreamsLen]);
      }
      ok := true;
    }

    /** __margo_abt_add_pool_from_json, and __margo_abt_add_external_pool after its check of
        the handle */
    method AddPool(name: Option<string>, created: Option<nat>, allocOk: bool) returns (ok: bool)
      requires Usable() && (created.Some? ==> !Registered(pools[..poolsLen], created.value))
      modifies this`pools, this`poolsLen
      ensures Usable() && (old(Valid()) ==> Valid())
      ensures allocOk ==> (Abs(), ok) == Registry.AddPool(old(Abs()), name, created)
      ensures !ok ==> Abs() == old(Abs())
    {
      ghost var st := Abs();
      if Valid() { AddPoolKeeps(st, name, created); }
      var names := PoolNames(pools[..poolsLen]);
      if name.Some? {
        var index := FindName(names, name.value);
        if index >= 0 {
          return false;
        }
      }
      ok := MakePoolRoom(allocOk);
      if !ok || created.None? {
        return false;
      }
      var chosen;
      if name.Some? {
        chosen := name.value;
      } else {
        ghost var tried;
        chosen, tried := UnusedName("__pool_", names);
      }
      pools := pools[poolsLen := Pool(chosen, created.value, 0, 0, false)];
      poolsLen := poolsLen + 1;
      assert pools[..poolsLen] == st.pools + [Pool(chosen, created.value, 0, 0, false)];
      AppendedHandles(st.pools, pools[poolsLen - 1]);
    }

    /** __margo_abt_add_external_pool */
    method AddExternalPool(name: Option<string>, h: nat, allocOk: bool) returns (ok: bool)
      requires Usable()
      modifies this`pools, this`poolsLen
      ensures Usable() && (old(Valid()) ==> Valid())
      ensures allocOk ==> (Abs(), ok) == Registry.AddExternalPool(old(Abs()), name, h)
      ensures !ok ==> Abs() == old(Abs())
    {
      var index := FindPoolByHandle(pools[..poolsLen], h);
      if index >= 0 {
        return false;
      }
      ok := AddPool(name, Some(h), allocOk);
    }

    /** __margo_abt_add_external_xstream; `undefined` says that a NULL name reached strcmp. */
    method AddExternalXstream(name: Option<string>, h: nat, allocOk: bool) returns (ok: bool, undefined: bool)
      requires Usable()
      modifies this`pools, this`xstreams, this`xstreamsLen
      ensures Usable()
      ensures undefined <==> (allocOk || old(xstreamsLen < |xstreams|)) && !NameDefined(old(Abs()), name, h)
      ensures undefined ==> !ok && Abs() == old(Abs())
      ensures allocOk && !undefined ==> (Abs(), ok) == Registry.AddExternalXstream(old(Abs()), name, h)
      ensures !allocOk && Abs() != old(Abs()) ==>
        !undefined && NameDefined(old(Abs()), name, h) &&
            (Abs(), ok) == Registry.AddExternalXstream(old(Abs()), name, h)
      ensures old(Valid()) && allocOk &&
              Slots(old(Abs()), old(Abs()).xstreams) + |SchedOf(old(Abs()), h)| < UintRange ==>
        (Valid() <==> !Miscounts(old(Abs()), name, h))
    {
      ghost var st := Abs();
      ok, undefined := false, false;
      if NameDefined(st, name, h) && Valid() && Slots(st, st.xstreams) + |SchedOf(st, h)| < UintRange {
        AddExternalXstreamKeepsIff(st, name, h);
      }
      if name.Some? {
        var index := FindName(XstreamNames(xstreams[..xstreamsLen]), name.value);
        if index >= 0 {
          return;
        }
      }
      var index := FindXstreamByHandle(xstreams[..xstreamsLen], h);
      if index >= 0 {
        return;
      }
      var room := MakeXstreamRoom(allocOk);
      // Argobots refuses the NULL handle and handles it does not know
      if !room || h == 0 || h !in sched {
        return;
      }
      ok, undefined := InitExternal(name, h);
    }

    /** __margo_abt_xstream_init_external, with its clean-up by __margo_abt_xstream_destroy */
    method InitExternal(name: Option<string>, h: nat) returns (ok: bool, undefined: bool)
      requires Usable() && h != 0 && h in sched && xstreamsLen < |xstreams|
      modifies this`pools, this`xstreams, this`xstreamsLen
      ensures Usable() && (ok <==> name.Some? && AllRegistered(old(Abs()).pools, sched[h]))
      ensures undefined <==> name.None? && AllRegistered(old(Abs()).pools, sched[h])
      ensures undefined ==> Abs() == old(Abs())
      ensures ok ==> Abs() == old(Abs()).(
        pools := AdjustAll(old(Abs()).pools, sched[h], 1, IsPrimary(name.value)),
        xstreams := old(Abs()).xstreams + [Xstream(name.value, h, 0)])
      ensures !ok && !undefined ==> Abs() == old(Abs()).(pools := Uncounted(old(Abs()), h))
    {
      ghost var st := Abs();
      var known := CheckRegistered(pools[..poolsLen], sched[h]);
      ok, undefined := known && name.Some?, known && name.None?;
      if !known {
        Uncount(h);
      } else if name.Some? {
        var updated, _ := AdjustUses(pools[..poolsLen], sched[h], 1, name.value == "__primary__");
        KnownIsAll(st.pools, sched[h]);
        AdjustedSame(st.pools, sched[h], 1, name.value == "__primary__", sched[h]);
        Enlist(updated, Xstream(name.value, h, 0));
      }
    }

    /** The counting down in __margo_abt_xstream_destroy */
    method Uncount(h: nat)
      requires Usable()
      modifies this`pools
      ensures Usable() && Abs() == old(Abs()).(pools := Uncounted(old(Abs()), h))
    {
      ghost var st := Abs();
      if h != 0 && h in sched {
        var updated, _ := AdjustUses(pools[..poolsLen], sched[h], -1, false);
        pools := updated + pools[poolsLen..];
        assert pools[..poolsLen] == updated;
      } else {
        AdjustNone(st.pools, -1, false);
      }
      AdjustedSame(st.pools, SchedOf(st, h)[..Known(st.pools, SchedOf(st, h))], -1, false, []);
    }

    /** __margo_abt_remove_pool */
    method RemovePool(i: nat, size: Option<nat>) returns (code: Code)
      requires Usable()
      modifies this`pools, this`poolsLen
      ensures Usable() && (old(Valid()) ==> Valid())
      ensures (Abs(), code) == Registry.RemovePool(old(Abs()), i, size)
    {
      if Valid() { RemovePoolKeeps(Abs(), i, size); }
      if i >= poolsLen {
        return InvalidArg;
      }
      if pools[i].refcount != 0 || pools[i].numXstreams != 0 {
        return Permission;
      }
      match size {
        case None =>
          return OtherError;
        case Some(n) =>
          if n != 0 {
            return Permission;
          }
      }
      SwapInPlace(pools, poolsLen, i, NoPool);
      SwapRemoveDistinct(pools[..poolsLen], i);
      if i != poolsLen - 1 {
        pools := pools[i := pools[poolsLen - 1]];
      }
      poolsLen := poolsLen - 1;
      pools := pools[poolsLen := NoPool];
      assert old(pools)[i := old(pools)[poolsLen]][poolsLen := NoPool] == pools;
      return Success;
    }

    /** __margo_abt_remove_xstream */
    method RemoveXstream(j: nat) returns (code: Code)
      requires Usable()
      modifies this`pools, this`xstreams, this`xstreamsLen
      ensures Usable() && (old(Valid()) ==> Valid())
      ensures (Abs(), code) == Registry.RemoveXstream(old(Abs()), j)
    {
      if Valid() { RemoveXstreamKeeps(Abs(), j); }
      if j >= xstreamsLen {
        return InvalidArg;
      }
      if xstreams[j].name == "__primary__" || xstreams[j].refcount != 0 {
        return Permission;
      }
      Uncount(xstreams[j].handle);
      DropXstream(j);
      return Success;
    }

    /** margo_pool_ref_incr_by_index, _by_handle and _by_name */
    method RefPool(key: Key) returns (code: Code)
      requires Usable()
      modifies this`pools
      ensures Usable() && (old(Valid()) ==> Valid())
      ensures (Abs(), code) == Registry.RefPool(old(Abs()), key)
    {
      var i := Find(PoolNames(pools[..poolsLen]), PoolHandles(pools[..poolsLen]), key);
      if i >= poolsLen {
        return NotFound(key);
      }
      SetPoolRefs(i, OneMore(pools[i].refcount));
      return Success;
    }

    /** margo_pool_release_by_index, _by_handle and _by_name.  Without a reference to give back,
        the latter two unlock the registry's mutex twice. */
    method ReleasePool(key: Key) returns (code: Code, unlocks: nat)
      requires Usable()
      modifies this`pools
      ensures Usable() && (old(Valid()) ==> Valid())
      ensures (Abs(), code) == Registry.ReleasePool(old(Abs()), key)
      ensures unlocks == if code == Permission && !key.Index? then 2 else if code == InvalidArg &&
              key.Handle? then 0 else 1
    {
      if key == Handle(0) {
        return NotFound(key), 0;
      }
      var i := Find(PoolNames(pools[..poolsLen]), PoolHandles(pools[..poolsLen]), key);
      unlocks := 1;
      if i >= poolsLen {
        return NotFound(key), unlocks;
      }
      if pools[i].refcount == 0 {
        return Permission, if key.Index? then unlocks else unlocks + 1;
      }
      SetPoolRefs(i, pools[i].refcount - 1);
      code := Success;
    }

    method SetPoolRefs(i: nat, n: nat)
      requires Usable() && i < poolsLen
      modifies this`pools
      ensures Usable() && (old(Valid()) ==> Valid())
      ensures Abs() == Registry.SetPoolRefs(old(Abs()), i, n)
    {
      if Valid() { PoolRefsKeep(Abs(), i, n); }
      ghost var ps := pools[..poolsLen];
      pools := pools[i := pools[i].(refcount := n)];
      assert pools[..poolsLen] == ps[i := ps[i].(refcount := n)];
      assert SameHandles(ps, pools[..poolsLen]);
    }

    /** margo_xstream_ref_incr_by_index, _by_handle and _by_name */
    method RefXstream(key: Key) returns (code: Code)
      requires Usable()
      modifies this`xstreams
      ensures Usable() && (old(Valid()) ==> Valid())
      ensures (Abs(), code) == Registry.RefXstream(old(Abs()), key)
    {
      var i := Find(XstreamNames(xstreams[..xstreamsLen]), XstreamHandles(xstreams[..xstreamsLen]), key);
      if i >= xstreamsLen {
        return NotFound(key);
      }
      SetXstreamRefs(i, OneMore(xstreams[i].refcount));
      return Success;
    }

    /** margo_xstream_release_by_index, _by_handle and _by_name, with the same second unlock */
    method ReleaseXstream(key: Key) returns (code: Code, unlocks: nat)
      requires Usable()
      modifies this`xstreams
      ensures Usable() && (old(Valid()) ==> Valid())
      ensures (Abs(), code) == Registry.ReleaseXstream(old(Abs()), key)
      ensures unlocks == if code == Permission && !key.Index? then 2 else if code == InvalidArg &&
              key.Handle? then 0 else 1
    {
      if key == Handle(0) {
        return NotFound(key), 0;
      }
      var i := Find(XstreamNames(xstreams[..xstreamsLen]), XstreamHandles(xstreams[..xstreamsLen]), key);
      unlocks := 1;
      if i >= xstreamsLen {
        return NotFound(key), unlocks;
      }
      if xstreams[i].refcount == 0 {
        return Permission, if key.Index? then unlocks else unlocks + 1;
      }
      SetXstreamRefs(i, xstreams[i].refcount - 1);
      code := Success;
    }

    method SetXstreamRefs(i: nat, n: nat)
      requires Usable() && i < xstreamsLen
      modifies this`xstreams
      ensures Usable() && (old(Valid()) ==> Valid())
      ensures Abs() == Registry.SetXstreamRefs(old(Abs()), i, n)
    {
      if Valid() { XstreamRefsKeep(Abs(), i, n); }
      ghost var xs := xstreams[..xstreamsLen];
      xstreams := xstreams[i := xstreams[i].(refcount := n)];
      assert xstreams[..xstreamsLen] == xs[i := xs[i].(refcount := n)];
    }

    method DropXstream(j: nat)
      requires Shaped() && j < xstreamsLen
      modifies this`xstreams, this`xstreamsLen
      ensures Shaped() && Abs() == old(Abs()).(xstreams := SwapRemove(old(Abs()).xstreams, j))
    {
      SwapInPlace(xstreams, xstreamsLen, j, NoXstream);
      if j != xstreamsLen - 1 {
        xstreams := xstreams[j := xstreams[xstreamsLen - 1]];
      }
      xstreamsLen := xstreamsLen - 1;
      xstreams := xstreams[xstreamsLen := NoXstream];
      assert old(xstreams)[j := old(xstreams)[xstreamsLen]][xstreamsLen := NoXstream] == xstreams;
    }

    /** __margo_abt_add_xstream_from_json: refs are the scheduler's pools by index or name. */
    method AddXstream(name: Option<string>, refs: seq<PoolRef>, answer: Answer, allocOk: bool) returns (ok: bool)
      requires Usable() && AnswerFits(Abs(), name, answer)
      modifies this`pools, this`xstreams, this`xstreamsLen, this`sched
      ensures Usable()
      ensures allocOk && InBounds(old(Abs()).pools, refs) ==>
        (Abs(), ok) == Registry.AddXstream(old(Abs()), name, HandlesAt(old(Abs()).pools, refs), answer)
      ensures !allocOk && InBounds(old(Abs()).pools, refs) && Abs() != old(Abs()) ==>
        (Abs(), ok) == Registry.AddXstream(old(Abs()), name, HandlesAt(old(Abs()).pools, refs), answer)
      ensures !InBounds(old(Abs()).pools, refs) ==> !ok && Abs() == old(Abs())
      ensures old(Valid()) && allocOk && InBounds(old(Abs()).pools, refs) ==>
        var list := HandlesAt(old(Abs()).pools, refs);
        Slots(old(Abs()), old(Abs()).xstreams) + Touched(old(Abs()), list, answer) < UintRange ==>
          (Valid() <==> !CreationMiscounts(old(Abs()), name, list, answer))
    {
      ghost var st := Abs();
      var names := XstreamNames(xstreams[..xstreamsLen]);
      var list, found := Resolve(pools[..poolsLen], refs);
      if found && Valid() && Slots(st, st.xstreams) + Touched(st, list, answer) < UintRange {
        AddXstreamKeepsIff(st, name, list, answer);
      }
      if name.Some? {
        var index := FindName(names, name.value);
        if index >= 0 {
          return false;
        }
      }
      ok := MakeXstreamRoom(allocOk);
      if !ok || !found {
        return false;
      }
      var chosen;
      if name.Some? {
        chosen := name.value;
      } else {
        ghost var tried;
        chosen, tried := UnusedName("__xstream_", names);
      }
      ok := InitXstream(chosen, list, answer);
    }

    /** __margo_abt_xstream_init_from_json after it has looked up the scheduler's pools */
    method InitXstream(name: string, list: seq<nat>, answer: Answer) returns (ok: bool)
      requires Usable() && xstreamsLen < |xstreams| && (answer.KeepsScheduler? ==> IsPrimary(name))
      requires answer.Ready? ==> answer.handle != 0
      modifies this`pools, this`xstreams, this`xstreamsLen, this`sched
      ensures Usable() && (Abs(), ok) == Registry.InitXstream(old(Abs()), name, list, answer)
    {
      var primary := name == "__primary__";
      if answer.NoScheduler? || (primary && answer.NoHandle?) {
        return false;
      }
      if answer.KeepsScheduler? {
        Uncount(answer.handle);
        return false;
      }
      if answer.NoHandle? {
        ok := CountUp(list, false);
        if ok {
          Enlist(pools[..poolsLen], Xstream(name, 0, 0));
        }
      } else {
        ok := InitReady(name, list, answer.handle);
      }
    }

    /** The counting up in __margo_abt_xstream_init_from_json */
    method CountUp(list: seq<nat>, primary: bool) returns (ok: bool)
      requires Usable()
      modifies this`pools
      ensures Usable() && (ok <==> AllRegistered(old(Abs()).pools, list))
      ensures Abs() == old(Abs()).(
        pools := AdjustAll(old(Abs()).pools, list[..Known(old(Abs()).pools, list)], 1, primary))
      ensures ok ==> list[..Known(old(Abs()).pools, list)] == list
    {
      ghost var ps := pools[..poolsLen];
      var updated;
      updated, ok := AdjustUses(pools[..poolsLen], list, 1, primary);
      AdjustedSame(ps, list[..Known(ps, list)], 1, primary, []);
      if ok { KnownIsAll(ps, list); }
      pools := updated + pools[poolsLen..];
      assert pools[..poolsLen] == updated;
    }

    /** An xstream that runs the new scheduler: counted, or counted back when a pool of the
        scheduler is not registered, and freed unless it is the primary one */
    method InitReady(name: string, list: seq<nat>, h: nat) returns (ok: bool)
      requires Usable() && xstreamsLen < |xstreams| && h != 0
      modifies this`pools, this`xstreams, this`xstreamsLen, this`sched
      ensures Usable() && (Abs(), ok) == Registry.InitXstream(old(Abs()), name, list, Ready(h))
    {
      ghost var ps := pools[..poolsLen];
      var primary, before := name == "__primary__", sched;
      sched := sched[h := list];
      ok := CountUp(list, primary);
      if ok {
        Enlist(pools[..poolsLen], Xstream(name, h, 0));
      } else {
        AdjustedSame(ps, list[..Known(ps, list)], 1, primary, list);
        Uncount(h);
        if !primary {
          sched := before;
        }
      }
    }

    method Enlist(updated: seq<Pool>, x: Xstream)
      requires Shaped() && xstreamsLen < |xstreams| && |updated| == poolsLen
      modifies this`pools, this`xstreams, this`xstreamsLen
      ensures Shaped() && Abs() == State(updated, old(Abs()).xstreams + [x], sched)
    {
      pools := updated + pools[poolsLen..];
      assert pools[..poolsLen] == updated;
      xstreams := xstreams[xstreamsLen := x];
      xstreamsLen := xstreamsLen + 1;
      assert xstreams[..xstreamsLen] == old(xstreams[..xstreamsLen]) + [x];
    }
  }

  /** A scheduler's reference to a pool. */
  datatype PoolRef = ByIndex(index: nat) | ByName(name: string)

  function FirstNamed(ps: seq<Pool>, name: string): (i: nat)
    ensures i <= |ps|
    ensures i < |ps| ==> ps[i].name == name
    ensures forall k :: 0 <= k < i ==> ps[k].name != name
  {
    if ps == [] then 0 else if ps[0].name == name then 0 else FirstNamed(ps[1..], name) + 1
  }

  /** The index that a reference stands for; out of bounds when there is none. */
  function IndexFor(ps: seq<Pool>, ref: PoolRef): nat {
    match ref
    case ByIndex(i) => i
    case ByName(name) => FirstNamed(ps, name)
  }

  ghost predicate InBounds(ps: seq<Pool>, refs: seq<PoolRef>) {
    forall k :: 0 <= k < |refs| ==> IndexFor(ps, refs[k]) < |ps|
  }

  ghost function HandlesAt(ps: seq<Pool>, refs: seq<PoolRef>): (list: seq<nat>)
    requires InBounds(ps, refs)
    ensures |list| == |refs|
    ensures forall k :: 0 <= k < |refs| ==> list[k] == ps[IndexFor(ps, refs[k])].handle
  {
    if refs == [] then []
    else HandlesAt(ps, refs[..|refs| - 1]) + [ps[IndexFor(ps, refs[|refs| - 1])].handle]
  }

  /** The index of one reference, as __margo_abt_sched_init_from_json looks it up */
  method LookUp(ps: seq<Pool>, ref: PoolRef) returns (i: nat)
    ensures i == IndexFor(ps, ref)
  {
    match ref {
      case ByIndex(index) =>
        i := index;
      case ByName(name) =>
        i := 0;
        while i < |ps| && ps[i].name != name
          invariant 0 <= i <= |ps|
          invariant forall k :: 0 <= k < i ==> ps[k].name != name
        {
          i := i + 1;
        }
    }
  }

  /** The pool references of __margo_abt_sched_init_from_json, with its bound check. */
  method Resolve(ps: seq<Pool>, refs: seq<PoolRef>) returns (list: seq<nat>, found: bool)
    ensures found <==> InBounds(ps, refs)
    ensures found ==> list == HandlesAt(ps, refs)
  {
    list := [];
    for i := 0 to |refs|
      invariant |list| == i
      invariant forall k :: 0 <= k < i ==> IndexFor(ps, refs[k]) < |ps| && list[k] == ps[IndexFor(ps, refs[k])].handle
    {
      var index := LookUp(ps, refs[i]);
      if index >= |ps| {
        return list, false;
      }
      list := list + [ps[index].handle];
    }
    found := true;
  }

  /** Adjusting changes neither handles nor ranges. */
  lemma AdjustedSame(ps: seq<Pool>, known: seq<nat>, d: int, primary: bool, list: seq<nat>)
    requires HandlesOk(ps) && InRange(ps)
    ensures var qs := AdjustAll(ps, known, d, primary);
      HandlesOk(qs) && InRange(qs) && Known(qs, list) == Known(ps, list)
  {
    var qs := AdjustAll(ps, known, d, primary);
    AdjustHandles(ps, known, d, primary);
    AllRegisteredFrame(ps, qs, list[..Known(ps, list)]);
    if Known(ps, list) < |list| {
      RegisteredFrame(ps, qs, list[Known(ps, list)]);
    }
    KnownStops(qs, list, Known(ps, list));
  }

  /** __margo_abt_sched_init_external: are all pools of the scheduler registered? */
  method CheckRegistered(ps: seq<Pool>, list: seq<nat>) returns (ok: bool)
    ensures ok <==> AllRegistered(ps, list)
  {
    for i := 0 to |list|
      invariant forall k :: 0 <= k < i ==> Registered(ps, list[k])
    {
      var index := FindPoolByHandle(ps, list[i]);
      if index < 0 {
        return false;
      }
    }
    return true;
  }
}
