/** The cache of RPC handles: a linked free list of handles that carry their own back-pointer
    into the cache.  A cache element and its handle share one number; 0 is NULL. */
module HandleCache {
  import opened Common

  /** margo_handle_data: whether its instance is set, the cache element it belongs to (0 for
      a handle that is not cached) and the user data. */
  datatype Data = Data(mid: bool, cacheEl: nat, user: nat)

  function Clean(el: nat): Data {
    Data(false, el, 0)
  }

  /** Where a handle is: on the free list, popped and being reset, held by a caller, or
      destroyed; handles created outside the cache are separate. */
  datatype Owner = Free | Resetting | Held | Destroyed | Uncached

  predicate LinkAt(next: seq<nat>, q: seq<nat>, i: int) {
    && 0 <= i < |q| && 0 < q[i] < |next|
    && next[q[i]] == (if i + 1 < |q| then q[i + 1] else 0)
  }

  ghost predicate Chained(head: nat, next: seq<nat>, q: seq<nat>) {
    && head == (if q == [] then 0 else q[0])
    && (forall i :: 0 <= i < |q| ==> LinkAt(next, q, i))
  }

  /** LL_PREPEND */
  lemma PrependRefines(head: nat, next: seq<nat>, q: seq<nat>, x: nat)
    requires Chained(head, next, q) && Distinct(q) && 0 < x < |next| && x !in q
    ensures Chained(x, next[x := head], [x] + q) && Distinct([x] + q)
  {
    var next', q' := next[x := head], [x] + q;
    forall i | 0 <= i < |q'| ensures LinkAt(next', q', i) {
      assert i > 0 ==> LinkAt(next, q, i - 1);
    }
  }

  /** LL_DELETE of the head */
  lemma PopRefines(head: nat, next: seq<nat>, q: seq<nat>)
    requires Chained(head, next, q) && Distinct(q) && q != []
    ensures 0 < head < |next| && head == q[0]
    ensures Chained(next[head], next, q[1..]) && Distinct(q[1..]) && head !in q[1..]
  {
    assert LinkAt(next, q, 0);
    var q' := q[1..];
    forall i | 0 <= i < |q'| ensures LinkAt(next, q', i) {
      assert LinkAt(next, q, i + 1);
    }
  }

  /** What the data and the reference count of a handle look like, by owner. */
  predicate HandleOk(el: nat, owner: Owner, data: Data, refs: nat) {
    match owner
    case Free => data == Clean(el) && refs == 1
    case Resetting => data == Clean(el) && refs == 1
    case Held => data.cacheEl == el && refs >= 1
    case Destroyed => true
    case Uncached => data.cacheEl == 0
  }

  /** Every handle has one owner, and the free list holds exactly the free ones, once each. */
  ghost predicate Conserved(free: seq<nat>, owner: seq<Owner>, data: seq<Data>, refs: seq<nat>) {
    && |owner| == |data| == |refs| && 0 < |owner|
    && Distinct(free)
    && (forall i :: 0 <= i < |free| ==> 0 < free[i] < |owner|)
    && (forall el: nat :: 0 < el < |owner| ==> HandleOk(el, owner[el], data[el], refs[el]))
    && (forall el: nat :: 0 < el < |owner| ==> (owner[el] == Free <==> el in free))
  }

  /** Exactly the elements of freed were destroyed. */
  ghost predicate DestroyedOf(before: seq<Owner>, after: seq<Owner>, freed: seq<nat>) {
    && |after| == |before|
    && (forall el: nat :: el < |after| ==> after[el] == if el in freed then Destroyed else before[el])
  }

  lemma DestroyMore(before: seq<Owner>, after: seq<Owner>, freed: seq<nat>, el: nat)
    requires DestroyedOf(before, after, freed) && el < |after|
    ensures DestroyedOf(before, after[el := Destroyed], freed + [el])
  {
  }

  lemma NullMeansEmpty(head: nat, next: seq<nat>, q: seq<nat>)
    requires Chained(head, next, q)
    ensures head == 0 <==> q == []
  {
    if q != [] {
      assert LinkAt(next, q, 0);
    }
  }

  lemma MoveOver(done: seq<nat>, el: nat, rest: seq<nat>)
    ensures done + ([el] + rest) == (done + [el]) + rest
  {
  }

  class Cache {
    var head: nat
    var next: seq<nat>
    var data: seq<Data>
    var refs: seq<nat>              // Mercury's reference counts
    ghost var free: seq<nat>
    ghost var owner: seq<Owner>
    ghost var strayed: set<nat>     // cached handles whose heap data went into the arena

    ghost predicate Valid()
      reads this
    {
      && |next| == |owner| && Chained(head, next, free)
      && Conserved(free, owner, data, refs)
    }

    /** __margo_handle_cache_init; when it fails after `made` elements, the elements made so
        far are destroyed again. */
    constructor (size: nat, made: nat)
      requires made <= size
      ensures Valid() && strayed == {} && |owner| == made + 1
      ensures forall el :: 0 < el <= made ==> owner[el] == if made == size then Free else Destroyed
    {
      var h: nat, i: nat := 0, 0;
      var nx: seq<nat> := seq(made + 1, _ => 0);
      ghost var q: seq<nat> := [];
      while i < made
        invariant 0 <= i <= made && |nx| == made + 1
        invariant Chained(h, nx, q) && Distinct(q) && forall el: nat :: el in q <==> 0 < el <= i
      {
        PrependRefines(h, nx, q, i + 1);
        nx := nx[i + 1 := h];
        h := i + 1;
        q := [i + 1] + q;
        i := i + 1;
      }
      assert forall k :: 0 <= k < |q| ==> q[k] in q;
      head, next, refs := h, nx, seq(made + 1, _ => 1);
      data := seq(made + 1, (k: nat) => Clean(k));
      free, owner, strayed := q, seq(made + 1, (k: nat) => if k == 0 then Uncached else Free), {};
      new;
      if made < size {
        ghost var all := owner;
        var freed := Destroy();
        assert DestroyedOf(all, owner, freed);
      }
    }

    /** HG_Create for a handle outside the cache, without data so far */
    method CreateUncached() returns (h: nat)
      requires Valid()
      modifies this
      ensures Valid() && h == old(|owner|) && owner == old(owner) + [Uncached]
      ensures data == old(data) + [Data(false, 0, 0)] && refs == old(refs) + [1]
      ensures free == old(free) && strayed == old(strayed)
    {
      h := |next|;
      forall i | 0 <= i < |free| ensures LinkAt(next + [0], free, i) {
        assert LinkAt(next, free, i);
      }
      assert h !in free;
      next, data, refs := next + [0], data + [Data(false, 0, 0)], refs + [1];
      owner := owner + [Uncached];
    }

    /** The first critical section of __margo_handle_cache_get; 0 stands for an empty list. */
    method Pop() returns (el: nat)
      requires Valid()
      modifies this`head, this`free, this`owner
      ensures Valid() && (el == 0 <==> old(free) == [])
      ensures el == 0 ==> free == old(free) && owner == old(owner)
      ensures el != 0 ==> [el] + free == old(free) && owner == old(owner)[el := Resetting]
    {
      el := head;
      NullMeansEmpty(head, next, free);
      if el != 0 {
        PopRefines(head, next, free);
        head := next[el];
        free, owner := free[1..], owner[el := Resetting];
      }
    }

    /** The rest of __margo_handle_cache_get: HG_Reset outside the lock, and on failure the
        element goes back on the free list. */
    method FinishReset(el: nat, resetOk: bool)
      requires Valid() && 0 < el < |owner| && owner[el] == Resetting
      modifies this`head, this`next, this`free, this`owner
      ensures Valid()
      ensures owner == old(owner)[el := if resetOk then Held else Free]
      ensures free == if resetOk then old(free) else [el] + old(free)
    {
      if resetOk {
        owner := owner[el := Held];
      } else {
        PrependRefines(head, next, free, el);
        next := next[el := head];
        head := el;
        free, owner := [el] + free, owner[el := Free];
      }
    }

    /** __margo_internal_set_handle_data, and the user data set by the caller */
    method Attach(h: nat, user: nat)
      requires Valid() && 0 < h < |owner| && (owner[h] == Held || owner[h] == Uncached)
      modifies this`data
      ensures Valid() && data == old(data)[h := Data(true, old(data)[h].cacheEl, user)]
    {
      data := data[h := Data(true, data[h].cacheEl, user)];
    }

    /** margo_ref_incr */
    method Ref(h: nat)
      requires Valid() && 0 < h < |owner| && (owner[h] == Held || owner[h] == Uncached)
      modifies this`refs
      ensures Valid() && refs == old(refs)[h := old(refs)[h] + 1]
    {
      refs := refs[h := refs[h] + 1];
    }

    /** __margo_handle_cache_put: only a cached handle is taken, and it comes back clean. */
    method Put(h: nat) returns (ok: bool)
      requires Valid() && 0 < h < |owner| && refs[h] == 1 && (owner[h] == Held || owner[h] == Uncached)
      modifies this`head, this`next, this`data, this`free, this`owner
      ensures Valid() && (ok <==> old(owner)[h] == Held)
      ensures ok ==> free == [h] + old(free) && owner == old(owner)[h := Free] && data == old(data)[h := Clean(h)]
      ensures !ok ==> free == old(free) && owner == old(owner) && data == old(data)
    {
      var el := data[h].cacheEl;
      if el == 0 {
        return false;
      }
      data := data[h := Data(false, el, 0)];
      PrependRefines(head, next, free, el);
      next := next[el := head];
      head := el;
      free, owner := [el] + free, owner[el := Free];
      ok := true;
    }

    /** HG_Destroy: drops one reference; with the last one the handle is destroyed and
        __margo_handle_data_free disposes of its data, to the arena if the instance is set. */
    method HgDestroy(h: nat)
      requires Valid() && 0 < h < |owner| && refs[h] >= 1 && (owner[h] == Held || owner[h] == Uncached)
      modifies this`refs, this`owner, this`strayed
      ensures Valid()
      ensures owner == if old(refs)[h] == 1 then old(owner)[h := Destroyed] else old(owner)
      ensures refs == old(refs)[h := old(refs)[h] - 1]
      ensures strayed == old(strayed) +
        (if old(refs)[h] == 1 && old(owner)[h] == Held && data[h].mid then {h} else {})
    {
      if refs[h] == 1 {
        if data[h].mid && data[h].cacheEl != 0 {
          strayed := strayed + {h};
        }
        owner := owner[h := Destroyed];
      }
      refs := refs[h := refs[h] - 1];
    }

    /** margo_destroy; `observed` is the reference count read beforehand, which is 1 only for
        the last holder but may be out of date when it is larger.  A handle whose instance is
        not set is neither recycled nor destroyed. */
    method MargoDestroy(h: nat, observed: nat) returns (ok: bool)
      requires Valid() && 0 < h < |owner| && (owner[h] == Held || owner[h] == Uncached)
      requires refs[h] >= 1 && (observed == 1 ==> refs[h] == 1)
      modifies this`head, this`next, this`data, this`refs, this`free, this`owner, this`strayed
      ensures Valid() && |owner| == old(|owner|)
      ensures owner[h] == Free <==> observed == 1 && old(owner)[h] == Held && old(data)[h].mid
      ensures owner[h] == Free ==> free == [h] + old(free) && owner == old(owner)[h := Free] && data[h] == Clean(h)
      ensures owner[h] == Free ==> refs == old(refs) && strayed == old(strayed)
      ensures observed == 1 && old(data)[h].mid && old(owner)[h] == Uncached ==>
        && owner == old(owner)[h := Destroyed] && refs == old(refs)[h := 0] && free == old(free)
        && data == old(data) && strayed == old(strayed)
      ensures observed == 1 && !old(data)[h].mid ==>
        !ok && owner == old(owner) && free == old(free) && refs == old(refs) && data == old(data)
      ensures ok <==> !(observed == 1 && !old(data)[h].mid)
      ensures old(refs)[h] > 1 ==> owner == old(owner) && free == old(free)
      ensures strayed != old(strayed) ==>
        observed != 1 && old(refs)[h] == 1 && old(owner)[h] == Held && old(data)[h].mid
      ensures observed != 1 && old(refs)[h] == 1 && old(owner)[h] == Held && old(data)[h].mid ==>
        strayed == old(strayed) + {h} && owner == old(owner)[h := Destroyed]
      ensures observed != 1 ==> refs == old(refs)[h := old(refs)[h] - 1] && data == old(data)
    {
      if observed != 1 {
        HgDestroy(h);
        return true;
      }
      if !data[h].mid {
        return false;
      }
      var recycled := Put(h);
      if !recycled {
        HgDestroy(h);
      }
      return true;
    }

    /** margo_create when the handle comes from the cache and its data cannot be set up: the
        caller's margo_destroy fails, and the handle never comes back to the cache. */
    method FailedCreate() returns (h: nat)
      requires Valid() && free != []
      modifies this`head, this`next, this`data, this`refs, this`free, this`owner, this`strayed
      ensures Valid() && [h] + free == old(free) && 0 < h < |owner| && owner == old(owner)[h := Held]
      ensures refs == old(refs) && data == old(data) && !data[h].mid
    {
      h := Pop();
      FinishReset(h, true);
      var ok := MargoDestroy(h, 1);
    }

    /** One round of the loop in __margo_handle_cache_destroy */
    method DestroyFirst() returns (el: nat)
      requires Valid() && head != 0
      modifies this`head, this`refs, this`free, this`owner, this`strayed
      ensures Valid() && strayed == old(strayed) && 0 < el < |owner| && old(owner)[el] == Free
      ensures [el] + free == old(free) && owner == old(owner)[el := Destroyed] && refs == old(refs)[el := 0]
    {
      el := Pop();
      owner := owner[el := Held];
      HgDestroy(el);
    }

    /** Two holders that both read a count of two destroy a cached handle for good, and its
        heap data ends up in the arena. */
    method RacingDestroys(h: nat)
      requires Valid() && 0 < h < |owner| && owner[h] == Held && refs[h] == 2 && data[h].mid
      modifies this`head, this`next, this`data, this`refs, this`free, this`owner, this`strayed
      ensures Valid() && h in strayed && owner == old(owner)[h := Destroyed]
    {
      var ok := MargoDestroy(h, 2);
      ok := MargoDestroy(h, 2);
    }

    /** __margo_handle_cache_destroy: destroys the handles on the free list, each once; their
        data goes back to the heap, never into the arena. */
    method Destroy() returns (freed: seq<nat>)
      requires Valid()
      modifies this`head, this`refs, this`free, this`owner, this`strayed
      ensures Valid() && freed == old(free) && free == [] && strayed == old(strayed)
      ensures DestroyedOf(old(owner), owner, freed)
      ensures forall el: nat :: el < |owner| ==> refs[el] == if el in freed then 0 else old(refs)[el]
    {
      freed := [];
      while head != 0
        invariant Valid() && old(free) == freed + free && strayed == old(strayed)
        invariant DestroyedOf(old(owner), owner, freed)
        invariant forall el: nat :: el < |owner| ==> refs[el] == if el in freed then 0 else old(refs)[el]
        decreases |free|
      {
        ghost var was := owner;
        var el := DestroyFirst();
        DestroyMore(old(owner), was, freed, el);
        MoveOver(freed, el, free);
        freed := freed + [el];
      }
      NullMeansEmpty(head, next, free);
    }

    /** A handle still held when the cache is destroyed, and given up afterwards, goes onto the
        list of the destroyed cache, where nobody destroys it any more. */
    method LatePut(h: nat)
      requires Valid() && 0 < h < |owner| && owner[h] == Held && refs[h] == 1 && data[h].mid
      modifies this`head, this`next, this`data, this`refs, this`free, this`owner, this`strayed
      ensures Valid() && free == [h] && |owner| == old(|owner|) && owner[h] == Free
      ensures forall el: nat :: 0 < el < |owner| && el != h ==>
                owner[el] == if old(owner)[el] == Free then Destroyed else old(owner)[el]
    {
      var freed := Destroy();
      var ok := MargoDestroy(h, 1);
    }
  }
}
