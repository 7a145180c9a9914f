/** Where the slab allocator puts its objects: rounding, lists threaded through raw memory,
    and the layout of objects in blocks. */
module ArenaLayout {
  import opened Common
  import opened Memory
  import Bits

  // ---- rounding -------------------------------------------------------------

  /** (x + (a - 1)) & ~(a - 1) on n-bit words, for a = 2^k */
  function RoundUp(x: nat, n: nat, k: nat): nat
    requires k < n
  {
    Bits.Pow2Monotone(k, n);
    Bits.And((x + (Bits.Pow2(k) - 1)) % Bits.Pow2(n), Bits.Pow2(n) - Bits.Pow2(k))
  }

  predicate LeastMultiple(r: nat, x: nat, a: nat) {
    a > 0 && r % a == 0 && x <= r < x + a
  }

  lemma RoundUpValue(x: nat, n: nat, k: nat)
    requires k < n && x + Bits.Pow2(k) <= Bits.Pow2(n)
    ensures RoundUp(x, n, k) == Bits.And(x + Bits.Pow2(k) - 1, Bits.Pow2(n) - Bits.Pow2(k))
  {
    Bits.SmallMod(x + (Bits.Pow2(k) - 1), Bits.Pow2(n));
  }

  lemma RoundUpPlain(x: nat, n: nat, k: nat)
    requires k < n && x + Bits.Pow2(k) <= Bits.Pow2(n)
    ensures LeastMultiple(RoundUp(x, n, k), x, Bits.Pow2(k))
  {
    RoundUpValue(x, n, k);
    Bits.AndHighMask(x + Bits.Pow2(k) - 1, n, k);
    Cleared(x + Bits.Pow2(k) - 1, Bits.Pow2(k));
  }

  lemma RoundUpWraps(x: nat, n: nat, k: nat)
    requires k < n && x < Bits.Pow2(n) < x + Bits.Pow2(k)
    ensures RoundUp(x, n, k) == 0
  {
    var a, N := Bits.Pow2(k), Bits.Pow2(n);
    Bits.Pow2Monotone(k, n);
    var y := x + (a - 1);
    Bits.DivModUnique(y, N, 1, y - N);
    Bits.AndHighMask(y - N, n, k);
    Bits.SmallMod(y - N, a);
  }

  /** Rounding up gives the least multiple of a that is not below x exactly when the sum
      does not wrap around; otherwise it gives 0. */
  lemma RoundUpIff(x: nat, n: nat, k: nat)
    requires k < n && x < Bits.Pow2(n)
    ensures LeastMultiple(RoundUp(x, n, k), x, Bits.Pow2(k)) <==> x + Bits.Pow2(k) <= Bits.Pow2(n)
    ensures x + Bits.Pow2(k) > Bits.Pow2(n) ==> RoundUp(x, n, k) == 0
  {
    Bits.Pow2Monotone(k, n);
    if x + Bits.Pow2(k) <= Bits.Pow2(n) {
      RoundUpPlain(x, n, k);
    } else {
      RoundUpWraps(x, n, k);
    }
  }

  lemma Cleared(y: nat, a: nat)
    requires a > 0
    ensures (y - y % a) % a == 0 && y - a < y - y % a <= y
  {
    Bits.DivModUnique(y - y % a, a, y / a, 0);
  }

  lemma MulMonotone(i: nat, j: nat, a: nat)
    ensures i <= j ==> i * a <= j * a
    ensures i < j ==> i * a + a <= j * a
  {
    if i < j {
      Bits.MulStep(i, j, a);
    }
  }

  /** No smaller multiple reaches x. */
  lemma LeastMultipleIsLeast(r: nat, x: nat, a: nat, m: nat)
    requires LeastMultiple(r, x, a) && m % a == 0 && m >= x
    ensures r <= m
  {
    var i, j := m / a, r / a;
    assert m == i * a && r == j * a;
    MulMonotone(j, i, a);
    MulMonotone(i, j, a);
  }

  // ---- lists threaded through memory ----------------------------------------

  ghost predicate LinkAt(mem: seq<byte>, list: seq<nat>, i: int) {
    && 0 <= i < |list| && 0 < list[i] && list[i] + PointerSize <= |mem|
    && Load(mem, list[i]) == (if i + 1 < |list| then list[i + 1] else 0)
  }

  /** Starting from head, the words in memory spell out the list. */
  ghost predicate Chain(mem: seq<byte>, head: nat, list: seq<nat>) {
    && head == (if list == [] then 0 else list[0])
    && (forall i :: 0 <= i < |list| ==> LinkAt(mem, list, i))
  }

  lemma ChainFrame(mem: seq<byte>, mem': seq<byte>, head: nat, list: seq<nat>)
    requires Chain(mem, head, list) && |mem'| == |mem|
    requires forall x :: x in list && x + PointerSize <= |mem| ==>
             Bytes(mem', x, PointerSize) == Bytes(mem, x, PointerSize)
    ensures Chain(mem', head, list)
  {
    forall i | 0 <= i < |list| ensures LinkAt(mem', list, i) {
      assert LinkAt(mem, list, i);
      assert list[i] in list;
    }
  }

  predicate Apart(x: nat, y: nat, n: nat) {
    x + n <= y || y + n <= x
  }

  /** Storing the old head in x puts x in front. */
  lemma ChainPush(mem: seq<byte>, head: nat, list: seq<nat>, x: nat)
    requires Chain(mem, head, list) && 0 < x && x + PointerSize <= |mem| <= AddressSpace
    requires forall y :: y in list ==> Apart(x, y, PointerSize)
    ensures Chain(Store(mem, x, head), x, [x] + list)
  {
    var mem', list' := Store(mem, x, head), [x] + list;
    if list != [] {
      assert LinkAt(mem, list, 0);
    }
    LoadStore(mem, x, head);
    forall i | 0 <= i < |list'| ensures LinkAt(mem', list', i) {
      if i > 0 {
        assert LinkAt(mem, list, i - 1);
        assert list[i - 1] in list;
        LoadStoreElsewhere(mem, x, head, list[i - 1]);
      }
    }
  }

  lemma ChainTail(mem: seq<byte>, head: nat, list: seq<nat>)
    requires Chain(mem, head, list) && list != []
    ensures LinkAt(mem, list, 0) && Chain(mem, Load(mem, list[0]), list[1..])
  {
    assert LinkAt(mem, list, 0);
    var rest := list[1..];
    forall i | 0 <= i < |rest| ensures LinkAt(mem, rest, i) {
      assert LinkAt(mem, list, i + 1);
    }
  }

  // ---- the layout of the objects --------------------------------------------

  const Header: nat := 8

  function Total(size: nat, cap: nat): nat {
    Header + cap * size
  }

  predicate InBlock(x: nat, size: nat, b: nat, total: nat) {
    b + Header <= x && x + size <= b + total
  }

  ghost predicate Placed(x: nat, size: nat, total: nat, blks: seq<nat>) {
    x % 8 == 0 && exists b :: b in blks && InBlock(x, size, b, total)
  }

  ghost predicate BlocksOk(blks: seq<nat>, total: nat, limit: nat) {
    && (forall i, j :: 0 <= i < j < |blks| ==> Apart(blks[i], blks[j], total))
    && (forall b :: b in blks ==> 0 < b && b % 8 == 0 && b + total <= limit)
  }

  /** x is a free object or one in use. */
  ghost predicate IsObject(free: seq<nat>, live: set<nat>, x: nat) {
    x in free || x in live
  }

  /** All objects are aligned, inside blocks and pairwise disjoint. */
  ghost predicate ObjectsOk(free: seq<nat>, live: set<nat>, size: nat, total: nat, blks: seq<nat>) {
    && (forall x: nat :: IsObject(free, live, x) ==> Placed(x, size, total, blks))
    && (forall x: nat, y: nat :: IsObject(free, live, x) && IsObject(free, live, y) && x != y ==> Apart(x, y, size))
  }

  /** No object is free twice, or both free and in use. */
  ghost predicate OnceEach(free: seq<nat>, live: set<nat>) {
    && Distinct(free)
    && (forall i :: 0 <= i < |free| ==> free[i] !in live)
  }

  ghost predicate Layout(size: nat, cap: nat, limit: nat, free: seq<nat>, live: set<nat>, blks: seq<nat>) {
    && size >= PointerSize && size % 8 == 0 && cap >= 1
    && BlocksOk(blks, Total(size, cap), limit)
    && ObjectsOk(free, live, size, Total(size, cap), blks)
    && OnceEach(free, live)
    && |free| + |live| == cap * |blks|
  }

  /** An object never overlaps the header of a block. */
  lemma HeaderApart(size: nat, cap: nat, limit: nat, blks: seq<nat>, x: nat, b: nat)
    requires BlocksOk(blks, Total(size, cap), limit)
    requires Placed(x, size, Total(size, cap), blks) && b in blks
    ensures x + size <= b || b + Header <= x
  {
    var c :| c in blks && InBlock(x, size, c, Total(size, cap));
    if b != c {
      var i :| 0 <= i < |blks| && blks[i] == b;
      var j :| 0 <= j < |blks| && blks[j] == c;
      assert i < j ==> Apart(blks[i], blks[j], Total(size, cap));
      assert j < i ==> Apart(blks[j], blks[i], Total(size, cap));
    }
  }

  lemma PlacedInMemory(size: nat, cap: nat, limit: nat, blks: seq<nat>, x: nat)
    requires BlocksOk(blks, Total(size, cap), limit) && Placed(x, size, Total(size, cap), blks)
    ensures 0 < x && x + size <= limit
  {
    var c :| c in blks && InBlock(x, size, c, Total(size, cap));
  }

  // ---- a new block ----------------------------------------------------------

  /** The objects of a new block at b, in the order in which growing threads them. */
  function NewSlots(b: nat, size: nat, n: nat): (s: seq<nat>)
    ensures |s| == n
  {
    if n == 0 then [] else [b + Header + (n - 1) * size] + NewSlots(b, size, n - 1)
  }

  lemma {:induction false} NewSlotsInside(b: nat, size: nat, n: nat)
    requires b % 8 == 0 && size % 8 == 0
    ensures forall x :: x in NewSlots(b, size, n) ==> b + Header <= x && x + size <= b + Header + n * size && x % 8 == 0
    decreases n
  {
    if n > 0 {
      NewSlotsInside(b, size, n - 1);
      FirstSlotInside(b, size, n);
    }
  }

  lemma {:induction false} MultipleOf8(j: nat, size: nat)
    requires size % 8 == 0
    ensures (j * size) % 8 == 0
    decreases j
  {
    if j > 0 {
      MultipleOf8(j - 1, size);
      assert j * size == (j - 1) * size + size;
    }
  }

  lemma FirstSlotInside(b: nat, size: nat, n: nat)
    requires b % 8 == 0 && size % 8 == 0 && n > 0
    ensures var x := b + Header + (n - 1) * size; x + size == b + Header + n * size && x % 8 == 0
  {
    MultipleOf8(n - 1, size);
    assert n * size == (n - 1) * size + size;
  }

  lemma {:induction false} NewSlotsApart(b: nat, size: nat, n: nat)
    requires b % 8 == 0 && size % 8 == 0 && size > 0
    ensures Distinct(NewSlots(b, size, n))
    ensures forall x, y :: x in NewSlots(b, size, n) && y in NewSlots(b, size, n) && x != y ==> Apart(x, y, size)
    decreases n
  {
    if n > 0 {
      NewSlotsApart(b, size, n - 1);
      NewSlotsInside(b, size, n - 1);
      var s, rest := NewSlots(b, size, n), NewSlots(b, size, n - 1);
      forall j | 0 < j < |s| ensures s[j] == rest[j - 1] && s[j] != s[0] {
        assert rest[j - 1] in rest;
      }
    }
  }

  /** Outside [from, to) nothing changes. */
  ghost predicate ChangedOnly(mem: seq<byte>, mem': seq<byte>, from: nat, to: nat) {
    && |mem'| == |mem|
    && (forall a :: 0 <= a < |mem| && !(from <= a < to) ==> mem'[a] == mem[a])
  }

  lemma StoreChangedOnly(mem0: seq<byte>, mem: seq<byte>, from: nat, to: nat, a: nat, v: nat)
    requires ChangedOnly(mem0, mem, from, to) && from <= a && a + PointerSize <= to <= |mem|
    ensures ChangedOnly(mem0, Store(mem, a, v), from, to)
  {
  }

  lemma SlotsAppend(b: nat, size: nat, i: nat, free: seq<nat>, obj: nat)
    requires obj == b + Header + i * size
    ensures [obj] + (NewSlots(b, size, i) + free) == NewSlots(b, size, i + 1) + free
  {
  }

  /** One round of the loop: the next object goes to the front of the list. */
  lemma ThreadStep(mem0: seq<byte>, mem: seq<byte>, b: nat, size: nat, cap: nat, i: nat, obj: nat,
                   freeList: nat, free: seq<nat>)
    requires 0 < b && b % 8 == 0 && size >= PointerSize && size % 8 == 0 && i < cap
    requires obj == b + Header + i * size && b + Total(size, cap) <= |mem| <= AddressSpace
    requires forall x :: x in free ==> x + PointerSize <= b || b + Total(size, cap) <= x
    requires Chain(mem, freeList, NewSlots(b, size, i) + free)
    requires ChangedOnly(mem0, mem, b + Header, b + Total(size, cap))
    ensures obj + PointerSize <= |mem|
    ensures Chain(Store(mem, obj, freeList), obj, NewSlots(b, size, i + 1) + free)
    ensures ChangedOnly(mem0, Store(mem, obj, freeList), b + Header, b + Total(size, cap))
  {
    Bits.MulStep(i, cap, size);
    NewSlotsInside(b, size, i);
    ChainPush(mem, freeList, NewSlots(b, size, i) + free, obj);
    SlotsAppend(b, size, i, free, obj);
    StoreChangedOnly(mem0, mem, b + Header, b + Total(size, cap), obj, freeList);
  }

  /** The loop of mochi_arena_grow. */
  method Thread(mem: seq<byte>, b: nat, size: nat, cap: nat, freeList: nat, ghost free: seq<nat>)
    returns (mem': seq<byte>, freeList': nat)
    requires 0 < b && b % 8 == 0 && size >= PointerSize && size % 8 == 0
    requires b + Total(size, cap) <= |mem| <= AddressSpace
    requires Chain(mem, freeList, free)
    requires forall x :: x in free ==> x + PointerSize <= b || b + Total(size, cap) <= x
    ensures Chain(mem', freeList', NewSlots(b, size, cap) + free)
    ensures ChangedOnly(mem, mem', b + Header, b + Total(size, cap))
  {
    mem', freeList' := mem, freeList;
    var base := b + Header;
    assert NewSlots(b, size, 0) + free == free;
    for i := 0 to cap
      invariant Chain(mem', freeList', NewSlots(b, size, i) + free)
      invariant ChangedOnly(mem, mem', b + Header, b + Total(size, cap))
    {
      var obj := base + i * size;
      ThreadStep(mem, mem', b, size, cap, i, obj, freeList', free);
      mem' := Store(mem', obj, freeList');
      freeList' := obj;
    }
  }

  /** What malloc promises about a new block. */
  ghost predicate FreshBlock(b: nat, size: nat, cap: nat, limit: nat, blks: seq<nat>) {
    && 0 < b && b % 8 == 0 && b + Total(size, cap) <= limit
    && (forall c :: c in blks ==> Apart(b, c, Total(size, cap)))
  }

  lemma ObjectOutside(x: nat, size: nat, cap: nat, limit: nat, blks: seq<nat>, b: nat)
    requires Placed(x, size, Total(size, cap), blks) && FreshBlock(b, size, cap, limit, blks)
    ensures x + size <= b || b + Total(size, cap) <= x
  {
    var c :| c in blks && InBlock(x, size, c, Total(size, cap));
    assert Apart(b, c, Total(size, cap));
  }

  lemma GrowObjects(size: nat, cap: nat, limit: nat, free: seq<nat>, live: set<nat>, blks: seq<nat>, b: nat)
    requires size > 0 && size % 8 == 0
    requires ObjectsOk(free, live, size, Total(size, cap), blks) && FreshBlock(b, size, cap, limit, blks)
    ensures ObjectsOk(NewSlots(b, size, cap) + free, live, size, Total(size, cap), [b] + blks)
  {
    var slots, total := NewSlots(b, size, cap), Total(size, cap);
    NewSlotsInside(b, size, cap);
    NewSlotsApart(b, size, cap);
    forall x: nat | IsObject(slots + free, live, x) ensures Placed(x, size, total, [b] + blks) {
      if x in slots {
        assert b in [b] + blks && InBlock(x, size, b, total);
      } else {
        assert IsObject(free, live, x);
        var c :| c in blks && InBlock(x, size, c, total);
        assert c in [b] + blks;
      }
    }
    forall x: nat, y: nat | IsObject(slots + free, live, x) && IsObject(slots + free, live, y) && x != y
      ensures Apart(x, y, size)
    {
      if x in slots && y in slots {
      } else if x in slots {
        assert IsObject(free, live, y);
        ObjectOutside(y, size, cap, limit, blks, b);
      } else if y in slots {
        assert IsObject(free, live, x);
        ObjectOutside(x, size, cap, limit, blks, b);
      } else {
        assert IsObject(free, live, x) && IsObject(free, live, y);
      }
    }
  }

  lemma GrowOnce(size: nat, cap: nat, limit: nat, free: seq<nat>, live: set<nat>, blks: seq<nat>, b: nat)
    requires size > 0 && size % 8 == 0 && OnceEach(free, live)
    requires ObjectsOk(free, live, size, Total(size, cap), blks) && FreshBlock(b, size, cap, limit, blks)
    ensures OnceEach(NewSlots(b, size, cap) + free, live)
  {
    var slots := NewSlots(b, size, cap);
    NewSlotsInside(b, size, cap);
    NewSlotsApart(b, size, cap);
    forall x: nat | IsObject(free, live, x) ensures x !in slots {
      ObjectOutside(x, size, cap, limit, blks, b);
    }
    forall x: nat | x in live ensures x !in slots {
      assert IsObject(free, live, x);
    }
    forall i, j | 0 <= i < |slots| && 0 <= j < |free| ensures slots[i] != free[j] {
      assert IsObject(free, live, free[j]);
    }
  }

  lemma GrowLayout(size: nat, cap: nat, limit: nat, free: seq<nat>, live: set<nat>, blks: seq<nat>, b: nat)
    requires Layout(size, cap, limit, free, live, blks) && FreshBlock(b, size, cap, limit, blks)
    ensures Layout(size, cap, limit, NewSlots(b, size, cap) + free, live, [b] + blks)
  {
    GrowOnce(size, cap, limit, free, live, blks, b);
    GrowObjects(size, cap, limit, free, live, blks, b);
    GrowBlocks(size, cap, limit, blks, b);
    assert cap * (|blks| + 1) == cap * |blks| + cap;
  }

  lemma GrowBlocks(size: nat, cap: nat, limit: nat, blks: seq<nat>, b: nat)
    requires BlocksOk(blks, Total(size, cap), limit) && FreshBlock(b, size, cap, limit, blks)
    ensures BlocksOk([b] + blks, Total(size, cap), limit)
  {
    var blks', total := [b] + blks, Total(size, cap);
    forall i, j | 0 <= i < j < |blks'| ensures Apart(blks'[i], blks'[j], total) {
      if i == 0 {
        assert blks[j - 1] in blks;
      } else {
        assert Apart(blks[i - 1], blks[j - 1], total);
      }
    }
  }
}
