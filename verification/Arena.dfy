/** The slab allocator for fixed-size objects: blocks of raw memory whose free objects are
    threaded into a list through their own first eight bytes.  Every method runs under the
    arena's lock. */
module Arena {
  import opened Common
  import opened Memory
  import opened ArenaLayout
  import Bits

  const WordBits: nat := 64

  /** The bytes in memory spell out both the free list and the list of blocks. */
  ghost predicate Inv(size: nat, cap: nat, mem: seq<byte>, freeList: nat, blocks: nat,
                      free: seq<nat>, live: set<nat>, blks: seq<nat>) {
    && |mem| <= AddressSpace
    && Layout(size, cap, |mem|, free, live, blks)
    && Chain(mem, freeList, free)
    && Chain(mem, blocks, blks)
  }

  /** The contents of the free objects and the ones in use are the same, x aside. */
  ghost predicate SameObjects(mem: seq<byte>, mem': seq<byte>, free: seq<nat>, live: set<nat>, x: nat, size: nat) {
    && |mem'| == |mem|
    && (forall y: nat :: IsObject(free, live, y) && y != x && y + size <= |mem| ==>
          Bytes(mem', y, size) == Bytes(mem, y, size))
  }

  /** The contents of the objects in use are the same. */
  ghost predicate SameLive(mem: seq<byte>, mem': seq<byte>, live: set<nat>, size: nat) {
    && |mem'| == |mem|
    && (forall y: nat :: y in live && y + size <= |mem| ==> Bytes(mem', y, size) == Bytes(mem, y, size))
  }

  lemma LiveAmongObjects(mem: seq<byte>, mem': seq<byte>, free: seq<nat>, live: set<nat>, x: nat, size: nat)
    requires SameObjects(mem, mem', free, live, x, size)
    ensures SameLive(mem, mem', live - {x}, size)
  {
    forall y: nat | y in live - {x} && y + size <= |mem| ensures Bytes(mem', y, size) == Bytes(mem, y, size) {
      assert IsObject(free, live, y);
    }
  }

  ghost predicate SameWord(mem: seq<byte>, mem': seq<byte>, a: nat)
    requires a + PointerSize <= |mem| && |mem'| == |mem|
  {
    Bytes(mem', a, PointerSize) == Bytes(mem, a, PointerSize)
  }

  lemma WordWithin(mem: seq<byte>, mem': seq<byte>, x: nat, size: nat)
    requires PointerSize <= size && x + size <= |mem| && |mem'| == |mem|
    requires Bytes(mem', x, size) == Bytes(mem, x, size)
    ensures Bytes(mem', x, PointerSize) == Bytes(mem, x, PointerSize)
  {
    assert Bytes(mem, x, PointerSize) == Bytes(mem, x, size)[..PointerSize];
    assert Bytes(mem', x, PointerSize) == Bytes(mem', x, size)[..PointerSize];
  }

  /** A write into one object leaves the other objects and the block headers alone. */
  lemma WriteFrame(size: nat, cap: nat, mem: seq<byte>, free: seq<nat>, live: set<nat>, blks: seq<nat>,
                   obj: nat, bytes: seq<byte>)
    requires Layout(size, cap, |mem|, free, live, blks) && IsObject(free, live, obj) && |bytes| <= size
    ensures obj + size <= |mem| && 0 < obj
    ensures SameObjects(mem, Overwrite(mem, obj, bytes), free, live, obj, size)
    ensures forall b :: b in blks ==> b + PointerSize <= |mem| && SameWord(mem, Overwrite(mem, obj, bytes), b)
  {
    PlacedInMemory(size, cap, |mem|, blks, obj);
    forall x: nat | IsObject(free, live, x) && x != obj && x + size <= |mem|
      ensures Bytes(Overwrite(mem, obj, bytes), x, size) == Bytes(mem, x, size)
    {
      assert Apart(x, obj, size);
      OverwriteElsewhere(mem, obj, bytes, x, size);
    }
    forall b | b in blks ensures b + PointerSize <= |mem| && SameWord(mem, Overwrite(mem, obj, bytes), b) {
      HeaderApart(size, cap, |mem|, blks, obj, b);
      OverwriteElsewhere(mem, obj, bytes, b, PointerSize);
    }
  }

  /** A list of objects other than x survives when only x may change. */
  lemma ListFrame(size: nat, cap: nat, mem: seq<byte>, mem': seq<byte>, head: nat, list: seq<nat>,
                  free: seq<nat>, live: set<nat>, blks: seq<nat>, x: nat)
    requires Layout(size, cap, |mem|, free, live, blks)
    requires Chain(mem, head, list) && SameObjects(mem, mem', free, live, x, size)
    requires forall y :: y in list ==> y != x && y in free
    ensures Chain(mem', head, list)
  {
    forall y | y in list && y + PointerSize <= |mem| ensures SameWord(mem, mem', y) {
      assert IsObject(free, live, y);
      PlacedInMemory(size, cap, |mem|, blks, y);
      WordWithin(mem, mem', y, size);
    }
    ChainFrame(mem, mem', head, list);
  }

  /** The same objects, however they are split between free and in use. */
  lemma SameLayout(size: nat, cap: nat, limit: nat, free: seq<nat>, live: set<nat>, blks: seq<nat>,
                   free': seq<nat>, live': set<nat>)
    requires Layout(size, cap, limit, free, live, blks) && OnceEach(free', live')
    requires forall x: nat :: IsObject(free', live', x) ==> IsObject(free, live, x)
    requires |free'| + |live'| == |free| + |live|
    ensures Layout(size, cap, limit, free', live', blks)
  {
  }

  lemma TakeLayout(size: nat, cap: nat, limit: nat, free: seq<nat>, live: set<nat>, blks: seq<nat>)
    requires Layout(size, cap, limit, free, live, blks) && free != []
    ensures free[0] !in live && free[0] !in free[1..]
    ensures Layout(size, cap, limit, free[1..], live + {free[0]}, blks)
  {
    SameLayout(size, cap, limit, free, live, blks, free[1..], live + {free[0]});
  }

  lemma TakeChains(size: nat, cap: nat, mem: seq<byte>, freeList: nat, blocks: nat,
                   free: seq<nat>, live: set<nat>, blks: seq<nat>)
    requires Inv(size, cap, mem, freeList, blocks, free, live, blks) && free != []
    ensures freeList == free[0] && 0 < freeList && freeList + size <= |mem| && PointerSize <= size
    ensures var mem' := Overwrite(mem, freeList, Zeros(size));
      && Chain(mem', Load(mem, freeList), free[1..]) && Chain(mem', blocks, blks)
      && SameObjects(mem, mem', free, live, freeList, size)
  {
    var obj := free[0];
    assert IsObject(free, live, obj);
    WriteFrame(size, cap, mem, free, live, blks, obj, Zeros(size));
    var mem' := Overwrite(mem, obj, Zeros(size));
    ChainTail(mem, freeList, free);
    ListFrame(size, cap, mem, mem', Load(mem, obj), free[1..], free, live, blks, obj);
    ChainFrame(mem, mem', blocks, blks);
  }

  /** Taking the first free object keeps the invariant and every other object. */
  lemma TakeKeeps(size: nat, cap: nat, mem: seq<byte>, freeList: nat, blocks: nat,
                  free: seq<nat>, live: set<nat>, blks: seq<nat>)
    requires Inv(size, cap, mem, freeList, blocks, free, live, blks) && free != []
    ensures freeList == free[0] && 0 < freeList && freeList + size <= |mem| && PointerSize <= size
    ensures var mem' := Overwrite(mem, freeList, Zeros(size));
      && Inv(size, cap, mem', Load(mem, freeList), blocks, free[1..], live + {freeList}, blks)
      && SameLive(mem, mem', live, size)
      && Bytes(mem', freeList, size) == Zeros(size)
    ensures freeList !in live && [freeList] + free[1..] == free
  {
    TakeLayout(size, cap, |mem|, free, live, blks);
    TakeChains(size, cap, mem, freeList, blocks, free, live, blks);
    OverwriteBytes(mem, freeList, Zeros(size));
    LiveAmongObjects(mem, Overwrite(mem, freeList, Zeros(size)), free, live, freeList, size);
    assert live - {freeList} == live;
  }

  lemma ReleaseLayout(size: nat, cap: nat, limit: nat, free: seq<nat>, live: set<nat>, blks: seq<nat>, obj: nat)
    requires Layout(size, cap, limit, free, live, blks) && obj in live
    ensures obj !in free
    ensures Layout(size, cap, limit, [obj] + free, live - {obj}, blks)
  {
    SameLayout(size, cap, limit, free, live, blks, [obj] + free, live - {obj});
  }

  /** Releasing a live object keeps the invariant and every other object. */
  lemma ReleaseKeeps(size: nat, cap: nat, mem: seq<byte>, freeList: nat, blocks: nat,
                     free: seq<nat>, live: set<nat>, blks: seq<nat>, obj: nat)
    requires Inv(size, cap, mem, freeList, blocks, free, live, blks) && obj in live
    ensures obj + PointerSize <= |mem|
    ensures var mem' := Store(mem, obj, freeList);
      && Inv(size, cap, mem', obj, blocks, [obj] + free, live - {obj}, blks)
      && SameLive(mem, mem', live - {obj}, size)
  {
    ReleaseLayout(size, cap, |mem|, free, live, blks, obj);
    assert IsObject(free, live, obj);
    WriteFrame(size, cap, mem, free, live, blks, obj, Encode(freeList, PointerSize));
    var mem' := Store(mem, obj, freeList);
    forall y | y in free ensures Apart(obj, y, PointerSize) {
      assert IsObject(free, live, y);
      assert Apart(obj, y, size);
    }
    ChainPush(mem, freeList, free, obj);
    ChainFrame(mem, mem', blocks, blks);
    LiveAmongObjects(mem, mem', free, live, obj, size);
  }

  /** Releasing an object keeps the invariant if and only if the object is live. */
  lemma ReleaseKeepsIff(size: nat, cap: nat, mem: seq<byte>, freeList: nat, blocks: nat,
                        free: seq<nat>, live: set<nat>, blks: seq<nat>, obj: nat)
    requires Inv(size, cap, mem, freeList, blocks, free, live, blks) && obj + PointerSize <= |mem|
    ensures Inv(size, cap, Store(mem, obj, freeList), obj, blocks, [obj] + free, live - {obj}, blks) <==> obj in live
  {
    if obj in live {
      ReleaseKeeps(size, cap, mem, freeList, blocks, free, live, blks, obj);
    } else {
      assert live - {obj} == live;
    }
  }

  /** The link that the k-th free object has after the i-th one was released again. */
  lemma LoopLink(size: nat, cap: nat, mem: seq<byte>, freeList: nat, blocks: nat,
                 free: seq<nat>, live: set<nat>, blks: seq<nat>, i: nat, k: nat)
    requires Inv(size, cap, mem, freeList, blocks, free, live, blks) && k <= i < |free|
    ensures 0 < free[k] && free[k] + PointerSize <= |mem| && free[i] + PointerSize <= |mem|
    ensures Load(Store(mem, free[i], freeList), free[k]) == free[if k == i then 0 else k + 1]
  {
    assert LinkAt(mem, free, i) && LinkAt(mem, free, k) && LinkAt(mem, free, 0);
    LoadStore(mem, free[i], freeList);
    if k < i {
      assert IsObject(free, live, free[i]) && IsObject(free, live, free[k]) && free[i] != free[k];
      assert Apart(free[i], free[k], size);
      LoadStoreElsewhere(mem, free[i], freeList, free[k]);
    }
  }

  /** Releasing an object that is free already closes the free list into a loop: following it
      never comes to an end. */
  lemma {:induction false} SecondReleaseLoops(size: nat, cap: nat, mem: seq<byte>, freeList: nat, blocks: nat,
                                              free: seq<nat>, live: set<nat>, blks: seq<nat>, i: nat, list: seq<nat>)
    requires Inv(size, cap, mem, freeList, blocks, free, live, blks) && i < |free|
    ensures free[i] + PointerSize <= |mem| && !Chain(Store(mem, free[i], freeList), free[i], list)
  {
    LoopLink(size, cap, mem, freeList, blocks, free, live, blks, i, i);
    if Chain(Store(mem, free[i], freeList), free[i], list) {
      var k := OnLoop(size, cap, mem, freeList, blocks, free, live, blks, i, list, |list| - 1);
      LoopLink(size, cap, mem, freeList, blocks, free, live, blks, i, if k == i then 0 else k + 1);
    }
  }

  /** Every element of such a list would be one of the first free objects. */
  lemma {:induction false} OnLoop(size: nat, cap: nat, mem: seq<byte>, freeList: nat, blocks: nat,
                                  free: seq<nat>, live: set<nat>, blks: seq<nat>, i: nat, list: seq<nat>, j: nat)
    returns (k: nat)
    requires Inv(size, cap, mem, freeList, blocks, free, live, blks) && i < |free| && j < |list|
    requires free[i] + PointerSize <= |mem| && Chain(Store(mem, free[i], freeList), free[i], list)
    ensures k <= i && list[j] == free[k]
    ensures var mem' := Store(mem, free[i], freeList);
            LinkAt(mem', list, j) && Load(mem', free[k]) == free[if k == i then 0 else k + 1]
    decreases j
  {
    k := i;
    if j > 0 {
      var before := OnLoop(size, cap, mem, freeList, blocks, free, live, blks, i, list, j - 1);
      k := if before == i then 0 else before + 1;
    }
    LoopLink(size, cap, mem, freeList, blocks, free, live, blks, i, k);
  }

  // ---- clients --------------------------------------------------------------

  ghost predicate InLive(a: nat, live: set<nat>, size: nat) {
    exists x :: x in live && x <= a < x + size
  }

  ghost predicate InArena(a: nat, blks: seq<nat>, total: nat) {
    exists b :: b in blks && b <= a < b + total
  }

  /** Whatever the clients write, they stay out of the arena except for live objects. */
  ghost predicate ClientWrite(mem: seq<byte>, mem': seq<byte>, live: set<nat>, size: nat, blks: seq<nat>, total: nat) {
    && |mem'| == |mem|
    && (forall a :: 0 <= a < |mem| && InArena(a, blks, total) && !InLive(a, live, size) ==> mem'[a] == mem[a])
  }

  lemma FreeLiveApart(size: nat, cap: nat, limit: nat, free: seq<nat>, live: set<nat>, blks: seq<nat>, x: nat, y: nat)
    requires Layout(size, cap, limit, free, live, blks) && x in free && y in live
    ensures Apart(x, y, size)
  {
    assert IsObject(free, live, x) && IsObject(free, live, y) && x != y;
  }

  lemma FreeByteNotLive(size: nat, cap: nat, limit: nat, free: seq<nat>, live: set<nat>, blks: seq<nat>, x: nat, a: nat)
    requires Layout(size, cap, limit, free, live, blks) && x in free && x <= a < x + size
    ensures !InLive(a, live, size)
  {
    forall y | y in live ensures !(y <= a < y + size) {
      FreeLiveApart(size, cap, limit, free, live, blks, x, y);
    }
  }

  lemma FreeWordUntouched(size: nat, cap: nat, mem: seq<byte>, mem': seq<byte>,
                          free: seq<nat>, live: set<nat>, blks: seq<nat>, x: nat)
    requires Layout(size, cap, |mem|, free, live, blks) && x in free
    requires ClientWrite(mem, mem', live, size, blks, Total(size, cap))
    ensures x + PointerSize <= |mem| && Bytes(mem', x, PointerSize) == Bytes(mem, x, PointerSize)
  {
    assert IsObject(free, live, x);
    PlacedInMemory(size, cap, |mem|, blks, x);
    var b :| b in blks && InBlock(x, size, b, Total(size, cap));
    forall a | x <= a < x + PointerSize ensures mem'[a] == mem[a] {
      assert b in blks && b <= a < b + Total(size, cap);
      FreeByteNotLive(size, cap, |mem|, free, live, blks, x, a);
    }
    SameBytes(mem, mem', x, PointerSize);
  }

  lemma HeaderUntouched(size: nat, cap: nat, mem: seq<byte>, mem': seq<byte>,
                        free: seq<nat>, live: set<nat>, blks: seq<nat>, b: nat)
    requires Layout(size, cap, |mem|, free, live, blks) && b in blks
    requires ClientWrite(mem, mem', live, size, blks, Total(size, cap))
    ensures b + PointerSize <= |mem| && Bytes(mem', b, PointerSize) == Bytes(mem, b, PointerSize)
  {
    forall a | b <= a < b + PointerSize ensures mem'[a] == mem[a] {
      assert b in blks && b <= a < b + Total(size, cap);
      if InLive(a, live, size) {
        var y :| y in live && y <= a < y + size;
        assert IsObject(free, live, y);
        HeaderApart(size, cap, |mem|, blks, y, b);
        assert false;
      }
    }
    SameBytes(mem, mem', b, PointerSize);
  }

  /** Arbitrary writes to live objects never disturb the lists inside the free memory. */
  lemma ClientWriteKeeps(size: nat, cap: nat, mem: seq<byte>, mem': seq<byte>, freeList: nat, blocks: nat,
                         free: seq<nat>, live: set<nat>, blks: seq<nat>)
    requires Inv(size, cap, mem, freeList, blocks, free, live, blks)
    requires ClientWrite(mem, mem', live, size, blks, Total(size, cap))
    ensures Inv(size, cap, mem', freeList, blocks, free, live, blks)
  {
    forall x | x in free && x + PointerSize <= |mem| ensures Bytes(mem', x, PointerSize) == Bytes(mem, x, PointerSize) {
      FreeWordUntouched(size, cap, mem, mem', free, live, blks, x);
    }
    forall b | b in blks && b + PointerSize <= |mem| ensures Bytes(mem', b, PointerSize) == Bytes(mem, b, PointerSize) {
      HeaderUntouched(size, cap, mem, mem', free, live, blks, b);
    }
    ChainFrame(mem, mem', freeList, free);
    ChainFrame(mem, mem', blocks, blks);
  }

  /** Objects in use are disjoint, aligned and inside memory, away from every free object
      and every block header. */
  lemma LiveObjectsSafe(size: nat, cap: nat, mem: seq<byte>, freeList: nat, blocks: nat,
                        free: seq<nat>, live: set<nat>, blks: seq<nat>, x: nat, y: nat)
    requires Inv(size, cap, mem, freeList, blocks, free, live, blks) && x in live
    ensures x % 8 == 0 && 0 < x && x + size <= |mem|
    ensures exists b :: b in blks && InBlock(x, size, b, Total(size, cap))
    ensures (y in live && y != x) || y in free ==> Apart(x, y, size)
    ensures y in blks ==> x + size <= y || y + Header <= x
  {
    assert IsObject(free, live, x);
    PlacedInMemory(size, cap, |mem|, blks, x);
    if y in free {
      FreeLiveApart(size, cap, |mem|, free, live, blks, y, x);
    } else if y in live {
      assert IsObject(free, live, y);
    }
    if y in blks {
      HeaderApart(size, cap, |mem|, blks, x, y);
    }
  }

  // ---- growing --------------------------------------------------------------

  /** Changes inside the new block leave the old objects alone. */
  lemma OldObjectsKept(size: nat, cap: nat, mem: seq<byte>, mem': seq<byte>,
                       free: seq<nat>, live: set<nat>, blks: seq<nat>, b: nat)
    requires Layout(size, cap, |mem|, free, live, blks) && FreshBlock(b, size, cap, |mem|, blks)
    requires ChangedOnly(mem, mem', b, b + Total(size, cap))
    ensures SameObjects(mem, mem', free, live, 0, size)
  {
    forall x: nat | IsObject(free, live, x) && x + size <= |mem| ensures Bytes(mem', x, size) == Bytes(mem, x, size) {
      ObjectOutside(x, size, cap, |mem|, blks, b);
      SameBytes(mem, mem', x, size);
    }
  }

  lemma FreeOutside(size: nat, cap: nat, limit: nat, free: seq<nat>, live: set<nat>, blks: seq<nat>, b: nat)
    requires Layout(size, cap, limit, free, live, blks) && FreshBlock(b, size, cap, limit, blks)
    ensures forall x :: x in free ==> x != 0 && (x + PointerSize <= b || b + Total(size, cap) <= x)
  {
    forall x | x in free ensures x != 0 && (x + PointerSize <= b || b + Total(size, cap) <= x) {
      assert IsObject(free, live, x);
      PlacedInMemory(size, cap, limit, blks, x);
      ObjectOutside(x, size, cap, limit, blks, b);
    }
  }

  /** block->next = arena->blocks; arena->blocks = block */
  lemma HeaderStored(size: nat, cap: nat, mem: seq<byte>, freeList: nat, blocks: nat,
                     free: seq<nat>, live: set<nat>, blks: seq<nat>, b: nat)
    requires Inv(size, cap, mem, freeList, blocks, free, live, blks) && FreshBlock(b, size, cap, |mem|, blks)
    ensures var mem1 := Store(mem, b, blocks);
      && Chain(mem1, b, [b] + blks) && Chain(mem1, freeList, free)
      && ChangedOnly(mem, mem1, b, b + Total(size, cap))
  {
    var mem1 := Store(mem, b, blocks);
    forall c | c in blks ensures Apart(b, c, PointerSize) {
      assert Apart(b, c, Total(size, cap));
    }
    ChainPush(mem, blocks, blks, b);
    OldObjectsKept(size, cap, mem, mem1, free, live, blks, b);
    FreeOutside(size, cap, |mem|, free, live, blks, b);
    ListFrame(size, cap, mem, mem1, freeList, free, free, live, blks, 0);
  }

  lemma HeadersKept(size: nat, cap: nat, mem1: seq<byte>, mem2: seq<byte>, blks: seq<nat>, b: nat)
    requires BlocksOk([b] + blks, Total(size, cap), |mem1|) && Chain(mem1, b, [b] + blks)
    requires FreshBlock(b, size, cap, |mem1|, blks)
    requires ChangedOnly(mem1, mem2, b + Header, b + Total(size, cap))
    ensures Chain(mem2, b, [b] + blks)
  {
    forall c | c in [b] + blks && c + PointerSize <= |mem1|
      ensures Bytes(mem2, c, PointerSize) == Bytes(mem1, c, PointerSize)
    {
      assert c != b ==> Apart(b, c, Total(size, cap));
      SameBytes(mem1, mem2, c, PointerSize);
    }
    ChainFrame(mem1, mem2, b, [b] + blks);
  }

  lemma ChangedOnlyChain(m0: seq<byte>, m1: seq<byte>, m2: seq<byte>, from: nat, mid: nat, to: nat)
    requires ChangedOnly(m0, m1, from, to) && ChangedOnly(m1, m2, mid, to) && from <= mid
    ensures ChangedOnly(m0, m2, from, to)
  {
  }

  lemma LiveKept(size: nat, cap: nat, mem: seq<byte>, mem': seq<byte>,
                 free: seq<nat>, live: set<nat>, blks: seq<nat>, b: nat)
    requires Layout(size, cap, |mem|, free, live, blks) && FreshBlock(b, size, cap, |mem|, blks)
    requires ChangedOnly(mem, mem', b, b + Total(size, cap))
    ensures SameLive(mem, mem', live, size)
  {
    OldObjectsKept(size, cap, mem, mem', free, live, blks, b);
    forall x: nat | x in live ensures x != 0 {
      assert IsObject(free, live, x);
      PlacedInMemory(size, cap, |mem|, blks, x);
    }
    LiveAmongObjects(mem, mem', free, live, 0, size);
    assert live - {0} == live;
  }

  /** mochi_arena_grow once malloc has delivered a block */
  method GrowWith(size: nat, cap: nat, mem: seq<byte>, freeList: nat, blocks: nat, b: nat,
                  ghost free: seq<nat>, ghost live: set<nat>, ghost blks: seq<nat>)
    returns (mem': seq<byte>, freeList': nat)
    requires Inv(size, cap, mem, freeList, blocks, free, live, blks) && FreshBlock(b, size, cap, |mem|, blks)
    ensures Inv(size, cap, mem', freeList', b, NewSlots(b, size, cap) + free, live, [b] + blks)
    ensures SameLive(mem, mem', live, size)
  {
    HeaderStored(size, cap, mem, freeList, blocks, free, live, blks, b);
    FreeOutside(size, cap, |mem|, free, live, blks, b);
    GrowLayout(size, cap, |mem|, free, live, blks, b);
    GrowBlocks(size, cap, |mem|, blks, b);
    var mem1 := Store(mem, b, blocks);
    mem', freeList' := Thread(mem1, b, size, cap, freeList, free);
    HeadersKept(size, cap, mem1, mem', blks, b);
    ChangedOnlyChain(mem, mem1, mem', b, b + Header, b + Total(size, cap));
    LiveKept(size, cap, mem, mem', free, live, blks, b);
  }

  // ---- destroying -----------------------------------------------------------

  /** Giving a block back to malloc, which may overwrite it, does not hurt the other blocks. */
  lemma FreeOne(mem: seq<byte>, head: nat, list: seq<nat>, total: nat, junk: seq<byte>)
    requires Chain(mem, head, list) && list != [] && BlocksOk(list, total, |mem|) && |junk| == total >= PointerSize
    ensures LinkAt(mem, list, 0) && head == list[0] && head + total <= |mem|
    ensures Chain(Overwrite(mem, head, junk), Load(mem, head), list[1..])
    ensures BlocksOk(list[1..], total, |mem|)
  {
    ChainTail(mem, head, list);
    assert list[0] in list;
    var mem', rest := Overwrite(mem, head, junk), list[1..];
    forall x | x in rest && x + PointerSize <= |mem| ensures Bytes(mem', x, PointerSize) == Bytes(mem, x, PointerSize) {
      var i :| 0 <= i < |rest| && rest[i] == x;
      assert Apart(list[0], list[i + 1], total);
      OverwriteElsewhere(mem, head, junk, x, PointerSize);
    }
    ChainFrame(mem, mem', Load(mem, head), rest);
    assert forall x :: x in rest ==> x in list;
    forall i, j | 0 <= i < j < |rest| ensures Apart(rest[i], rest[j], total) {
      assert Apart(list[i + 1], list[j + 1], total);
    }
  }

  /** The loop of mochi_arena_destroy: every block is given back exactly once, although a
      block given back is overwritten with arbitrary bytes. */
  method FreeBlocks(mem: seq<byte>, blocks: nat, total: nat, junk: seq<byte>, ghost blks: seq<nat>)
    returns (freed: seq<nat>)
    requires Chain(mem, blocks, blks) && BlocksOk(blks, total, |mem|) && |junk| == total >= PointerSize
    ensures freed == blks
  {
    var m, block := mem, blocks;
    ghost var rest := blks;
    freed := [];
    while block != 0
      invariant |m| == |mem| && freed + rest == blks
      invariant Chain(m, block, rest) && BlocksOk(rest, total, |m|)
      decreases |rest|
    {
      FreeOne(m, block, rest, total, junk);
      var next := Load(m, block);
      m := Overwrite(m, block, junk);
      freed := freed + [block];
      block := next;
      rest := rest[1..];
    }
    assert rest != [] ==> LinkAt(m, rest, 0);
  }

  lemma NullMeansEmpty(size: nat, cap: nat, mem: seq<byte>, freeList: nat, blocks: nat,
                       free: seq<nat>, live: set<nat>, blks: seq<nat>)
    requires Inv(size, cap, mem, freeList, blocks, free, live, blks)
    ensures (freeList == 0 <==> free == []) && 1 <= cap
  {
    assert free != [] ==> LinkAt(mem, free, 0);
  }

  /** Room for the object and for the free list's link. */
  function ObjectBytes(size: nat): nat {
    if size < PointerSize then PointerSize else size
  }

  lemma RoundedToPointers(x: nat, n: nat)
    requires n > 3 && Bits.Pow2(n) == AddressSpace && x < AddressSpace
    ensures LeastMultiple(RoundUp(x, n, 3), x, 8) <==> x + 8 <= AddressSpace
    ensures x + 8 > AddressSpace ==> RoundUp(x, n, 3) == 0
  {
    assert Bits.Pow2(3) == 8;
    RoundUpIff(x, n, 3);
  }

  /** The object size that mochi_arena_create computes. */
  method RoundedSize(size: nat) returns (r: nat)
    requires size < AddressSpace
    ensures size + 8 <= AddressSpace ==> LeastMultiple(r, ObjectBytes(size), 8)
    ensures size + 8 > AddressSpace ==> r == 0
  {
    Bits.WordSize();
    RoundedToPointers(ObjectBytes(size), WordBits);
    r := RoundUp(ObjectBytes(size), WordBits, 3);
  }

  /** The block size that mochi_arena_grow computes in a size_t. */
  function Requested(size: nat, cap: nat): nat {
    (Header + (cap * size) % AddressSpace) % AddressSpace
  }

  /** malloc is asked for enough room if and only if the block size does not wrap around. */
  lemma RequestCoversIff(size: nat, cap: nat)
    ensures Requested(size, cap) >= Total(size, cap) <==> Total(size, cap) < AddressSpace
  {
    var x := cap * size;
    assert x >= AddressSpace ==> (Header + x % AddressSpace) % AddressSpace < AddressSpace;
  }

  /** Two failing inputs: an object size that rounds up to 0, and a block of 2^64 + 8 bytes for
      which malloc is asked for 8. */
  lemma SizesWrap()
    ensures Bits.Pow2(WordBits) == AddressSpace && RoundUp(AddressSpace - 1, WordBits, 3) == 0
    ensures Requested(8, 0x2000_0000_0000_0000) == 8 < Total(8, 0x2000_0000_0000_0000)
  {
    Bits.WordSize();
    RoundedToPointers(AddressSpace - 1, WordBits);
  }

  class Arena {
    var objectSize: nat
    var blockCapacity: nat
    var freeList: nat
    var blocks: nat
    var mem: seq<byte>
    ghost var free: seq<nat>
    ghost var live: set<nat>
    ghost var blks: seq<nat>

    ghost predicate Valid()
      reads this
    {
      Inv(objectSize, blockCapacity, mem, freeList, blocks, free, live, blks)
    }

    /** mochi_arena_create */
    constructor (size: nat, initialCapacity: nat, memory: seq<byte>)
      requires |memory| <= AddressSpace && size < AddressSpace
      ensures size + 8 <= AddressSpace ==> Valid() && LeastMultiple(objectSize, ObjectBytes(size), 8)
      ensures size + 8 > AddressSpace ==> objectSize == 0
      ensures mem == memory && free == [] && live == {} && blks == []
      ensures blockCapacity >= 1 && (initialCapacity >= 1 ==> blockCapacity == initialCapacity)
    {
      var rounded := RoundedSize(size);
      objectSize := rounded;
      blockCapacity := if initialCapacity < 1 then 1 else initialCapacity;
      freeList, blocks := 0, 0;
      mem, free, live, blks := memory, [], {}, [];
    }

    /** What malloc answers when the arena grows: nothing, or a block of its own. */
    ghost predicate MallocOk(block: Option<nat>)
      reads this
    {
      block.Some? ==> FreshBlock(block.value, objectSize, blockCapacity, |mem|, blks)
    }

    /** mochi_arena_get; 0 stands for NULL. */
    method Get(block: Option<nat>) returns (obj: nat)
      requires Valid() && MallocOk(block)
      modifies this`mem, this`freeList, this`blocks, this`free, this`live, this`blks
      ensures Valid()
      ensures obj == 0 <==> old(free) == [] && block.None?
      ensures obj == 0 ==> mem == old(mem) && free == old(free) && live == old(live) && blks == old(blks)
      ensures blks == if old(free) == [] && block.Some? then [block.value] + old(blks) else old(blks)
      ensures obj != 0 ==> obj !in old(live) && live == old(live) + {obj}
      ensures obj != 0 ==> old(free) != [] ==> [obj] + free == old(free)
      ensures obj != 0 ==> obj + objectSize <= |mem| && Bytes(mem, obj, objectSize) == Zeros(objectSize)
      ensures SameLive(old(mem), mem, old(live), objectSize)
    {
      NullMeansEmpty(objectSize, blockCapacity, mem, freeList, blocks, free, live, blks);
      if freeList == 0 {
        if block.None? {
          return 0;
        }
        mem, freeList := GrowWith(objectSize, blockCapacity, mem, freeList, blocks, block.value, free, live, blks);
        blocks := block.value;
        free, blks := NewSlots(block.value, objectSize, blockCapacity) + free, [block.value] + blks;
      }
      obj := Take();
    }

    method Take() returns (obj: nat)
      requires Valid() && free != []
      modifies this`mem, this`freeList, this`free, this`live
      ensures Valid() && obj != 0 && obj !in old(live) && live == old(live) + {obj} && [obj] + free == old(free)
      ensures obj + objectSize <= |mem| && Bytes(mem, obj, objectSize) == Zeros(objectSize)
      ensures SameLive(old(mem), mem, old(live), objectSize)
    {
      TakeKeeps(objectSize, blockCapacity, mem, freeList, blocks, free, live, blks);
      obj := freeList;
      freeList := Load(mem, obj);
      mem := Overwrite(mem, obj, Zeros(objectSize));
      free, live := free[1..], live + {obj};
    }

    /** mochi_arena_release of NULL or of an address; nothing tests that it is a live object, and
        the arena is in order afterwards if and only if it is. */
    method Release(obj: nat)
      requires Valid() && (obj == 0 || obj in live || obj + PointerSize <= |mem|)
      modifies this`mem, this`freeList, this`free, this`live
      ensures obj == 0 ==> Valid() && mem == old(mem) && free == old(free) && live == old(live)
      ensures obj != 0 ==> (Valid() <==> obj in old(live))
      ensures obj != 0 ==> live == old(live) - {obj} && free == [obj] + old(free)
      ensures obj != 0 ==> obj + PointerSize <= |old(mem)| && mem == Store(old(mem), obj, old(freeList))
      ensures obj != 0 ==> freeList == obj
      ensures obj in old(live) ==> SameLive(old(mem), mem, live, objectSize)
    {
      if obj == 0 {
        return;
      }
      if obj in live {
        ReleaseKeeps(objectSize, blockCapacity, mem, freeList, blocks, free, live, blks, obj);
      }
      ReleaseKeepsIff(objectSize, blockCapacity, mem, freeList, blocks, free, live, blks, obj);
      mem := Store(mem, obj, freeList);
      freeList := obj;
      free, live := [obj] + free, live - {obj};
    }

    /** The clients write whatever they like into their objects. */
    method Scribble(memory: seq<byte>)
      requires Valid() && ClientWrite(mem, memory, live, objectSize, blks, Total(objectSize, blockCapacity))
      modifies this`mem
      ensures Valid() && mem == memory
    {
      ClientWriteKeeps(objectSize, blockCapacity, mem, memory, freeList, blocks, free, live, blks);
      mem := memory;
    }

    /** mochi_arena_destroy: returns the blocks handed to free(), in order; junk is what free()
        leaves in a block. */
    method Destroy(junk: seq<byte>) returns (freed: seq<nat>)
      requires Valid() && |junk| == Total(objectSize, blockCapacity)
      ensures freed == blks && Distinct(freed)
      ensures blockCapacity * |freed| == |free| + |live|
    {
      freed := FreeBlocks(mem, blocks, Header + blockCapacity * objectSize, junk, blks);
    }
  }
}
