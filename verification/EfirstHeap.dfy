/** The array min-heap of the earliest-first pool.  Entries sit at indices 1..size, the
    children of index i at 2i and 2i+1, and the key of an entry is its unit's priority.
    In the proofs v[i - 1] is the entry at index i. */
module EfirstHeap {

  function Key(priority: seq<nat>, u: nat): nat {
    if u < |priority| then priority[u] else 0
  }

  /** The entry at index i is not smaller than its parent. */
  predicate OrderedAt(v: seq<nat>, priority: seq<nat>, i: int) {
    1 < i <= |v| ==> Key(priority, v[i / 2 - 1]) <= Key(priority, v[i - 1])
  }

  ghost predicate HeapOrder(v: seq<nat>, priority: seq<nat>) {
    forall i :: OrderedAt(v, priority, i)
  }

  /** The child at index i of the entry at `index` is not smaller than its grandparent. */
  predicate OverGrandparent(v: seq<nat>, priority: seq<nat>, index: nat, i: int) {
    1 < index <= |v| && 1 < i <= |v| && i / 2 == index ==>
      Key(priority, v[index / 2 - 1]) <= Key(priority, v[i - 1])
  }

  /** Only the entry at `index` may be smaller than its parent. */
  ghost predicate Rising(v: seq<nat>, priority: seq<nat>, index: nat) {
    && 1 <= index <= |v|
    && (forall i :: i != index ==> OrderedAt(v, priority, i))
    && (forall i :: OverGrandparent(v, priority, index, i))
  }

  /** Only the entry at `index` may be larger than its children. */
  ghost predicate Sinking(v: seq<nat>, priority: seq<nat>, index: nat) {
    && 1 <= index <= |v|
    && (forall i :: i / 2 != index ==> OrderedAt(v, priority, i))
    && (forall i :: OverGrandparent(v, priority, index, i))
  }

  function Swapped(v: seq<nat>, i: nat, j: nat): (w: seq<nat>)
    requires 1 <= i <= |v| && 1 <= j <= |v|
    ensures |w| == |v|
    ensures multiset(w) == multiset(v)
  {
    v[i - 1 := v[j - 1]][j - 1 := v[i - 1]]
  }

  /** The root of a heap is a least entry. */
  lemma {:induction false} RootIsLeast(v: seq<nat>, priority: seq<nat>, i: nat)
    requires HeapOrder(v, priority) && i < |v|
    ensures Key(priority, v[0]) <= Key(priority, v[i])
    decreases i
  {
    if i > 0 {
      RootIsLeast(v, priority, (i + 1) / 2 - 1);
      assert OrderedAt(v, priority, i + 1);
    }
  }

  lemma RiseStep(v: seq<nat>, priority: seq<nat>, index: nat)
    requires Rising(v, priority, index) && index > 1
    requires Key(priority, v[index - 1]) < Key(priority, v[index / 2 - 1])
    ensures Rising(Swapped(v, index, index / 2), priority, index / 2)
  {
    var p := index / 2;
    var w := Swapped(v, index, p);
    forall i | i != p ensures OrderedAt(w, priority, i) {
      assert i != index ==> OrderedAt(v, priority, i);
      assert OverGrandparent(v, priority, index, i);
    }
    forall i ensures OverGrandparent(w, priority, p, i) {
      assert i != index ==> OrderedAt(v, priority, i);
      assert OrderedAt(v, priority, p);
    }
  }

  lemma RiseDone(v: seq<nat>, priority: seq<nat>, index: nat)
    requires Rising(v, priority, index)
    requires index == 1 || Key(priority, v[index - 1]) >= Key(priority, v[index / 2 - 1])
    ensures HeapOrder(v, priority)
  {
    forall i ensures OrderedAt(v, priority, i) {
      assert i != index ==> OrderedAt(v, priority, i);
    }
  }

  /** `child` is a least child of the entry at `index`. */
  predicate LeastChild(v: seq<nat>, priority: seq<nat>, index: nat, child: nat) {
    && 1 <= index && child / 2 == index && child <= |v|
    && (2 * index <= |v| ==> Key(priority, v[child - 1]) <= Key(priority, v[2 * index - 1]))
    && (2 * index + 1 <= |v| ==> Key(priority, v[child - 1]) <= Key(priority, v[2 * index]))
  }

  lemma SinkStep(v: seq<nat>, priority: seq<nat>, index: nat, child: nat)
    requires Sinking(v, priority, index) && LeastChild(v, priority, index, child)
    requires Key(priority, v[index - 1]) > Key(priority, v[child - 1])
    ensures Sinking(Swapped(v, index, child), priority, child)
  {
    var w := Swapped(v, index, child);
    forall i | i / 2 != child ensures OrderedAt(w, priority, i) {
      assert i / 2 != index ==> OrderedAt(v, priority, i);
      assert OverGrandparent(v, priority, index, child);
      assert i / 2 == index ==> i == 2 * index || i == 2 * index + 1;
    }
    forall i ensures OverGrandparent(w, priority, child, i) {
      assert i / 2 == child ==> OrderedAt(v, priority, i);
    }
  }

  lemma SinkDone(v: seq<nat>, priority: seq<nat>, index: nat, child: nat)
    requires Sinking(v, priority, index)
    requires 2 * index <= |v| ==>
      LeastChild(v, priority, index, child) && Key(priority, v[index - 1]) <= Key(priority, v[child - 1])
    ensures HeapOrder(v, priority)
  {
    forall i ensures OrderedAt(v, priority, i) {
      assert i / 2 != index ==> OrderedAt(v, priority, i);
      assert i / 2 == index ==> i == 2 * index || i == 2 * index + 1;
    }
  }

  /** Removing the last entry and putting it at the root leaves only the root misplaced. */
  lemma SinkStart(v: seq<nat>, w: seq<nat>, priority: seq<nat>)
    requires HeapOrder(v, priority) && |v| > 1
    requires w == [v[|v| - 1]] + v[1..|v| - 1]
    ensures Sinking(w, priority, 1)
    ensures multiset(w) + multiset{v[0]} == multiset(v)
  {
    forall i | i / 2 != 1 ensures OrderedAt(w, priority, i) {
      assert OrderedAt(v, priority, i);
    }
    assert v == [v[0]] + v[1..|v| - 1] + [v[|v| - 1]];
  }

  lemma RiseStart(v: seq<nat>, u: nat, priority: seq<nat>)
    requires HeapOrder(v, priority)
    ensures Rising(v + [u], priority, |v| + 1)
  {
    forall i | i != |v| + 1 ensures OrderedAt(v + [u], priority, i) {
      assert OrderedAt(v, priority, i);
    }
  }

  /** The array holds v at indices 1..|v|, except at the hole. */
  ghost predicate HoldsBut(s: seq<nat>, v: seq<nat>, hole: nat) {
    && |v| < |s|
    && forall i :: 1 <= i <= |v| && i != hole ==> s[i] == v[i - 1]
  }

  lemma HoldsAll(s: seq<nat>, v: seq<nat>, hole: nat)
    requires HoldsBut(s, v, hole)
    requires 1 <= hole <= |v| ==> s[hole] == v[hole - 1]
    ensures s[1..|v| + 1] == v
  {
  }

  /** The hole moves from i to j as the entry at j moves to i. */
  lemma HoleMoves(s: seq<nat>, v: seq<nat>, i: nat, j: nat, s': seq<nat>)
    requires HoldsBut(s, v, i) && 1 <= i <= |v| && 1 <= j <= |v| && i != j
    requires s' == s[i := s[j]]
    ensures HoldsBut(s', Swapped(v, i, j), j) && Swapped(v, i, j)[j - 1] == v[i - 1]
  {
  }

  /** queue_push_prio once there is room: the new entry rises from index size + 1. */
  method SiftUp(entries: array<nat>, size: nat, u: nat, priority: seq<nat>)
    requires size + 1 < entries.Length
    requires HeapOrder(entries[1..size + 1], priority)
    modifies entries
    ensures HeapOrder(entries[1..size + 2], priority)
    ensures multiset(entries[1..size + 2]) == multiset(old(entries[1..size + 1])) + multiset{u}
  {
    ghost var v := entries[1..size + 1] + [u];
    RiseStart(entries[1..size + 1], u, priority);
    var index: nat := size + 1;
    while index > 1 && Key(priority, u) < Key(priority, entries[index / 2])
      invariant |v| == size + 1 && Rising(v, priority, index) && v[index - 1] == u
      invariant HoldsBut(entries[..], v, index)
      invariant multiset(v) == multiset(old(entries[1..size + 1])) + multiset{u}
    {
      RiseStep(v, priority, index);
      ghost var s := entries[..];
      entries[index] := entries[index / 2];
      assert entries[..] == s[index := s[index / 2]];
      HoleMoves(s, v, index, index / 2, entries[..]);
      v := Swapped(v, index, index / 2);
      index := index / 2;
    }
    RiseDone(v, priority, index);
    entries[index] := u;
    HoldsAll(entries[..], v, index);
    assert entries[1..size + 2] == entries[..][1..size + 2];
  }

  /** The smaller of the one or two children. */
  method PickChild(entries: array<nat>, size: nat, index: nat, priority: seq<nat>, ghost v: seq<nat>)
    returns (child: nat)
    requires |v| == size && 1 <= index && 2 * index <= size && HoldsBut(entries[..], v, index)
    ensures LeastChild(v, priority, index, child) && child > index && entries[..][child] == v[child - 1]
  {
    child := index * 2;
    if child != size && Key(priority, entries[child + 1]) < Key(priority, entries[child]) {
      child := child + 1;
    }
  }

  /** The sift-down loop of queue_pop_prio: `last` sinks from the root, v being the entries
      with `last` in the hole. */
  method Sink(entries: array<nat>, size: nat, last: nat, priority: seq<nat>, ghost v0: seq<nat>)
    requires 1 <= size == |v0| && v0[0] == last
    requires Sinking(v0, priority, 1) && HoldsBut(entries[..], v0, 1)
    modifies entries
    ensures HeapOrder(entries[1..size + 1], priority)
    ensures multiset(entries[1..size + 1]) == multiset(v0)
  {
    ghost var v := v0;
    var index: nat := 1;
    ghost var least: nat := 0;
    while index * 2 <= size
      invariant |v| == size && Sinking(v, priority, index) && v[index - 1] == last
      invariant HoldsBut(entries[..], v, index)
      invariant multiset(v) == multiset(v0)
      decreases size - index
    {
      var child := PickChild(entries, size, index, priority, v);
      least := child;
      if Key(priority, last) <= Key(priority, entries[child]) {
        break;
      }
      SinkStep(v, priority, index, child);
      ghost var s := entries[..];
      entries[index] := entries[child];
      assert entries[..] == s[index := s[child]];
      HoleMoves(s, v, index, child, entries[..]);
      v := Swapped(v, index, child);
      index := child;
    }
    SinkDone(v, priority, index, least);
    entries[index] := last;
    HoldsAll(entries[..], v, index);
    assert entries[1..size + 1] == entries[..][1..size + 1];
  }

  lemma RootIsMinimum(v: seq<nat>, priority: seq<nat>)
    requires HeapOrder(v, priority) && |v| > 0
    ensures forall u :: u in v ==> Key(priority, v[0]) <= Key(priority, u)
  {
    forall i | 0 <= i < |v| ensures Key(priority, v[0]) <= Key(priority, v[i]) {
      RootIsLeast(v, priority, i);
    }
  }

  /** queue_pop_prio on a heap of size + 1 entries. */
  method SiftDown(entries: array<nat>, size: nat, priority: seq<nat>) returns (min: nat)
    requires size + 1 < entries.Length
    requires HeapOrder(entries[1..size + 2], priority)
    modifies entries
    ensures HeapOrder(entries[1..size + 1], priority)
    ensures multiset(entries[1..size + 1]) + multiset{min} == multiset(old(entries[1..size + 2]))
    ensures forall u :: u in old(entries[1..size + 2]) ==> Key(priority, min) <= Key(priority, u)
  {
    ghost var v0 := entries[1..size + 2];
    min := entries[1];
    var last := entries[size + 1];
    RootIsMinimum(v0, priority);
    if size == 0 {
      entries[1] := last;
      assert v0 == [min];
    } else {
      ghost var v := [last] + v0[1..size];
      SinkStart(v0, v, priority);
      assert HoldsBut(entries[..], v, 1) by {
        assert forall i :: 1 < i <= size ==> entries[i] == v0[i - 1] == v[i - 1];
      }
      Sink(entries, size, last, priority, v);
    }
  }
}
