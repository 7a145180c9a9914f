/** The intrusive doubly linked list of utlist.h, over a flat memory of links: node x
    has the links prev[x] and next[x], and 0 is the NULL pointer.  The head's prev
    link points at the tail and the tail's next link is NULL. */
module DList {
  import opened Common

  datatype Links = Links(head: nat, prev: seq<nat>, next: seq<nat>)

  /** All pointers stay inside the node memory; cell 0 is NULL. */
  predicate InMemory(l: Links, n: nat) {
    && |l.prev| == |l.next| == n
    && 0 < n
    && l.head < n
    && (forall i :: 0 <= i < n ==> l.prev[i] < n)
    && (forall i :: 0 <= i < n ==> l.next[i] < n)
  }

  /** The test by which margo decides whether a timer is queued. */
  predicate IsLinked(l: Links, x: nat)
    requires x < |l.prev| && x < |l.next|
  {
    l.prev[x] != 0 || l.next[x] != 0
  }

  function SetPrev(l: Links, x: nat, v: nat): Links
    requires x < |l.prev|
  {
    l.(prev := l.prev[x := v])
  }

  function SetNext(l: Links, x: nat, v: nat): Links
    requires x < |l.next|
  {
    l.(next := l.next[x := v])
  }

  /** DL_PREPEND(head, x) */
  function Prepend(l: Links, x: nat): (l': Links)
    requires InMemory(l, |l.prev|) && 0 < x < |l.prev|
    ensures InMemory(l', |l.prev|)
  {
    var l1 := SetNext(l, x, l.head);
    var l2 := if l.head != 0 then SetPrev(SetPrev(l1, x, l1.prev[l.head]), l.head, x)
              else SetPrev(l1, x, x);
    l2.(head := x)
  }

  /** DL_APPEND(head, x) */
  function Append(l: Links, x: nat): (l': Links)
    requires InMemory(l, |l.prev|) && 0 < x < |l.prev|
    ensures InMemory(l', |l.prev|)
  {
    if l.head != 0 then
      var l1 := SetPrev(l, x, l.prev[l.head]);
      var l2 := SetNext(l1, l1.prev[l.head], x);
      SetNext(SetPrev(l2, l.head, x), x, 0)
    else
      SetNext(SetPrev(l, x, x), x, 0).(head := x)
  }

  /** DL_APPEND_ELEM(head, el, x) with el not NULL */
  function AppendElem(l: Links, el: nat, x: nat): (l': Links)
    requires InMemory(l, |l.prev|) && 0 < x < |l.prev| && 0 < el < |l.prev| && l.head != 0
    ensures InMemory(l', |l.prev|)
  {
    var l1 := SetNext(SetPrev(SetNext(l, x, l.next[el]), x, el), el, x);
    if l1.next[x] != 0 then SetPrev(l1, l1.next[x], x) else SetPrev(l1, l.head, x)
  }

  /** The pointers that DL_DELETE dereferences are not NULL. */
  predicate DeleteDefined(l: Links, x: nat)
    requires InMemory(l, |l.prev|) && 0 < x < |l.prev|
  {
    && l.prev[x] != 0
    && (l.prev[x] != x && x == l.head ==> l.next[x] != 0)
    && (l.prev[x] != x && x != l.head && l.next[x] == 0 ==> l.head != 0)
  }

  /** DL_DELETE(head, x): unlinks x and leaves x's own two links as they are. */
  function Delete(l: Links, x: nat): (l': Links)
    requires InMemory(l, |l.prev|) && 0 < x < |l.prev| && DeleteDefined(l, x)
    ensures InMemory(l', |l.prev|)
  {
    if l.prev[x] == x then
      l.(head := 0)
    else if x == l.head then
      SetPrev(l, l.next[x], l.prev[x]).(head := l.next[x])
    else
      var l1 := SetNext(l, l.prev[x], l.next[x]);
      if l1.next[x] != 0 then SetPrev(l1, l1.next[x], l1.prev[x]) else SetPrev(l1, l1.head, l1.prev[x])
  }

  /** x->prev = x->next = NULL */
  function Clear(l: Links, x: nat): (l': Links)
    requires InMemory(l, |l.prev|) && 0 < x < |l.prev|
    ensures InMemory(l', |l.prev|)
  {
    SetNext(SetPrev(l, x, 0), x, 0)
  }

  // ---- refinement of a sequence ---------------------------------------------

  function NextIn(q: seq<nat>, i: nat): nat
    requires i < |q|
  {
    if i + 1 < |q| then q[i + 1] else 0
  }

  function PrevIn(q: seq<nat>, i: nat): nat
    requires i < |q|
  {
    if i == 0 then q[|q| - 1] else q[i - 1]
  }

  /** The i-th node of q sits in memory and has the links of its position. */
  ghost predicate LinkedAt(l: Links, q: seq<nat>, i: int) {
    && 0 <= i < |q|
    && 0 < q[i] < |l.prev| && q[i] < |l.next|
    && l.next[q[i]] == NextIn(q, i)
    && l.prev[q[i]] == PrevIn(q, i)
  }

  /** The links spell out the sequence q of nodes. */
  ghost predicate Represents(l: Links, q: seq<nat>) {
    && InMemory(l, |l.prev|)
    && Distinct(q)
    && l.head == (if q == [] then 0 else q[0])
    && (forall i :: 0 <= i < |q| ==> LinkedAt(l, q, i))
  }

  function Without(q: seq<nat>, k: nat): seq<nat>
    requires k < |q|
  {
    q[..k] + q[k + 1..]
  }

  function Inserted(q: seq<nat>, k: nat, x: nat): seq<nat>
    requires k <= |q|
  {
    q[..k] + [x] + q[k..]
  }

  /** Nodes outside q keep their links. */
  ghost predicate Untouched(l: Links, l': Links, q: seq<nat>) {
    && |l'.prev| == |l.prev| && |l'.next| == |l.next| == |l.prev|
    && forall y :: 0 <= y < |l.prev| && y !in q ==> l'.prev[y] == l.prev[y] && l'.next[y] == l.next[y]
  }

  lemma WithoutAt(q: seq<nat>, k: nat, i: nat)
    requires k < |q| && i < |q| - 1
    ensures Without(q, k)[i] == if i < k then q[i] else q[i + 1]
  {
  }

  lemma InsertedIndex(q: seq<nat>, k: nat, x: nat, i: nat)
    requires k <= |q| && i <= |q|
    ensures Inserted(q, k, x)[i] == if i < k then q[i] else if i == k then x else q[i - 1]
  {
  }

  lemma WithoutMembers(q: seq<nat>, k: nat)
    requires k < |q| && Distinct(q)
    ensures Distinct(Without(q, k))
    ensures forall y :: y in Without(q, k) <==> y in q && y != q[k]
  {
    forall y | y in q && y != q[k] ensures y in Without(q, k) {
      var i :| 0 <= i < |q| && q[i] == y;
      assert Without(q, k)[if i < k then i else i - 1] == y;
    }
  }

  lemma InsertedMembers(q: seq<nat>, k: nat, x: nat)
    requires k <= |q| && Distinct(q) && x !in q
    ensures Distinct(Inserted(q, k, x))
    ensures forall y :: y in Inserted(q, k, x) <==> y in q || y == x
  {
    forall y | y in q ensures y in Inserted(q, k, x) {
      var i :| 0 <= i < |q| && q[i] == y;
      assert Inserted(q, k, x)[if i < k then i else i + 1] == y;
    }
    assert Inserted(q, k, x)[k] == x;
  }

  lemma IndexOf(l: Links, q: seq<nat>, x: nat) returns (i: nat)
    requires Represents(l, q) && x in q
    ensures i < |q| && q[i] == x && LinkedAt(l, q, i)
  {
    i :| 0 <= i < |q| && q[i] == x;
  }

  lemma LinkedWhenQueued(l: Links, q: seq<nat>, x: nat)
    requires Represents(l, q) && x in q
    ensures 0 < x < |l.prev| && IsLinked(l, x) && DeleteDefined(l, x)
  {
    var i := IndexOf(l, q, x);
    assert LinkedAt(l, q, 0) && LinkedAt(l, q, |q| - 1);
    assert i > 0 ==> LinkedAt(l, q, i - 1);
    assert i + 1 < |q| ==> LinkedAt(l, q, i + 1);
  }

  /** The two links that DL_DELETE rewrites when other nodes remain. */
  lemma DeleteShape(l: Links, q: seq<nat>, k: nat)
    requires Represents(l, q) && k < |q| && |q| > 1
    ensures 0 < q[k] < |l.prev| && DeleteDefined(l, q[k])
    ensures var l', m := Delete(l, q[k]), if k + 1 < |q| then q[k + 1] else q[0];
            && m < |l.prev| && (k > 0 ==> q[k - 1] < |l.next|)
            && l'.head == (if k == 0 then q[1] else q[0])
            && l'.prev == l.prev[m := PrevIn(q, k)]
            && l'.next == (if k > 0 then l.next[q[k - 1] := NextIn(q, k)] else l.next)
  {
    LinkedWhenQueued(l, q, q[k]);
    assert LinkedAt(l, q, k) && LinkedAt(l, q, 0) && LinkedAt(l, q, |q| - 1);
    assert k > 0 ==> LinkedAt(l, q, k - 1);
    assert k + 1 < |q| ==> LinkedAt(l, q, k + 1);
  }

  /** The links that DL_DELETE rewrites are those of the neighbours. */
  lemma DeletedAt(l: Links, q: seq<nat>, k: nat, l': Links, i: nat)
    requires Represents(l, q) && k < |q| && |q| > 1 && i < |q| - 1
    requires var m := if k + 1 < |q| then q[k + 1] else q[0];
             && m < |l.prev| && (k > 0 ==> q[k - 1] < |l.next|)
             && l'.prev == l.prev[m := PrevIn(q, k)]
             && l'.next == (if k > 0 then l.next[q[k - 1] := NextIn(q, k)] else l.next)
    ensures LinkedAt(l', Without(q, k), i)
  {
    assert LinkedAt(l, q, if i < k then i else i + 1);
    WithoutAt(q, k, i);
    if i + 1 < |q| - 1 { WithoutAt(q, k, i + 1); }
    WithoutAt(q, k, if i > 0 then i - 1 else |q| - 2);
  }

  lemma DeleteUntouched(l: Links, q: seq<nat>, k: nat)
    requires Represents(l, q) && k < |q| && |q| > 1
    ensures 0 < q[k] < |l.prev| && DeleteDefined(l, q[k])
    ensures Untouched(l, Delete(l, q[k]), Without(q, k))
  {
    DeleteShape(l, q, k);
    var q' := Without(q, k);
    assert k > 0 ==> q'[k - 1] == q[k - 1] && q'[0] == q[0];
    assert k + 1 < |q| ==> q'[k] == q[k + 1];
  }

  lemma DeleteRefines(l: Links, q: seq<nat>, k: nat)
    requires Represents(l, q) && k < |q|
    ensures 0 < q[k] < |l.prev| && DeleteDefined(l, q[k])
    ensures Represents(Delete(l, q[k]), Without(q, k))
    ensures Untouched(l, Delete(l, q[k]), Without(q, k))
  {
    LinkedWhenQueued(l, q, q[k]);
    WithoutMembers(q, k);
    assert LinkedAt(l, q, k);
    if |q| > 1 {
      var l', q' := Delete(l, q[k]), Without(q, k);
      DeleteShape(l, q, k);
      DeleteUntouched(l, q, k);
      forall i | 0 <= i < |q'| ensures LinkedAt(l', q', i) {
        DeletedAt(l, q, k, l', i);
      }
    }
  }

  lemma PrependRefines(l: Links, q: seq<nat>, x: nat)
    requires Represents(l, q) && 0 < x < |l.prev| && x !in q
    ensures Represents(Prepend(l, x), Inserted(q, 0, x))
    ensures Untouched(l, Prepend(l, x), Inserted(q, 0, x))
  {
    var l', q' := Prepend(l, x), Inserted(q, 0, x);
    InsertedMembers(q, 0, x);
    if q != [] { assert LinkedAt(l, q, 0); assert q[0] in q; }
    forall i | 0 <= i < |q'| ensures LinkedAt(l', q', i) {
      if i > 0 { assert q'[i] == q[i - 1] && LinkedAt(l, q, i - 1); }
    }
  }

  lemma AppendElemShape(l: Links, q: seq<nat>, k: nat, x: nat)
    requires Represents(l, q) && 0 < x < |l.prev| && x !in q && k < |q|
    ensures 0 < q[k] < |l.prev| && l.head != 0
    ensures var l', m := AppendElem(l, q[k], x), if k + 1 < |q| then q[k + 1] else q[0];
            && 0 < m < |l.prev| && l'.head == q[0]
            && l'.next == l.next[x := NextIn(q, k)][q[k] := x]
            && l'.prev == l.prev[x := q[k]][m := x]
  {
    assert LinkedAt(l, q, k) && LinkedAt(l, q, 0) && q[k] in q;
    assert k + 1 < |q| ==> LinkedAt(l, q, k + 1);
  }

  /** The links that DL_APPEND_ELEM rewrites are those of x and its neighbours. */
  ghost predicate InsertShape(l: Links, q: seq<nat>, k: nat, x: nat, l': Links) {
    && Represents(l, q) && 0 < x < |l.prev| && x !in q && k < |q|
    && var m := if k + 1 < |q| then q[k + 1] else q[0];
       && 0 < m < |l.prev| && 0 < q[k] < |l.prev|
       && l'.next == l.next[x := NextIn(q, k)][q[k] := x]
       && l'.prev == l.prev[x := q[k]][m := x]
  }

  lemma InsertedSelf(l: Links, q: seq<nat>, k: nat, x: nat, l': Links)
    requires InsertShape(l, q, k, x, l')
    ensures LinkedAt(l', Inserted(q, k + 1, x), k + 1)
  {
    InsertedIndex(q, k + 1, x, k);
    InsertedIndex(q, k + 1, x, k + 1);
    if k + 1 < |q| { InsertedIndex(q, k + 1, x, k + 2); }
    assert q[k] in q && q[0] in q && (k + 1 < |q| ==> q[k + 1] in q);
  }

  lemma InsertedBefore(l: Links, q: seq<nat>, k: nat, x: nat, l': Links, i: nat)
    requires InsertShape(l, q, k, x, l') && i <= k
    ensures LinkedAt(l', Inserted(q, k + 1, x), i)
  {
    InsertedIndex(q, k + 1, x, i);
    InsertedIndex(q, k + 1, x, i + 1);
    InsertedIndex(q, k + 1, x, if i > 0 then i - 1 else |q|);
    assert LinkedAt(l, q, i) && q[i] in q;
  }

  lemma InsertedAfter(l: Links, q: seq<nat>, k: nat, x: nat, l': Links, i: nat)
    requires InsertShape(l, q, k, x, l') && k + 1 < i <= |q|
    ensures LinkedAt(l', Inserted(q, k + 1, x), i)
  {
    InsertedIndex(q, k + 1, x, i);
    InsertedIndex(q, k + 1, x, i - 1);
    if i < |q| { InsertedIndex(q, k + 1, x, i + 1); }
    assert LinkedAt(l, q, i - 1) && q[i - 1] in q;
  }

  lemma InsertUntouched(l: Links, q: seq<nat>, k: nat, x: nat)
    requires Represents(l, q) && 0 < x < |l.prev| && x !in q && k < |q|
    ensures 0 < q[k] < |l.prev| && l.head != 0
    ensures Untouched(l, AppendElem(l, q[k], x), Inserted(q, k + 1, x))
  {
    AppendElemShape(l, q, k, x);
    var q' := Inserted(q, k + 1, x);
    assert q'[k] == q[k] && q'[k + 1] == x && q'[0] == q[0];
    assert k + 1 < |q| ==> q'[k + 2] == q[k + 1];
  }

  lemma AppendElemRefines(l: Links, q: seq<nat>, k: nat, x: nat)
    requires Represents(l, q) && 0 < x < |l.prev| && x !in q && k < |q|
    ensures 0 < q[k] < |l.prev| && l.head != 0
    ensures Represents(AppendElem(l, q[k], x), Inserted(q, k + 1, x))
    ensures Untouched(l, AppendElem(l, q[k], x), Inserted(q, k + 1, x))
  {
    AppendElemShape(l, q, k, x);
    InsertUntouched(l, q, k, x);
    InsertedMembers(q, k + 1, x);
    var l', q' := AppendElem(l, q[k], x), Inserted(q, k + 1, x);
    forall i | 0 <= i < |q'| ensures LinkedAt(l', q', i) {
      if i <= k {
        InsertedBefore(l, q, k, x, l', i);
      } else if i == k + 1 {
        InsertedSelf(l, q, k, x, l');
      } else {
        InsertedAfter(l, q, k, x, l', i);
      }
    }
  }

  lemma AppendToEmpty(l: Links, x: nat)
    requires Represents(l, []) && 0 < x < |l.prev|
    ensures Represents(Append(l, x), [x])
    ensures Untouched(l, Append(l, x), [x])
  {
  }

  lemma ClearOutside(l: Links, q: seq<nat>, x: nat)
    requires Represents(l, q) && 0 < x < |l.prev| && x !in q
    ensures Represents(Clear(l, x), q)
    ensures !IsLinked(Clear(l, x), x)
  {
    forall i | 0 <= i < |q| ensures LinkedAt(Clear(l, x), q, i) {
      assert LinkedAt(l, q, i) && q[i] in q;
    }
  }

  /** A link of a node outside the list does not matter to the list. */
  lemma SetOutside(l: Links, q: seq<nat>, x: nat)
    requires Represents(l, q) && 0 < x < |l.prev| && x !in q
    ensures Represents(SetNext(l, x, 0), q) && Represents(SetPrev(l, x, 0), q)
  {
    forall i | 0 <= i < |q| ensures LinkedAt(SetNext(l, x, 0), q, i) && LinkedAt(SetPrev(l, x, 0), q, i) {
      assert LinkedAt(l, q, i) && q[i] in q;
    }
  }

  /** Unlinking a queued node and clearing its links, as every removal by margo does. */
  lemma RemoveRefines(l: Links, q: seq<nat>, k: nat)
    requires Represents(l, q) && k < |q|
    ensures 0 < q[k] < |l.prev| && DeleteDefined(l, q[k])
    ensures var l' := Clear(Delete(l, q[k]), q[k]);
            && Represents(l', Without(q, k))
            && Untouched(l, l', q)
            && !IsLinked(l', q[k])
    ensures q[k] !in Without(q, k) && forall y :: y in q <==> y == q[k] || y in Without(q, k)
  {
    DeleteRefines(l, q, k);
    WithoutMembers(q, k);
    ClearOutside(Delete(l, q[k]), Without(q, k), q[k]);
  }

  /** The stale links of x still describe neighbours: the old predecessor, if queued, is
      still followed by the old successor, and the old successor, if queued, is still
      preceded by the old predecessor (for a former tail: the old predecessor is still the
      tail; for a former singleton: the list is still empty). */
  ghost predicate StillNeighbours(l: Links, q: seq<nat>, x: nat)
    requires InMemory(l, |l.prev|) && 0 < x < |l.prev|
  {
    var p, n := l.prev[x], l.next[x];
    if p == x then q == []
    else
      && (p in q ==> l.next[p] == n)
      && (if n != 0 then n in q ==> l.prev[n] == p else p == l.prev[l.head])
  }

  /** Deleting a node that was already unlinked but still holds its old links keeps the
      list exactly when these stale links still describe neighbours. */
  lemma StaleDeleteHarmlessIff(l: Links, q: seq<nat>, x: nat)
    requires Represents(l, q) && 0 < x < |l.prev| && x !in q && DeleteDefined(l, x)
    ensures Represents(Delete(l, x), q) <==> StillNeighbours(l, q, x)
  {
    var p, n, l' := l.prev[x], l.next[x], Delete(l, x);
    if p != x {
      if q != [] { assert q[0] in q; }
      assert x != l.head;
      var m := if n != 0 then n else l.head;
      var harmless := (p in q ==> l.next[p] == n) && (m in q ==> l.prev[m] == p);
      assert l'.head == l.head && l'.next == l.next[p := n] && l'.prev == l.prev[m := p];
      if harmless {
        forall i | 0 <= i < |q| ensures LinkedAt(l', q, i) {
          assert LinkedAt(l, q, i) && q[i] in q;
        }
      }
      if Represents(l', q) {
        if p in q {
          var i := IndexOf(l, q, p);
          assert LinkedAt(l', q, i);
        }
        if m in q {
          var i := IndexOf(l, q, m);
          assert LinkedAt(l', q, i);
        }
      }
    } else {
      if q != [] { assert LinkedAt(l, q, 0); }
    }
  }

  /** What DL_DELETE writes when the node is not in the list. */
  lemma DeleteOutside(l: Links, q: seq<nat>, x: nat)
    requires Represents(l, q) && 0 < x < |l.prev| && x !in q && DeleteDefined(l, x)
    ensures l.prev[x] == x ==> Delete(l, x) == l.(head := 0)
    ensures l.prev[x] != x ==>
              var m := if l.next[x] != 0 then l.next[x] else l.head;
              m != 0 && Delete(l, x) == Links(l.head, l.prev[m := l.prev[x]], l.next[l.prev[x] := l.next[x]])
  {
    if q != [] { assert q[0] in q; }
  }

  /** Two queues with the same head, whose next links differ at p only and whose prev links
      differ at n only (or at nothing in the queue), agree as far as both go. */
  lemma {:induction false} SameOrder(l: Links, q: seq<nat>, l': Links, q': seq<nat>, p: nat, n: nat, k: nat)
    requires Represents(l, q) && Represents(l', q') && l'.head == l.head && p < |l.next|
    requires l'.next == l.next[p := n] && |l'.prev| == |l.prev|
    requires n != 0 ==> forall y :: 0 <= y < |l.prev| && y != n ==> l'.prev[y] == l.prev[y]
    requires (forall x :: x in q ==> x in q') && k <= |q| && k <= |q'|
    ensures q'[..k] == q[..k]
  {
    if k > 1 {
      SameOrder(l, q, l', q', p, n, k - 1);
      assert q[k - 2] == q[..k - 1][k - 2] == q'[..k - 1][k - 2] == q'[k - 2];
      SameNext(l, q, l', q', p, n, k - 1);
      assert q[..k] == q[..k - 1] + [q[k - 1]] && q'[..k] == q'[..k - 1] + [q'[k - 1]];
    } else if k == 1 {
      assert q[..1] == [q[0]] && q'[..1] == [q'[0]];
    }
  }

  lemma SameNext(l: Links, q: seq<nat>, l': Links, q': seq<nat>, p: nat, n: nat, k: nat)
    requires Represents(l, q) && Represents(l', q') && p < |l.next|
    requires l'.next == l.next[p := n] && |l'.prev| == |l.prev|
    requires n != 0 ==> forall y :: 0 <= y < |l.prev| && y != n ==> l'.prev[y] == l.prev[y]
    requires 0 < k < |q| && k < |q'| && q[k - 1] == q'[k - 1] && q[k] in q'
    ensures q'[k] == q[k]
  {
    assert LinkedAt(l, q, k - 1) && LinkedAt(l', q', k - 1);
    if q[k - 1] == p && n != q[k] {
      assert LinkedAt(l, q, k) && LinkedAt(l', q', k);
      var j := IndexOf(l', q', q[k]);
    }
  }

  /** A node that was not linked cannot have come in: nothing would lead on from it, while
      the head still points back at the old tail. */
  lemma NoNewcomer(l: Links, q: seq<nat>, x: nat, q': seq<nat>, y: nat)
    requires Represents(l, q) && 0 < x < |l.prev| && x !in q && x !in q' && DeleteDefined(l, x)
    requires Represents(Delete(l, x), q')
    requires y in q' && 0 < y < |l.prev| && !IsLinked(l, y)
    ensures y in q
  {
    var l' := Delete(l, x);
    DeleteOutside(l, q, x);
    LinkedWhenQueued(l', q', y);
    assert LinkedAt(l', q', 0);
    assert LinkedAt(l, q, 0) && q[0] in q && q[|q| - 1] in q;
    assert y == (if l.next[x] != 0 then l.next[x] else l.head);
    if y != l.head {
      assert q'[|q'| - 1] == q[|q| - 1];
      var i := IndexOf(l', q', y);
      assert i + 1 < |q'| ==> LinkedAt(l', q', i + 1);
    }
  }

  lemma BeyondPrefix(a: seq<nat>, b: seq<nat>)
    requires Distinct(b) && |a| < |b| && b[..|a|] == a
    ensures b[|a|] in b && b[|a|] !in a
  {
    assert forall i :: 0 <= i < |a| ==> a[i] == b[i];
  }

  /** If the links still spell out a queue after a node outside it was deleted, with no node
      lost and no linked node gained, it is the same queue. */
  lemma SameQueue(l: Links, q: seq<nat>, x: nat, q': seq<nat>)
    requires Represents(l, q) && 0 < x < |l.prev| && x !in q && x !in q' && DeleteDefined(l, x)
    requires Represents(Delete(l, x), q')
    requires forall y :: y in q ==> y in q'
    requires forall y :: y in q' && y !in q ==> 0 < y < |l.prev| && !IsLinked(l, y)
    ensures q' == q
  {
    DeleteOutside(l, q, x);
    if q != [] { assert q[0] in q; }
    if q' != [] { assert LinkedAt(Delete(l, x), q', 0); }
    forall y | y in q' ensures y in q {
      if y !in q { NoNewcomer(l, q, x, q', y); }
    }
    if l.prev[x] != x {
      SameOrder(l, q, Delete(l, x), q', l.prev[x], l.next[x], if |q| <= |q'| then |q| else |q'|);
      if |q| < |q'| { BeyondPrefix(q, q'); }
      if |q'| < |q| { BeyondPrefix(q', q); }
    }
  }
}
