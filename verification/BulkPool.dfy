/** Pools of pre-registered bulk handles: an array used as a stack.  Every method runs under
    the pool's mutex. */
module BulkPool {
  import opened Common
  import Bits

  /** A bulk handle with the memory it registers. */
  datatype Bulk = Bulk(id: nat, address: nat, size: nat)

  ghost predicate DistinctBulks(s: seq<Bulk>) {
    forall i, j :: 0 <= i < j < |s| ==> s[i] != s[j]
  }

  /** The slots from `from` on hold each handle of `all` that is not checked out, once. */
  ghost predicate Holds(s: seq<Bulk>, from: nat, all: seq<Bulk>, out: set<Bulk>) {
    && |s| == |all| && from <= |s| && DistinctBulks(all)
    && multiset(s[from..]) + multiset(out) == multiset(all)
  }

  lemma HoldsCount(s: seq<Bulk>, from: nat, all: seq<Bulk>, out: set<Bulk>)
    requires Holds(s, from, all, out)
    ensures |out| == from
  {
    assert |multiset(s[from..])| == |s| - from;
    assert |multiset(s[from..]) + multiset(out)| == |multiset(all)| == |all|;
  }

  lemma CountMismatch(s: seq<Bulk>, from: nat, all: seq<Bulk>, out: set<Bulk>)
    requires |out| != from
    ensures !Holds(s, from, all, out)
  {
    if Holds(s, from, all, out) {
      HoldsCount(s, from, all, out);
    }
  }

  lemma {:induction false} DistinctOnce(s: seq<Bulk>, b: Bulk)
    requires DistinctBulks(s)
    ensures multiset(s)[b] <= 1
    decreases |s|
  {
    if s != [] {
      DistinctOnce(s[1..], b);
      assert s == [s[0]] + s[1..];
      if b == s[0] {
        assert b !in s[1..];
        assert b !in multiset(s[1..]);
      }
    }
  }

  /** No handle is on the stack twice, or both on the stack and checked out. */
  lemma NoDuplicates(s: seq<Bulk>, from: nat, all: seq<Bulk>, out: set<Bulk>)
    requires Holds(s, from, all, out)
    ensures DistinctBulks(s[from..])
    ensures forall b :: b in out ==> b !in s[from..] && b in all
    ensures forall b :: b in s[from..] ==> b in all
  {
    var t := s[from..];
    forall b ensures multiset(t)[b] + multiset(out)[b] <= 1 {
      DistinctOnce(all, b);
      assert (multiset(t) + multiset(out))[b] == multiset(all)[b];
    }
    forall i, j | 0 <= i < j < |t| ensures t[i] != t[j] {
      if t[i] == t[j] {
        TwicePresent(t, i, j);
        assert false;
      }
    }
    forall b | b in out ensures b !in t && b in all {
      assert multiset(out)[b] == 1;
      assert b in multiset(all);
      assert b in t ==> multiset(t)[b] >= 1;
    }
    forall b | b in t ensures b in all {
      assert b in multiset(all);
    }
  }

  lemma TwicePresent(t: seq<Bulk>, i: nat, j: nat)
    requires i < j < |t| && t[i] == t[j]
    ensures multiset(t)[t[i]] >= 2
  {
    assert t == t[..i] + [t[i]] + t[i + 1..j] + [t[j]] + t[j + 1..];
  }

  lemma GetKeeps(s: seq<Bulk>, from: nat, all: seq<Bulk>, out: set<Bulk>)
    requires Holds(s, from, all, out) && from < |s|
    ensures s[from] !in out && s[from] in all
    ensures Holds(s, from + 1, all, out + {s[from]})
  {
    NoDuplicates(s, from, all, out);
    assert s[from..][0] == s[from];
    assert s[from..] == [s[from]] + s[from + 1..];
  }

  lemma ReleaseKeeps(s: seq<Bulk>, from: nat, all: seq<Bulk>, out: set<Bulk>, b: Bulk)
    requires Holds(s, from, all, out) && b in out
    ensures from > 0
    ensures Holds(s[from - 1 := b], from - 1, all, out - {b})
  {
    HoldsCount(s, from, all, out);
    var s' := s[from - 1 := b];
    assert s'[from - 1..] == [b] + s[from..];
    forall x ensures multiset(out - {b})[x] + (if x == b then 1 else 0) == multiset(out)[x] {
    }
  }

  /** Releasing a handle keeps the pool in order if and only if the handle is checked out. */
  lemma ReleaseKeepsIff(s: seq<Bulk>, from: nat, all: seq<Bulk>, out: set<Bulk>, b: Bulk)
    requires Holds(s, from, all, out) && from > 0
    ensures Holds(s[from - 1 := b], from - 1, all, out - {b}) <==> b in out
  {
    HoldsCount(s, from, all, out);
    if b in out {
      ReleaseKeeps(s, from, all, out, b);
    } else {
      assert out - {b} == out;
      CountMismatch(s[from - 1 := b], from - 1, all, out);
    }
  }

  /** A handle of the pool that is not checked out is on the stack already, so releasing it
      again puts it there twice. */
  lemma SecondReleaseDuplicates(s: seq<Bulk>, from: nat, all: seq<Bulk>, out: set<Bulk>, b: Bulk)
    requires Holds(s, from, all, out) && from > 0 && b in all && b !in out
    ensures s[from - 1 := b][from - 1] == b && b in s[from - 1 := b][from..]
  {
    assert b in multiset(all) && multiset(all)[b] == multiset(s[from..])[b] + multiset(out)[b];
    assert s[from - 1 := b][from..] == s[from..];
  }

  /** Once everything is released the array is a permutation of the original. */
  lemma AllReleased(s: seq<Bulk>, from: nat, all: seq<Bulk>)
    requires Holds(s, from, all, {})
    ensures from == 0 && multiset(s) == multiset(all)
  {
    HoldsCount(s, from, all, {});
    assert s[0..] == s;
  }

  class Pool {
    const buf: nat
    const size: nat
    const count: nat
    const bulks: array<Bulk>
    var numFree: nat
    ghost const all: seq<Bulk>  // the handles in the order of creation
    ghost var out: set<Bulk>    // the handles checked out

    /** The memory of every handle lies in the pool's buffer. */
    ghost predicate Inside()
      reads this
    {
      forall i :: 0 <= i < |all| ==>
        all[i].size == size && buf <= all[i].address && all[i].address + size <= End()
    }

    /** The end of the pool's buffer. */
    function End(): nat {
      buf + size * count
    }

    ghost predicate Valid()
      reads this, bulks
    {
      && bulks.Length == count && numFree <= count
      && Holds(bulks[..], count - numFree, all, out)
      && Inside()
    }

    /** margo_bulk_pool_create with the handles that Mercury creates, one per region. */
    constructor (base: nat, n: nat, sz: nat, handles: seq<Bulk>)
      requires |handles| == n && DistinctBulks(handles)
      requires forall i :: 0 <= i < n ==> handles[i].size == sz && handles[i].address == base + i * sz
      ensures Valid() && all == handles && out == {} && numFree == n && size == sz && buf == base && count == n
      ensures fresh(bulks)
    {
      buf, size, count, numFree := base, sz, n, n;
      bulks := new Bulk[n](i requires 0 <= i < n => handles[i]);
      all, out := handles, {};
      new;
      assert bulks[..] == handles;
      assert bulks[..][0..] == handles;
      forall i | 0 <= i < n ensures base <= handles[i].address && handles[i].address + sz <= base + sz * n {
        Bits.MulStep(i, n, sz);
      }
    }

    /** margo_bp_get, once a handle is free */
    method Get() returns (b: Bulk)
      requires Valid() && numFree > 0
      modifies this`numFree, this`out
      ensures Valid() && numFree == old(numFree) - 1
      ensures b !in old(out) && b in all && out == old(out) + {b}
    {
      GetKeeps(bulks[..], count - numFree, all, out);
      b := bulks[count - numFree];
      numFree := numFree - 1;
      out := out + {b};
    }

    /** margo_bulk_pool_tryget; None stands for HG_BULK_NULL */
    method TryGet() returns (b: Option<Bulk>)
      requires Valid()
      modifies this`numFree, this`out
      ensures Valid() && (b.None? <==> old(out) == (set x | x in all))
      ensures b.None? ==> out == old(out) && numFree == old(numFree)
      ensures b.Some? ==> b.value !in old(out) && b.value in all && out == old(out) + {b.value}
    {
      if numFree == 0 {
        EmptyMeansAllOut(bulks[..], all, out);
        return None;
      }
      var x := Get();
      b := Some(x);
      assert x in all && x !in old(out);
    }

    predicate Accepts(b: Bulk) {
      b.size == size && buf <= b.address && b.address + b.size <= End()
    }

    /** margo_bulk_pool_release: a handle of another size or from elsewhere is refused.  The
        code does not check that an accepted handle is checked out: when nothing is, it writes
        in front of the array (`outside`); in any case the pool is in order afterwards if and
        only if the handle was checked out. */
    method Release(b: Option<Bulk>) returns (ret: int, outside: bool)
      requires Valid()
      modifies this`numFree, this`out, bulks
      ensures ret == 0 || ret == -1
      ensures ret == 0 <==> b.Some? && b.value.size == size && buf <= b.value.address
                            && b.value.address + b.value.size <= buf + size * count
      ensures b.Some? && b.value in old(out) ==> ret == 0
      ensures outside <==> ret == 0 && old(out) == {}
      ensures ret != 0 ==> Valid() && out == old(out) && numFree == old(numFree) && bulks[..] == old(bulks[..])
      ensures ret == 0 ==> out == old(out) - {b.value} && numFree == old(numFree) + 1
      ensures ret == 0 && outside ==> numFree > count && bulks[..] == old(bulks[..])
      ensures ret == 0 && !outside ==> numFree <= count && bulks[..] == old(bulks[..])[count - numFree := b.value]
      ensures ret == 0 ==> (Valid() <==> b.value in old(out))
      ensures ret == 0 && out == {} && b.value in old(out) ==> multiset(bulks[..]) == multiset(all)
    {
      if b.None? {
        return -1, false;
      }
      var x := b.value;
      OutAccepted(x);
      if size != x.size {
        return -1, false;
      }
      if x.address < buf || x.address + x.size > End() {
        return -1, false;
      }
      HoldsCount(bulks[..], count - numFree, all, out);
      if numFree == count {
        numFree := numFree + 1;
        out := out - {x};
        return 0, true;
      }
      Push(x);
      return 0, false;
    }

    /** margo_bp_release */
    method Push(x: Bulk)
      requires Valid() && numFree < count
      modifies this`numFree, this`out, bulks
      ensures out == old(out) - {x} && numFree == old(numFree) + 1 && numFree <= count
      ensures bulks[..] == old(bulks[..])[count - numFree := x]
      ensures Valid() <==> x in old(out)
      ensures out == {} && x in old(out) ==> multiset(bulks[..]) == multiset(all)
    {
      ghost var s, from := bulks[..], count - numFree;
      ghost var s' := s[from - 1 := x];
      ReleaseKeepsIff(s, from, all, out, x);
      if out - {x} == {} && x in out {
        AllReleased(s', from - 1, all);
      }
      numFree := numFree + 1;
      bulks[count - numFree] := x;
      out := out - {x};
      assert bulks[..] == s';
    }

    /** A handle that is checked out is accepted, and then something is checked out. */
    lemma OutAccepted(b: Bulk)
      requires Valid()
      ensures b in out ==> Accepts(b) && numFree < count
    {
      HoldsCount(bulks[..], count - numFree, all, out);
      NoDuplicates(bulks[..], count - numFree, all, out);
      if b in out {
        var i :| 0 <= i < |all| && all[i] == b;
      }
    }
  }

  lemma EmptyMeansAllOut(s: seq<Bulk>, all: seq<Bulk>, out: set<Bulk>)
    requires Holds(s, |s|, all, out)
    ensures out == set x | x in all
  {
    assert multiset(out) == multiset(all);
    forall x ensures x in out <==> x in all {
      assert x in multiset(out) <==> x in multiset(all);
    }
  }
}
