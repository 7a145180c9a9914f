/** Sets of bulk pools with growing handle sizes: which pool a request and a returned handle
    go to.  Sizes are 64-bit and are multiplied modulo 2^64. */
module BulkPoolset {

  const SizeRange: nat := 0x1_0000_0000_0000_0000

  datatype Poolset = Poolset(npools: nat, firstSize: nat, sizeMultiple: nat)

  /** What margo_bulk_poolset_create asserts of its arguments. */
  predicate Created(s: Poolset) {
    s.npools > 0 && 0 < s.firstSize < SizeRange && 1 < s.sizeMultiple < SizeRange
  }

  /** The handle size of pool i, as the loops compute it. */
  function SizeOf(s: Poolset, i: nat): nat {
    if i == 0 then s.firstSize else (SizeOf(s, i - 1) * s.sizeMultiple) % SizeRange
  }

  /** The handle size of pool i without wrap-around. */
  function IdealSize(s: Poolset, i: nat): nat {
    if i == 0 then s.firstSize else IdealSize(s, i - 1) * s.sizeMultiple
  }

  function Pow(b: nat, n: nat): nat {
    if n == 0 then 1 else b * Pow(b, n - 1)
  }

  /** The sizes are the first one times the powers of the multiple, modulo 2^64. */
  lemma {:induction false} SizeIsPower(s: Poolset, i: nat)
    requires Created(s)
    ensures IdealSize(s, i) == s.firstSize * Pow(s.sizeMultiple, i)
    ensures SizeOf(s, i) == (s.firstSize * Pow(s.sizeMultiple, i)) % SizeRange
  {
    if i > 0 {
      SizeIsPower(s, i - 1);
      var x, m := s.firstSize * Pow(s.sizeMultiple, i - 1), s.sizeMultiple;
      ProductOfThree(s.firstSize, Pow(s.sizeMultiple, i - 1), m);
      ModTimes(x, m);
    }
  }

  lemma ProductOfThree(a: nat, b: nat, c: nat)
    ensures a * b * c == a * (c * b)
  {
  }

  lemma ModTimes(x: nat, m: nat)
    ensures ((x % SizeRange) * m) % SizeRange == (x * m) % SizeRange
  {
    var q, r := x / SizeRange, x % SizeRange;
    assert x * m == r * m + SizeRange * (q * m) by {
      assert x == SizeRange * q + r;
      Spread(q, r, m);
    }
    ModPlus(r * m, q * m);
  }

  lemma Spread(q: nat, r: nat, m: nat)
    ensures (SizeRange * q + r) * m == r * m + SizeRange * (q * m)
  {
  }

  lemma {:induction false} ModPlus(a: nat, k: nat)
    ensures (a + SizeRange * k) % SizeRange == a % SizeRange
  {
    if k > 0 {
      ModPlus(a, k - 1);
      assert a + SizeRange * k == (a + SizeRange * (k - 1)) + SizeRange;
    }
  }

  predicate NoOverflow(s: Poolset) {
    s.npools > 0 && IdealSize(s, s.npools - 1) < SizeRange
  }

  lemma Doubles(x: nat, m: nat)
    requires x > 0 && m > 1
    ensures x * m >= 2 * x
  {
    assert x * m == 2 * x + x * (m - 2);
  }

  lemma {:induction false} IdealGrows(s: Poolset, i: nat, j: nat)
    requires Created(s) && i < j
    ensures 0 < IdealSize(s, i) < IdealSize(s, j)
    decreases j
  {
    IdealPositive(s, j - 1);
    Doubles(IdealSize(s, j - 1), s.sizeMultiple);
    if i < j - 1 {
      IdealGrows(s, i, j - 1);
    }
  }

  lemma {:induction false} IdealPositive(s: Poolset, i: nat)
    requires Created(s)
    ensures IdealSize(s, i) > 0
  {
    if i > 0 {
      IdealPositive(s, i - 1);
      Doubles(IdealSize(s, i - 1), s.sizeMultiple);
    }
  }

  lemma {:induction false} SizeIsIdeal(s: Poolset, i: nat)
    requires Created(s) && NoOverflow(s) && i < s.npools
    ensures SizeOf(s, i) == IdealSize(s, i)
    decreases i
  {
    if i > 0 {
      SizeIsIdeal(s, i - 1);
      if i < s.npools - 1 {
        IdealGrows(s, i, s.npools - 1);
      }
    }
  }

  /** Without overflow the sizes are strictly ascending. */
  lemma SizesAscend(s: Poolset, i: nat, j: nat)
    requires Created(s) && NoOverflow(s) && i < j < s.npools
    ensures SizeOf(s, i) < SizeOf(s, j)
  {
    SizeIsIdeal(s, i);
    SizeIsIdeal(s, j);
    IdealGrows(s, i, j);
  }

  /** The first pool from i on whose handles are large enough; npools when there is none. */
  function Chosen(s: Poolset, size: nat, i: nat): (c: nat)
    requires i <= s.npools
    ensures i <= c <= s.npools
    ensures c < s.npools ==> size <= SizeOf(s, c)
    ensures forall k :: i <= k < c ==> SizeOf(s, k) < size
    decreases s.npools - i
  {
    if i == s.npools || size <= SizeOf(s, i) then i else Chosen(s, size, i + 1)
  }

  /** The pool that margo_bulk_poolset_get asks; -1 when it fails. */
  method Select(s: Poolset, size: nat) returns (index: int)
    requires Created(s)
    ensures index == if Chosen(s, size, 0) < s.npools then Chosen(s, size, 0) else -1
    ensures index == -1 ==> forall i :: 0 <= i < s.npools ==> SizeOf(s, i) < size
    ensures index != -1 ==> 0 <= index < s.npools && size <= SizeOf(s, index)
    ensures index != -1 ==> forall i :: 0 <= i < index ==> SizeOf(s, i) < size
  {
    var thisSize := s.firstSize;
    for i := 0 to s.npools
      invariant thisSize == SizeOf(s, i)
      invariant forall k :: 0 <= k < i ==> SizeOf(s, k) < size
      invariant Chosen(s, size, 0) == Chosen(s, size, i)
    {
      if size <= thisSize {
        return i;
      }
      thisSize := (thisSize * s.sizeMultiple) % SizeRange;
    }
    return -1;
  }

  /** margo_bulk_poolset_get_max */
  function MaxSize(s: Poolset): nat {
    if s.npools == 0 then 0 else SizeOf(s, s.npools - 1)
  }

  lemma AscendingOrSame(s: Poolset, i: nat, j: nat)
    requires Created(s) && NoOverflow(s) && i <= j < s.npools
    ensures SizeOf(s, i) <= SizeOf(s, j)
  {
    if i < j {
      SizesAscend(s, i, j);
    }
  }

  /** Without overflow a request fails exactly when it exceeds the reported maximum. */
  lemma FailsAboveMaximum(s: Poolset, size: nat)
    requires Created(s) && NoOverflow(s)
    ensures Chosen(s, size, 0) == s.npools <==> size > MaxSize(s)
  {
    var c := Chosen(s, size, 0);
    if c < s.npools {
      AscendingOrSame(s, c, s.npools - 1);
    } else {
      assert SizeOf(s, s.npools - 1) < size;
    }
  }

  /** Without overflow a request gets the smallest class that fits. */
  lemma SmallestFit(s: Poolset, size: nat, k: nat)
    requires Created(s) && NoOverflow(s) && k < s.npools && size <= SizeOf(s, k)
    ensures Chosen(s, size, 0) <= k && SizeOf(s, Chosen(s, size, 0)) <= SizeOf(s, k)
  {
    AscendingOrSame(s, Chosen(s, size, 0), k);
  }

  ghost predicate FailsAboveMax(s: Poolset, size: nat) {
    Chosen(s, size, 0) == s.npools <==> size > MaxSize(s)
  }

  ghost predicate LastIsLargest(s: Poolset) {
    forall i :: 0 <= i < s.npools ==> SizeOf(s, i) <= MaxSize(s)
  }

  /** In general, requests fail exactly above the reported maximum if and only if no class is
      larger than the last one. */
  lemma FailsAboveMaxIff(s: Poolset)
    requires Created(s)
    ensures (forall size: nat :: FailsAboveMax(s, size)) <==> LastIsLargest(s)
  {
    if LastIsLargest(s) {
      forall size: nat ensures FailsAboveMax(s, size) {
        var c := Chosen(s, size, 0);
        assert c < s.npools ==> SizeOf(s, c) <= MaxSize(s);
        assert c == s.npools ==> SizeOf(s, s.npools - 1) < size;
      }
    } else {
      var i :| 0 <= i < s.npools && SizeOf(s, i) > MaxSize(s);
      assert Chosen(s, SizeOf(s, i), 0) <= i;
      assert !FailsAboveMax(s, SizeOf(s, i));
    }
  }

  /** Two classes of which the second wraps around to a smaller size: the reported maximum is
      2^33, and yet a request of 3 * 2^32 bytes is served. */
  lemma WrappedSizes()
    ensures var s := Poolset(2, 0x3_0000_0000, 1431655766);
      Created(s) && MaxSize(s) == 0x2_0000_0000 && Chosen(s, 0x3_0000_0000, 0) == 0 && !LastIsLargest(s)
  {
    var s := Poolset(2, 0x3_0000_0000, 1431655766);
    assert SizeOf(s, 0) == 0x3_0000_0000;
    assert SizeOf(s, 1) == 0x2_0000_0000;
  }

  /** The pool to which margo_bulk_poolset_release returns a handle of the given size. */
  method Route(s: Poolset, bulkSize: nat) returns (index: int)
    requires Created(s)
    ensures index == -1 <==> forall i :: 0 <= i < s.npools ==> SizeOf(s, i) != bulkSize
    ensures index != -1 ==> 0 <= index < s.npools && SizeOf(s, index) == bulkSize
    ensures forall own :: 0 <= own < s.npools && SizeOf(s, own) == bulkSize && NoOverflow(s) ==> index == own
  {
    var size := s.firstSize;
    for i := 0 to s.npools
      invariant size == SizeOf(s, i)
      invariant forall k :: 0 <= k < i ==> SizeOf(s, k) != bulkSize
    {
      if bulkSize == size {
        forall own | 0 <= own < s.npools && SizeOf(s, own) == bulkSize && NoOverflow(s) ensures i == own {
          if i < own {
            SizesAscend(s, i, own);
          }
        }
        return i;
      }
      size := (size * s.sizeMultiple) % SizeRange;
    }
    return -1;
  }

  /** The pool that margo_bulk_poolset_tryget takes from, given how many handles are free in
      each; -1 stands for HG_BULK_NULL. */
  method TrySelect(s: Poolset, size: nat, anyFlag: bool, free: seq<nat>) returns (index: int)
    requires Created(s) && |free| == s.npools
    ensures index != -1 ==> 0 <= index < s.npools && size <= SizeOf(s, index) && free[index] > 0
    ensures anyFlag ==> (index == -1 <==> forall i :: 0 <= i < s.npools ==> SizeOf(s, i) < size || free[i] == 0)
    ensures anyFlag && index != -1 ==> forall i :: 0 <= i < index ==> SizeOf(s, i) < size || free[i] == 0
    ensures !anyFlag ==>
      var c := Chosen(s, size, 0);
      index == if c < s.npools && free[c] > 0 then c else -1
  {
    var thisSize := s.firstSize;
    for i := 0 to s.npools
      invariant thisSize == SizeOf(s, i)
      invariant forall k :: 0 <= k < i ==> SizeOf(s, k) < size || (anyFlag && free[k] == 0)
      invariant !anyFlag ==> Chosen(s, size, 0) == Chosen(s, size, i)
    {
      if size <= thisSize {
        if free[i] > 0 {
          return i;
        }
        if !anyFlag {
          return -1;
        }
      }
      thisSize := (thisSize * s.sizeMultiple) % SizeRange;
    }
    return -1;
  }
}
