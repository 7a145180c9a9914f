/** Bitwise operators on unsigned machine words, modelled on the natural numbers.
    A word of n bits is a natural number below Pow2(n). */
module Bits {

  function Pow2(n: nat): (p: nat)
    ensures p > 0
  {
    if n == 0 then 1 else 2 * Pow2(n - 1)
  }

  /** The C operator `x & y`. */
  function And(x: nat, y: nat): nat
  {
    if x == 0 || y == 0 then 0
    else (if x % 2 == 1 && y % 2 == 1 then 1 else 0) + 2 * And(x / 2, y / 2)
  }

  /** The C operator `x | y`. */
  function Or(x: nat, y: nat): nat
    decreases x + y
  {
    if x == 0 then y
    else if y == 0 then x
    else (if x % 2 == 1 || y % 2 == 1 then 1 else 0) + 2 * Or(x / 2, y / 2)
  }

  /** The k low bits of x. */
  function Low(x: nat, k: nat): nat
    decreases k
  {
    if k == 0 then 0 else x % 2 + 2 * Low(x / 2, k - 1)
  }

  lemma {:induction false} LowIsMod(x: nat, k: nat)
    ensures Low(x, k) == x % Pow2(k)
    decreases k
  {
    if k > 0 {
      LowIsMod(x / 2, k - 1);
      ModDouble(x, Pow2(k - 1));
    }
  }

  lemma {:induction false} AndLow(x: nat, k: nat)
    ensures And(x, Pow2(k) - 1) == Low(x, k)
    decreases k
  {
    if k > 0 {
      AndLow(x / 2, k - 1);
      AndStep(x, Pow2(k) - 1);
    }
  }

  /** Masking with 2^k - 1 keeps the k low bits. */
  lemma AndLowMask(x: nat, k: nat)
    ensures And(x, Pow2(k) - 1) == x % Pow2(k)
  {
    AndLow(x, k);
    LowIsMod(x, k);
  }

  lemma {:induction false} AndStep(x: nat, y: nat)
    ensures And(x, y) == (if y % 2 == 0 then 0 else x % 2) + 2 * And(x / 2, y / 2)
  {
  }

  lemma ModDouble(x: nat, m: nat)
    requires m > 0
    ensures x % (2 * m) == x % 2 + 2 * ((x / 2) % m)
    ensures x / (2 * m) == x / 2 / m
  {
    var h := x / 2;
    var q, r := h / m, h % m;
    assert h == q * m + r;
    assert x == q * (2 * m) + (2 * r + x % 2);
    DivModUnique(x, 2 * m, q, 2 * r + x % 2);
  }

  lemma MulAtLeast(k: int, d: nat)
    requires k >= 1
    ensures k * d >= d
  {
    assert k * d == d + (k - 1) * d;
  }

  /** i + 1 times a is at most n times a. */
  lemma {:induction false} MulStep(i: nat, n: nat, a: nat)
    requires i < n
    ensures i * a + a <= n * a
    decreases n - i
  {
    if i + 1 < n {
      MulStep(i, n - 1, a);
    }
    assert (n - 1) * a + a == n * a;
  }

  lemma DivModUnique(x: nat, d: nat, q: nat, r: nat)
    requires d > 0 && r < d && x == q * d + r
    ensures x / d == q && x % d == r
  {
    var q', r' := x / d, x % d;
    assert x == q' * d + r';
    assert (q - q') * d == r' - r;
    if q' < q {
      MulAtLeast(q - q', d);
    } else if q' > q {
      assert (q' - q) * d == r - r';
      MulAtLeast(q' - q, d);
    }
  }

  lemma {:induction false} Pow2Monotone(k: nat, n: nat)
    requires k <= n
    ensures Pow2(k) <= Pow2(n)
    decreases n
  {
    if k < n {
      Pow2Monotone(k, n - 1);
    }
  }

  lemma {:induction false} AndEven(x: nat, y: nat)
    ensures And(x, 2 * y) == 2 * And(x / 2, y)
  {
    AndStep(x, 2 * y);
  }

  lemma Pow2Plus8(n: nat)
    ensures Pow2(n + 8) == 256 * Pow2(n)
  {
    assert Pow2(n + 8) == 2 * Pow2(n + 7) == 4 * Pow2(n + 6) == 8 * Pow2(n + 5) == 16 * Pow2(n + 4);
    assert Pow2(n + 4) == 2 * Pow2(n + 3) == 4 * Pow2(n + 2) == 8 * Pow2(n + 1);
  }

  /** 2^64, the number of values of a size_t. */
  lemma WordSize()
    ensures Pow2(64) == 0x1_0000_0000_0000_0000
  {
    assert Pow2(8) == 256;
    Pow2Plus8(8);
    Pow2Plus8(16);
    Pow2Plus8(24);
    Pow2Plus8(32);
    Pow2Plus8(40);
    Pow2Plus8(48);
    Pow2Plus8(56);
  }

  lemma {:induction false} LowOfSmall(x: nat, n: nat)
    requires x < Pow2(n)
    ensures Low(x, n) == x
    decreases n
  {
    if n > 0 {
      LowOfSmall(x / 2, n - 1);
    }
  }

  lemma {:induction false} AndHigh(x: nat, n: nat, k: nat)
    requires k <= n && x < Pow2(n) && Pow2(k) <= Pow2(n)
    ensures And(x, Pow2(n) - Pow2(k)) == x - Low(x, k)
    decreases n
  {
    if k == 0 {
      AndLow(x, n);
      LowOfSmall(x, n);
    } else {
      Pow2Monotone(k - 1, n - 1);
      AndHigh(x / 2, n - 1, k - 1);
      AndEven(x, Pow2(n - 1) - Pow2(k - 1));
    }
  }

  /** Masking an n-bit word with the complement of 2^k - 1 clears its k low bits. */
  lemma AndHighMask(x: nat, n: nat, k: nat)
    requires k <= n && x < Pow2(n)
    ensures Pow2(k) <= Pow2(n)
    ensures And(x, Pow2(n) - Pow2(k)) == x - x % Pow2(k)
  {
    Pow2Monotone(k, n);
    AndHigh(x, n, k);
    LowIsMod(x, k);
  }

  lemma SmallMod(x: nat, m: nat)
    requires x < m
    ensures x % m == x && x % 1 == 0
  {
  }

  /** For a word below 2^(k+1), the top bit is set exactly when the word reaches 2^k,
      and or-ing the top bit in sets it without touching the low bits. */
  lemma {:induction false} TopBit(w: nat, k: nat)
    requires w < Pow2(k + 1)
    ensures And(w, Pow2(k)) == (if w < Pow2(k) then 0 else Pow2(k))
    ensures Or(w, Pow2(k)) == (if w < Pow2(k) then w + Pow2(k) else w)
    decreases k
  {
    if k == 0 {
      assert Pow2(1) == 2 && Pow2(0) == 1;
      assert w == 0 || w == 1;
    } else {
      TopBit(w / 2, k - 1);
    }
  }
}
