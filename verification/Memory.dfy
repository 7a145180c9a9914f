/** Flat byte memory with 8-byte little-endian pointers. */
module Memory {
  import Bits

  type byte = x: int | 0 <= x < 256

  const PointerSize: nat := 8
  const AddressSpace: nat := 0x1_0000_0000_0000_0000

  function Encode(v: nat, n: nat): (bytes: seq<byte>)
    ensures |bytes| == n
  {
    if n == 0 then [] else [v % 256] + Encode(v / 256, n - 1)
  }

  function Decode(bytes: seq<byte>): nat {
    if bytes == [] then 0 else bytes[0] + 256 * Decode(bytes[1..])
  }

  function Pow256(n: nat): nat {
    if n == 0 then 1 else 256 * Pow256(n - 1)
  }

  lemma {:induction false} DecodeEncode(v: nat, n: nat)
    requires v < Pow256(n)
    ensures Decode(Encode(v, n)) == v
    decreases n
  {
    if n > 0 {
      DecodeEncode(v / 256, n - 1);
      assert Encode(v, n)[1..] == Encode(v / 256, n - 1);
    }
  }

  /** The lowest byte comes first. */
  lemma {:induction false} EncodeByte(v: nat, n: nat, i: nat)
    requires i < n
    ensures Pow256(i) > 0 && Encode(v, n)[i] == v / Pow256(i) % 256
    decreases n
  {
    Pow256Positive(i);
    if i > 0 {
      EncodeByte(v / 256, n - 1, i - 1);
      DivTwice(v, Pow256(i - 1));
    }
  }

  lemma {:induction false} Pow256Positive(n: nat)
    ensures Pow256(n) > 0
  {
    if n > 0 {
      Pow256Positive(n - 1);
    }
  }

  lemma DivTwice(v: nat, p: nat)
    requires p > 0
    ensures v / 256 / p == v / (256 * p)
  {
    var a, r := v / 256 / p, v / 256 % p;
    assert v / 256 == p * a + r;
    assert v == 256 * (p * a + r) + v % 256;
    Bits.DivModUnique(v, 256 * p, a, 256 * r + v % 256);
  }

  lemma PointerFits()
    ensures Pow256(PointerSize) == AddressSpace
  {
    calc {
      Pow256(8);
      256 * Pow256(7);
      256 * 256 * Pow256(6);
      0x100_0000 * Pow256(5);
      0x1_0000_0000 * Pow256(4);
      0x100_0000_0000 * Pow256(3);
      0x1_0000_0000_0000 * Pow256(2);
      0x100_0000_0000_0000 * Pow256(1);
      0x1_0000_0000_0000_0000;
    }
  }

  function Bytes(mem: seq<byte>, a: nat, n: nat): (r: seq<byte>)
    requires a + n <= |mem|
    ensures |r| == n
  {
    mem[a..a + n]
  }

  /** *(void**)a */
  function Load(mem: seq<byte>, a: nat): nat
    requires a + PointerSize <= |mem|
  {
    Decode(Bytes(mem, a, PointerSize))
  }

  function Overwrite(mem: seq<byte>, a: nat, bytes: seq<byte>): (mem': seq<byte>)
    requires a + |bytes| <= |mem|
    ensures |mem'| == |mem|
  {
    mem[..a] + bytes + mem[a + |bytes|..]
  }

  /** *(void**)a = v */
  function Store(mem: seq<byte>, a: nat, v: nat): (mem': seq<byte>)
    requires a + PointerSize <= |mem|
    ensures |mem'| == |mem|
  {
    Overwrite(mem, a, Encode(v, PointerSize))
  }

  lemma OverwriteBytes(mem: seq<byte>, a: nat, bytes: seq<byte>)
    requires a + |bytes| <= |mem|
    ensures Bytes(Overwrite(mem, a, bytes), a, |bytes|) == bytes
  {
  }

  lemma SameBytes(mem: seq<byte>, mem': seq<byte>, c: nat, n: nat)
    requires c + n <= |mem| && |mem'| == |mem|
    requires forall i :: c <= i < c + n ==> mem'[i] == mem[i]
    ensures Bytes(mem', c, n) == Bytes(mem, c, n)
  {
  }

  lemma OverwriteElsewhere(mem: seq<byte>, a: nat, bytes: seq<byte>, c: nat, n: nat)
    requires a + |bytes| <= |mem| && c + n <= |mem|
    requires c + n <= a || a + |bytes| <= c
    ensures Bytes(Overwrite(mem, a, bytes), c, n) == Bytes(mem, c, n)
  {
    var mem' := Overwrite(mem, a, bytes);
    SameBytes(mem, mem', c, n);
  }

  /** What is stored is what is loaded back. */
  lemma LoadStore(mem: seq<byte>, a: nat, v: nat)
    requires a + PointerSize <= |mem| && v < AddressSpace
    ensures Load(Store(mem, a, v), a) == v
  {
    PointerFits();
    DecodeEncode(v, PointerSize);
    OverwriteBytes(mem, a, Encode(v, PointerSize));
  }

  lemma LoadStoreElsewhere(mem: seq<byte>, a: nat, v: nat, c: nat)
    requires a + PointerSize <= |mem| && c + PointerSize <= |mem|
    requires c + PointerSize <= a || a + PointerSize <= c
    ensures Load(Store(mem, a, v), c) == Load(mem, c)
  {
    OverwriteElsewhere(mem, a, Encode(v, PointerSize), c, PointerSize);
  }

  function Zeros(n: nat): (r: seq<byte>)
    ensures |r| == n && forall i :: 0 <= i < n ==> r[i] == 0
  {
    seq(n, _ => 0)
  }
}
