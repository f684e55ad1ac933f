/** Strings of bits, lowest first, and the numbers they stand for. */
module BitString {
  import opened Wire

  type Bits = seq<bool>

  function Zeros(n: nat): (z: Bits)
    ensures |z| == n && forall i :: 0 <= i < n ==> !z[i]
  {
    seq(n, _ => false)
  }

  /** The n low bits of v, and back. */
  function BitsOf(v: nat, n: nat): (b: Bits)
    ensures |b| == n
    decreases n
  {
    if n == 0 then [] else [v % 2 == 1] + BitsOf(v / 2, n - 1)
  }

  function NumberOf(b: Bits): nat {
    if b == [] then 0 else (if b[0] then 1 else 0) + 2 * NumberOf(b[1..])
  }

  lemma {:induction false} NumberBack(b: Bits)
    ensures BitsOf(NumberOf(b), |b|) == b
  {
    if b != [] { NumberBack(b[1..]); }
  }

  function Pow2(n: nat): nat { if n == 0 then 1 else 2 * Pow2(n - 1) }

  lemma {:induction false} NumberFits(b: Bits)
    ensures NumberOf(b) < Pow2(|b|)
  {
    if b != [] { NumberFits(b[1..]); }
  }

  lemma {:induction false} BitsBack(v: nat, n: nat)
    requires v < Pow2(n)
    ensures NumberOf(BitsOf(v, n)) == v
    decreases n
  {
    if n > 0 {
      BitsBack(v / 2, n - 1);
      assert BitsOf(v, n)[1..] == BitsOf(v / 2, n - 1);
    }
  }

  lemma {:induction false} BitsWider(v: nat, n: nat, m: nat)
    requires v < Pow2(n)
    ensures BitsOf(v, n + m) == BitsOf(v, n) + Zeros(m)
    decreases n + m
  {
    if n > 0 {
      BitsWider(v / 2, n - 1, m);
    } else if m > 0 {
      BitsWider(0, 0, m - 1);
      assert BitsOf(0, m) == [false] + Zeros(m - 1) == Zeros(m);
    }
  }

  lemma Powers()
    ensures Pow2(8) == 256 && Pow2(32) == 0x1_0000_0000
  {
    assert Pow2(4) == 16 && Pow2(8) == 16 * Pow2(4) && Pow2(12) == 16 * Pow2(8) && Pow2(16) == 16 * Pow2(12);
    assert Pow2(20) == 16 * Pow2(16) && Pow2(24) == 16 * Pow2(20) && Pow2(28) == 16 * Pow2(24);
    assert Pow2(32) == 16 * Pow2(28);
  }

  lemma NumberCons(x: bool, rest: Bits)
    ensures NumberOf([x] + rest) == (if x then 1 else 0) + 2 * NumberOf(rest)
  {
    assert ([x] + rest)[1..] == rest;
  }

  lemma NumberNibble(a: bool, b: bool, c: bool, d: bool, rest: Bits)
    ensures NumberOf([a, b, c, d] + rest)
            == (if a then 1 else 0) + (if b then 2 else 0) + (if c then 4 else 0) + (if d then 8 else 0)
               + 16 * NumberOf(rest)
  {
    NumberCons(d, rest);
    NumberCons(c, [d] + rest);
    NumberCons(b, [c] + ([d] + rest));
    NumberCons(a, [b] + ([c] + ([d] + rest)));
    assert [a, b, c, d] + rest == [a] + ([b] + ([c] + ([d] + rest)));
  }

  lemma NumberInjective(a: Bits, b: Bits)
    requires |a| == |b| && NumberOf(a) == NumberOf(b)
    ensures a == b
  {
    NumberBack(a);
    NumberBack(b);
  }

  lemma {:induction false} NumberConcat(a: Bits, b: Bits)
    ensures NumberOf(a + b) == NumberOf(a) + Pow2(|a|) * NumberOf(b)
    decreases a
  {
    if a == [] {
      assert a + b == b;
    } else {
      NumberConcat(a[1..], b);
      NumberCons(a[0], a[1..] + b);
      assert a + b == [a[0]] + (a[1..] + b);
      assert Pow2(|a|) * NumberOf(b) == 2 * (Pow2(|a| - 1) * NumberOf(b));
    }
  }

  // ---- bytes -------------------------------------------------------------------------------------------

  /** The bits of a byte string, first byte lowest. */
  function AllBits(bs: Bytes): (b: Bits)
    ensures |b| == 8 * |bs|
  {
    if bs == [] then [] else BitsOf(bs[0], 8) + AllBits(bs[1..])
  }

  lemma {:induction false} AllBitsInjective(a: Bytes, b: Bytes)
    requires |a| == |b| && AllBits(a) == AllBits(b)
    ensures a == b
  {
    if a != [] {
      assert BitsOf(a[0], 8) == AllBits(a)[..8] && BitsOf(b[0], 8) == AllBits(b)[..8];
      assert AllBits(a[1..]) == AllBits(a)[8..] && AllBits(b[1..]) == AllBits(b)[8..];
      Powers();
      BitsBack(a[0], 8);
      BitsBack(b[0], 8);
      AllBitsInjective(a[1..], b[1..]);
    }
  }

  /** They are the bits of its little-endian value. */
  lemma {:induction false} AllBitsValue(bs: Bytes)
    ensures NumberOf(AllBits(bs)) == Value(bs)
  {
    if bs != [] {
      AllBitsValue(bs[1..]);
      Powers();
      BitsBack(bs[0], 8);
      NumberConcat(BitsOf(bs[0], 8), AllBits(bs[1..]));
    }
  }
}
