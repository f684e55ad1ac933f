/** Little-endian integers as byte strings, the format every codec here shares. */
module Wire {
  import opened Common

  type Bytes = seq<Byte>

  /** The value of a little-endian byte string. */
  function Value(bs: Bytes): nat {
    if bs == [] then 0 else bs[0] + 256 * Value(bs[1..])
  }

  function Pow256(n: nat): nat { if n == 0 then 1 else 256 * Pow256(n - 1) }

  /** The n low-order bytes of v, least significant first; higher bytes are cut off. */
  function Little(v: nat, n: nat): (bs: Bytes)
    ensures |bs| == n
  {
    if n == 0 then [] else [v % 256] + Little(v / 256, n - 1)
  }

  lemma {:induction false} ValueOfLittle(v: nat, n: nat)
    requires v < Pow256(n)
    ensures Value(Little(v, n)) == v
    decreases n
  {
    if n > 0 {
      ValueOfLittle(v / 256, n - 1);
      assert Little(v, n)[1..] == Little(v / 256, n - 1);
    }
  }

  lemma {:induction false} LittleOfValue(bs: Bytes)
    ensures Value(bs) < Pow256(|bs|) && Little(Value(bs), |bs|) == bs
  {
    if bs != [] { LittleOfValue(bs[1..]); }
  }

  lemma Pow256Values()
    ensures Pow256(4) == 0x1_0000_0000 && Pow256(8) == 0x1_0000_0000_0000_0000
  {
    assert Pow256(2) == 65536;
    assert Pow256(4) == 65536 * Pow256(2);
    assert Pow256(6) == 65536 * Pow256(4);
    assert Pow256(8) == 65536 * Pow256(6);
  }
}
