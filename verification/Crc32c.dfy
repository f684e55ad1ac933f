/** CRC32C, reflected polynomial 0x82F63B78: the table-driven loop against the bit-serial definition,
    chaining, and the changes it is sure to detect. A 32-bit word is its bits, lowest first. */
module Crc32c {
  import opened Common
  import opened Wire
  import opened BitString

  type Word = w: Bits | |w| == 32 witness Zeros(32)

  function Xor(a: Bits, b: Bits): (c: Bits)
    requires |a| == |b|
    ensures |c| == |a| && forall i :: 0 <= i < |a| ==> c[i] == (a[i] != b[i])
  {
    seq(|a|, i requires 0 <= i < |a| => a[i] != b[i])
  }

  function Not(a: Bits): (c: Bits)
    ensures |c| == |a| && forall i :: 0 <= i < |a| ==> c[i] == !a[i]
  {
    seq(|a|, i requires 0 <= i < |a| => !a[i])
  }

  /** 0x82F63B78, a nibble at a time from the low end. */
  function Poly(): Word {
    [false, false, false, true] + ([true, true, true, false] + ([true, true, false, true] + ([true, true, false, false]
    + ([false, true, true, false] + ([true, true, true, true] + ([false, true, false, false]
        + [false, false, false, true]))))))
  }

  /** c >> n */
  function Down(c: Bits, n: nat): (r: Bits)
    requires n <= |c|
    ensures |r| == |c|
  {
    c[n..] + Zeros(n)
  }

  /** One bit of the division. */
  function Shift(c: Word): Word { if c[0] then Xor(Poly(), Down(c, 1)) else Down(c, 1) }

  function Shifts(n: nat, c: Word): Word { if n == 0 then c else Shifts(n - 1, Shift(c)) }

  function WordOf(b: Byte): Word { BitsOf(b, 8) + Zeros(24) }

  /** Bytes enter at the low end, one after the other. */
  function Run(c: Word, bs: Bytes): Word
    decreases bs
  {
    if bs == [] then c else Run(Shifts(8, Xor(c, WordOf(bs[0]))), bs[1..])
  }

  /** The checksum of bs; `crc` continues an earlier one, all zeros start afresh. */
  function Crc(bs: Bytes, crc: Word): Word { Not(Run(Not(crc), bs)) }

  // ---- the polynomial --------------------------------------------------------------------------------

  /** The bits are those of the reflected polynomial. */
  lemma PolyValue()
    ensures NumberOf(Poly()) == 0x82F6_3B78
  {
    var p7 := [false, false, false, true];
    NumberNibble(false, false, false, true, []);
    assert p7 + [] == p7;
    var p6 := [false, true, false, false] + p7;
    NumberNibble(false, true, false, false, p7);
    var p5 := [true, true, true, true] + p6;
    NumberNibble(true, true, true, true, p6);
    var p4 := [false, true, true, false] + p5;
    NumberNibble(false, true, true, false, p5);
    var p3 := [true, true, false, false] + p4;
    NumberNibble(true, true, false, false, p4);
    var p2 := [true, true, false, true] + p3;
    NumberNibble(true, true, false, true, p3);
    NumberNibble(true, true, true, false, p2);
    NumberNibble(false, false, false, true, [true, true, true, false] + p2);
  }

  // ---- the register is linear and invertible --------------------------------------------------------------

  lemma ShiftLinear(a: Word, b: Word)
    ensures Shift(Xor(a, b)) == Xor(Shift(a), Shift(b))
  {
    forall i | 0 <= i < 32 ensures Shift(Xor(a, b))[i] == Xor(Shift(a), Shift(b))[i] {
      assert i < 31 ==> Down(a, 1)[i] == a[i + 1] && Down(b, 1)[i] == b[i + 1];
      assert i < 31 ==> Down(Xor(a, b), 1)[i] == Xor(a, b)[i + 1];
    }
  }

  lemma {:induction false} ShiftsLinear(n: nat, a: Word, b: Word)
    ensures Shifts(n, Xor(a, b)) == Xor(Shifts(n, a), Shifts(n, b))
    decreases n
  {
    if n > 0 {
      ShiftLinear(a, b);
      ShiftsLinear(n - 1, Shift(a), Shift(b));
    }
  }

  lemma ShiftInjective(a: Word, b: Word)
    requires Shift(a) == Shift(b)
    ensures a == b
  {
    assert Poly()[31];
    assert Shift(a)[31] == a[0] && Shift(b)[31] == b[0];
    forall i | 0 <= i < 32 ensures a[i] == b[i] {
      if i > 0 {
        assert Down(a, 1)[i - 1] == a[i] && Down(b, 1)[i - 1] == b[i];
        assert Shift(a)[i - 1] == Shift(b)[i - 1];
      }
    }
  }

  lemma {:induction false} ShiftsInjective(n: nat, a: Word, b: Word)
    requires Shifts(n, a) == Shifts(n, b)
    ensures a == b
    decreases n
  {
    if n > 0 {
      ShiftsInjective(n - 1, Shift(a), Shift(b));
      ShiftInjective(a, b);
    }
  }

  /** While zeros leave, the rest just moves down. */
  lemma {:induction false} ShiftOut(n: nat, c: Word)
    requires n <= 32 && forall i :: 0 <= i < n ==> !c[i]
    ensures Shifts(n, c) == Down(c, n)
    decreases n
  {
    if n == 0 {
      assert Down(c, 0) == c;
    } else {
      var d := Down(c, 1);
      assert Shift(c) == d;
      assert forall i :: 0 <= i < n - 1 ==> d[i] == c[i + 1];
      ShiftOut(n - 1, d);
      assert Down(d, n - 1) == Down(c, n) by {
        forall i | 0 <= i < 32 ensures Down(d, n - 1)[i] == Down(c, n)[i] {
          if i + n < 32 { assert Down(d, n - 1)[i] == d[i + n - 1] == c[i + n] == Down(c, n)[i]; }
        }
      }
    }
  }

  // ---- the table --------------------------------------------------------------------------------------------

  function LowByte(c: Word): Word { c[..8] + Zeros(24) }

  /** One table lookup is eight bit steps. */
  lemma TableStep(c: Word)
    ensures Xor(Shifts(8, LowByte(c)), Down(c, 8)) == Shifts(8, c)
  {
    var high: Word := Zeros(8) + c[8..];
    assert c == Xor(LowByte(c), high);
    ShiftsLinear(8, LowByte(c), high);
    ShiftOut(8, high);
    assert Down(high, 8) == Down(c, 8);
  }

  ghost predicate IsTable(t: seq<Word>) {
    |t| == 256 && forall i :: 0 <= i < 256 ==> t[i] == Shifts(8, BitsOf(i, 32))
  }

  method EightSteps(start: Word) returns (c: Word)
    ensures c == Shifts(8, start)
  {
    c := start;
    for k := 0 to 8
      invariant Shifts(8 - k, c) == Shifts(8, start)
    {
      c := if c[0] then Xor(Poly(), Down(c, 1)) else Down(c, 1);
    }
  }

  method MakeTable() returns (t: seq<Word>)
    ensures IsTable(t)
  {
    t := [];
    for i := 0 to 256
      invariant |t| == i && forall j :: 0 <= j < i ==> t[j] == Shifts(8, BitsOf(j, 32))
    {
      var c := EightSteps(BitsOf(i, 32));
      t := t + [c];
    }
  }

  /** The entry a word selects by its low byte. */
  lemma EntryOf(t: seq<Word>, c: Word)
    requires IsTable(t)
    ensures NumberOf(c[..8]) < 256 && t[NumberOf(c[..8])] == Shifts(8, LowByte(c))
  {
    LowNumber(c);
  }

  lemma LowNumber(c: Word)
    ensures NumberOf(c[..8]) < 256 && BitsOf(NumberOf(c[..8]), 32) == LowByte(c)
  {
    Powers();
    NumberFits(c[..8]);
    NumberBack(c[..8]);
    BitsWider(NumberOf(c[..8]), 8, 24);
  }

  /** The table-driven loop computes the bit-serial checksum. */
  method Checksum(t: seq<Word>, data: Bytes, start: Word) returns (crc: Word)
    requires IsTable(t)
    ensures crc == Crc(data, start)
  {
    crc := Not(start);
    for i := 0 to |data|
      invariant Run(crc, data[i..]) == Run(Not(start), data)
    {
      var c: Word := Xor(crc, WordOf(data[i]));
      EntryOf(t, c);
      TableStep(c);
      assert data[i..][0] == data[i] && data[i..][1..] == data[i + 1..];
      HighUntouched(crc, data[i]);
      crc := Xor(t[NumberOf(c[..8])], Down(crc, 8));
    }
    assert data[|data|..] == [];
    crc := Not(crc);
  }

  lemma HighUntouched(crc: Word, b: Byte)
    ensures Down(Xor(crc, WordOf(b)), 8) == Down(crc, 8)
  {
    var c := Xor(crc, WordOf(b));
    assert forall i :: 8 <= i < 32 ==> c[i] == crc[i];
  }

  // ---- chaining -------------------------------------------------------------------------------------------------

  lemma {:induction false} RunConcat(c: Word, a: Bytes, b: Bytes)
    ensures Run(c, a + b) == Run(Run(c, a), b)
    decreases a
  {
    if a == [] {
      assert a + b == b;
    } else {
      assert (a + b)[1..] == a[1..] + b;
      RunConcat(Shifts(8, Xor(c, WordOf(a[0]))), a[1..], b);
    }
  }

  lemma NotNot(x: Word)
    ensures Not(Not(x)) == x
  {}

  /** A checksum taken in pieces is the checksum of the whole. */
  lemma Chaining(a: Bytes, b: Bytes, crc: Word)
    ensures Crc(a + b, crc) == Crc(b, Crc(a, crc))
  {
    RunConcat(Not(crc), a, b);
    NotNot(Run(Not(crc), a));
  }

  // ---- what it detects --------------------------------------------------------------------------------------------

  lemma XorCancels(c: Word, d: Word, w: Word)
    requires Xor(c, w) == Xor(d, w)
    ensures c == d
  {
    forall i | 0 <= i < 32 ensures c[i] == d[i] {
      assert Xor(c, w)[i] == Xor(d, w)[i];
    }
  }

  lemma {:induction false} RunInjective(c: Word, d: Word, bs: Bytes)
    requires Run(c, bs) == Run(d, bs)
    ensures c == d
    decreases bs
  {
    if bs != [] {
      var w := WordOf(bs[0]);
      RunInjective(Shifts(8, Xor(c, w)), Shifts(8, Xor(d, w)), bs[1..]);
      ShiftsInjective(8, Xor(c, w), Xor(d, w));
      XorCancels(c, d, w);
    }
  }

  /** Up to four bytes as the low bits of one word. */
  function Packed(bs: Bytes): Word
    requires |bs| <= 4
  {
    AllBits(bs) + Zeros(32 - 8 * |bs|)
  }

  lemma {:induction false} ShiftsSum(n: nat, m: nat, c: Word)
    ensures Shifts(n + m, c) == Shifts(m, Shifts(n, c))
    decreases n
  {
    if n > 0 { ShiftsSum(n - 1, m, Shift(c)); }
  }

  lemma XorAssociative(a: Word, b: Word, c: Word)
    ensures Xor(Xor(a, b), c) == Xor(a, Xor(b, c))
  {}

  /** The word of the later bytes, one byte further up. */
  function Above(bs: Bytes): Word
    requires 1 <= |bs| <= 4
  {
    Zeros(8) + AllBits(bs[1..]) + Zeros(32 - 8 * |bs|)
  }

  lemma PackedSplit(bs: Bytes)
    requires 1 <= |bs| <= 4
    ensures Packed(bs) == Xor(WordOf(bs[0]), Above(bs))
    ensures Down(Above(bs), 8) == Packed(bs[1..])
  {
    var low, rest, n := BitsOf(bs[0], 8), AllBits(bs[1..]), 8 * |bs|;
    SplitAt(low, rest, 32 - n);
    assert Down(Above(bs), 8) == Packed(bs[1..]) by { AboveDown(rest, 32 - n); }
  }

  lemma SplitAt(low: Bits, rest: Bits, pad: nat)
    requires |low| == 8 && 8 + |rest| + pad == 32
    ensures low + rest + Zeros(pad) == Xor(low + Zeros(24), Zeros(8) + rest + Zeros(pad))
  {
    var a, b, c := low + rest + Zeros(pad), low + Zeros(24), Zeros(8) + rest + Zeros(pad);
    forall i | 0 <= i < 32 ensures a[i] == (b[i] != c[i]) {
      if i < 8 { assert a[i] == low[i] == b[i] && !c[i]; } else { assert !b[i] && a[i] == c[i]; }
    }
  }

  lemma AboveDown(rest: Bits, pad: nat)
    requires 8 + |rest| + pad == 32
    ensures Down(Zeros(8) + rest + Zeros(pad), 8) == rest + Zeros(pad + 8)
  {
    var a := Down(Zeros(8) + rest + Zeros(pad), 8);
    assert (Zeros(8) + rest + Zeros(pad))[8..] == rest + Zeros(pad);
    forall i | 0 <= i < 32 ensures a[i] == (rest + Zeros(pad + 8))[i] {}
  }

  lemma FeedFirst(c: Word, bs: Bytes)
    requires 1 <= |bs| <= 4
    ensures Shifts(8, Xor(c, Packed(bs))) == Xor(Shifts(8, Xor(c, WordOf(bs[0]))), Packed(bs[1..]))
  {
    var w := WordOf(bs[0]);
    PackedSplit(bs);
    XorAssociative(c, w, Above(bs));
    ShiftsLinear(8, Xor(c, w), Above(bs));
    ShiftOut(8, Above(bs));
  }

  /** Feeding up to four bytes one by one is feeding their word at once. */
  lemma {:induction false} RunPacked(c: Word, bs: Bytes)
    requires |bs| <= 4
    ensures Run(c, bs) == Shifts(8 * |bs|, Xor(c, Packed(bs)))
    decreases bs
  {
    if bs == [] {
      assert Xor(c, Packed(bs)) == c;
    } else {
      RunPacked(Shifts(8, Xor(c, WordOf(bs[0]))), bs[1..]);
      PackedStep(c, bs);
    }
  }

  lemma PackedStep(c: Word, bs: Bytes)
    requires 1 <= |bs| <= 4
    ensures Shifts(8 * |bs[1..]|, Xor(Shifts(8, Xor(c, WordOf(bs[0]))), Packed(bs[1..])))
            == Shifts(8 * |bs|, Xor(c, Packed(bs)))
  {
    FeedFirst(c, bs);
    ShiftsSum(8, 8 * |bs[1..]|, Xor(c, Packed(bs)));
  }

  lemma SameWindow(c: Word, x: Bytes, y: Bytes)
    requires |x| == |y| <= 4 && Run(c, x) == Run(c, y)
    ensures x == y
  {
    RunPacked(c, x);
    RunPacked(c, y);
    ShiftsInjective(8 * |x|, Xor(c, Packed(x)), Xor(c, Packed(y)));
    forall i | 0 <= i < 32 ensures Packed(x)[i] == Packed(y)[i] {
      assert Xor(c, Packed(x))[i] == Xor(c, Packed(y))[i];
    }
    assert AllBits(x) == Packed(x)[..8 * |x|] && AllBits(y) == Packed(y)[..8 * |x|];
    AllBitsInjective(x, y);
  }

  /** Any change confined to four consecutive bytes, in a string of any length, changes the checksum. */
  lemma BurstDetected(before: Bytes, x: Bytes, y: Bytes, after: Bytes, crc: Word)
    requires |x| == |y| <= 4 && Crc(before + x + after, crc) == Crc(before + y + after, crc)
    ensures x == y
  {
    var c := Run(Not(crc), before);
    RunConcat(Not(crc), before + x, after);
    RunConcat(Not(crc), before, x);
    RunConcat(Not(crc), before + y, after);
    RunConcat(Not(crc), before, y);
    NotNot(Run(Run(c, x), after));
    NotNot(Run(Run(c, y), after));
    RunInjective(Run(c, x), Run(c, y), after);
    SameWindow(c, x, y);
  }

  lemma Complement(w: Word)
    ensures Xor(w, Not(w)) == Not(Zeros(32))
  {}

  /** A string followed by its own checksum, low byte first, always has the same checksum. */
  lemma Residue(body: Bytes, stored: Bytes, crc: Word)
    requires |stored| == 4 && Value(stored) == NumberOf(Crc(body, crc))
    ensures Crc(body + stored, crc) == Not(Shifts(32, Not(Zeros(32))))
  {
    var w := Run(Not(crc), body);
    AllBitsValue(stored);
    NumberInjective(AllBits(stored), Not(w));
    assert Packed(stored) == Not(w);
    RunConcat(Not(crc), body, stored);
    RunPacked(w, stored);
    Complement(w);
  }

  /** The same of one string whose last four bytes hold the checksum of the rest. */
  lemma SelfChecked(rec: Bytes, n: nat, crc: Word)
    requires |rec| == n + 4 && Value(rec[n..]) == NumberOf(Crc(rec[..n], crc))
    ensures Crc(rec, crc) == Not(Shifts(32, Not(Zeros(32))))
  {
    Residue(rec[..n], rec[n..], crc);
    assert rec == rec[..n] + rec[n..];
  }
}
