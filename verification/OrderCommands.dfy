/** The byte form of order commands: clients' encoding and the engine's decoding are inverse to each other. */
module OrderCommands {
  import opened Common
  import opened Wire
  import opened OrderTypes

  function OpOf(b: Body): Byte { match b case New(_, _, _) => 1 case Cancel(_) => 2 case Amend(_, _, _) => 3 }

  function BodyBytes(b: Body): Bytes {
    match b
    case New(s, p, qty) => [if s.Bid? then 0 else 1] + Little(p, 8) + Little(qty, 8)
    case Cancel(id) => Little(id, 8)
    case Amend(id, p, qty) => Little(id, 8) + Little(p, 8) + Little(qty, 8)
  }

  function Encode(clientId: nat, seqNo: nat, b: Body): Bytes {
    Little(clientId, 8) + Little(seqNo, 8) + [OpOf(b)] + BodyBytes(b)
  }

  predicate Word(v: nat) { v < Pow256(8) }

  /** Fields fit their 64 bits, and an order has a price and a quantity. */
  predicate Tradable(b: Body) {
    match b
    case New(_, p, qty) => 0 < p && Word(p) && 0 < qty && Word(qty)
    case Cancel(id) => Word(id)
    case Amend(id, p, qty) => Word(id) && 0 < p && Word(p) && 0 < qty && Word(qty)
  }

  lemma WordReadsBack(v: nat)
    requires Word(v)
    ensures Value(Little(v, 8)) == v
  {
    ValueOfLittle(v, 8);
  }

  /** Where the parts of a command lie. */
  lemma Parts(a: Bytes, b: Bytes, op: Byte, rest: Bytes)
    requires |a| == |b| == 8
    ensures var cmd := a + b + [op] + rest;
            cmd[..8] == a && cmd[8..16] == b && cmd[16] == op && cmd[17..] == rest
  {}

  lemma WholeOf(cmd: Bytes)
    requires |cmd| >= 17
    ensures cmd == cmd[..8] + cmd[8..16] + [cmd[16]] + cmd[17..]
  {}

  lemma HeaderReadsBack(clientId: nat, seqNo: nat, b: Body)
    requires Word(clientId) && Word(seqNo)
    ensures DecodeHeader(Encode(clientId, seqNo, b)) == Some(Header(clientId, seqNo, OpOf(b)))
    ensures Encode(clientId, seqNo, b)[17..] == BodyBytes(b)
  {
    var cmd := Encode(clientId, seqNo, b);
    Parts(Little(clientId, 8), Little(seqNo, 8), OpOf(b), BodyBytes(b));
    WordReadsBack(clientId);
    WordReadsBack(seqNo);
  }

  /** The fields of a body are where the decoder looks for them. */
  lemma FieldsOf(cmd: Bytes, b: Body)
    requires |cmd| >= 17 && cmd[17..] == BodyBytes(b)
    ensures match b
            case New(s, p, qty) =>
              && |cmd| == 34 && cmd[17] == (if s.Bid? then 0 else 1)
              && cmd[18..26] == Little(p, 8) && cmd[26..34] == Little(qty, 8)
            case Cancel(id) => |cmd| == 25 && cmd[17..25] == Little(id, 8)
            case Amend(id, p, qty) =>
              |cmd| == 41 && cmd[17..25] == Little(id, 8) && cmd[25..33] == Little(p, 8)
                  && cmd[33..41] == Little(qty, 8)
  {
    match b
    case New(s, p, qty) => NewFields(cmd, if s.Bid? then 0 else 1, Little(p, 8), Little(qty, 8));
    case Cancel(id) => assert cmd[17..25] == cmd[17..];
    case Amend(id, p, qty) => AmendFields(cmd, Little(id, 8), Little(p, 8), Little(qty, 8));
  }

  lemma NewFields(cmd: Bytes, side: Byte, x: Bytes, y: Bytes)
    requires |cmd| >= 17 && |x| == |y| == 8 && cmd[17..] == [side] + x + y
    ensures |cmd| == 34 && cmd[17] == side && cmd[18..26] == x && cmd[26..34] == y
  {
    assert cmd[18..26] == cmd[17..][1..9] && cmd[26..34] == cmd[17..][9..17];
  }

  lemma AmendFields(cmd: Bytes, x: Bytes, y: Bytes, z: Bytes)
    requires |cmd| >= 17 && |x| == |y| == |z| == 8 && cmd[17..] == x + y + z
    ensures |cmd| == 41 && cmd[17..25] == x && cmd[25..33] == y && cmd[33..41] == z
  {
    assert cmd[17..25] == cmd[17..][..8] && cmd[25..33] == cmd[17..][8..16] && cmd[33..41] == cmd[17..][16..24];
  }

  /** Every command a client can build is read as what it says. */
  lemma CommandReadsBack(clientId: nat, seqNo: nat, b: Body)
    requires Word(clientId) && Word(seqNo) && Tradable(b)
    ensures var cmd := Encode(clientId, seqNo, b);
            DecodeHeader(cmd) == Some(Header(clientId, seqNo, OpOf(b))) && DecodeBody(cmd) == Some(b)
  {
    var cmd := Encode(clientId, seqNo, b);
    HeaderReadsBack(clientId, seqNo, b);
    FieldsOf(cmd, b);
    match b
    case New(s, p, qty) =>
      WordReadsBack(p);
      WordReadsBack(qty);
    case Cancel(id) => WordReadsBack(id);
    case Amend(id, p, qty) =>
      WordReadsBack(id);
      WordReadsBack(p);
      WordReadsBack(qty);
  }

  lemma WordBack(bs: Bytes)
    requires |bs| == 8
    ensures Word(Value(bs)) && Little(Value(bs), 8) == bs
  {
    LittleOfValue(bs);
  }

  lemma RestOf(cmd: Bytes)
    requires |cmd| >= 17
    ensures |cmd| == 34 ==> cmd[17..] == [cmd[17]] + cmd[18..26] + cmd[26..34]
    ensures |cmd| == 25 ==> cmd[17..] == cmd[17..25]
    ensures |cmd| == 41 ==> cmd[17..] == cmd[17..25] + cmd[25..33] + cmd[33..41]
  {}

  lemma BodyBack(cmd: Bytes)
    requires DecodeHeader(cmd).Some? && DecodeBody(cmd).Some?
    ensures var b := DecodeBody(cmd).value; Tradable(b) && OpOf(b) == cmd[16] && BodyBytes(b) == cmd[17..]
  {
    RestOf(cmd);
    match DecodeBody(cmd).value
    case New(_, _, _) =>
      WordBack(cmd[18..26]);
      WordBack(cmd[26..34]);
    case Cancel(_) =>
      WordBack(cmd[17..25]);
    case Amend(_, _, _) =>
      WordBack(cmd[17..25]);
      WordBack(cmd[25..33]);
      WordBack(cmd[33..41]);
  }

  /** Whatever the engine accepts is the encoding of what it read: nothing truncated, nothing trailing, no
      unknown side or operation, no zero price or quantity. */
  lemma DecodeExact(cmd: Bytes)
    requires DecodeHeader(cmd).Some? && DecodeBody(cmd).Some?
    ensures var h, b := DecodeHeader(cmd).value, DecodeBody(cmd).value;
            Word(h.clientId) && Word(h.seqNo) && Tradable(b) && h.op == OpOf(b) && cmd == Encode(h.clientId, h.seqNo, b)
  {
    BodyBack(cmd);
    WordBack(cmd[..8]);
    WordBack(cmd[8..16]);
    WholeOf(cmd);
  }
}
