/** The replicated key-value store: its command format, and the store behind its session table. */
module KvStore {
  import opened Common
  import opened Wire
  import opened KvOps
  import opened Sessions

  datatype Command = Command(id: Ident, call: Call)

  predicate NeedsArg(op: Op) { op.Put? || op.Cas? || op.Append? }

  function OpByte(op: Op): Byte {
    match op case Put => 1 case Get => 2 case Delete => 3 case Cas => 4 case Append => 5
  }

  function OpOf(b: Byte): Op
    requires 1 <= b <= 5
  {
    if b == 1 then Put else if b == 2 then Get else if b == 3 then Delete else if b == 4 then Cas else Append
  }

  // ---- strings with a length prefix -----------------------------------------------------------------

  function Str(s: Bytes): Bytes { Little(|s|, 4) + s }

  /** A string and what follows it. */
  function ReadStr(bs: Bytes): Option<(Bytes, Bytes)> {
    if |bs| < 4 || Value(bs[..4]) > |bs| - 4 then None
    else Some((bs[4..4 + Value(bs[..4])], bs[4 + Value(bs[..4])..]))
  }

  lemma StrReadsBack(s: Bytes, rest: Bytes)
    requires |s| < Pow256(4)
    ensures ReadStr(Str(s) + rest) == Some((s, rest))
  {
    var bs := Str(s) + rest;
    assert bs[..4] == Little(|s|, 4);
    ValueOfLittle(|s|, 4);
    assert bs[4..4 + |s|] == s && bs[4 + |s|..] == rest;
  }

  // ---- commands -----------------------------------------------------------------------------------------

  /** Arguments present for this operation, in order. */
  function Args(c: Call): Bytes {
    (if NeedsArg(c.op) then Str(c.arg) else []) + (if c.op.Cas? then Str(c.arg2) else [])
  }

  function Encode(id: Ident, c: Call): Bytes {
    Little(id.client, 8) + Little(id.seqNo, 8) + [OpByte(c.op)] + (Str(c.key) + Args(c))
  }

  /** The operation's strings; the whole input must be used up. */
  function ReadCall(op: Op, bs: Bytes): Option<Call> {
    var key := ReadStr(bs);
    if key.None? then None
    else if !NeedsArg(op) then (if key.value.1 == [] then Some(Call(op, key.value.0, [], [])) else None)
    else
      var arg := ReadStr(key.value.1);
      if arg.None? then None
      else if !op.Cas? then (if arg.value.1 == [] then Some(Call(op, key.value.0, arg.value.0, [])) else None)
      else
        var arg2 := ReadStr(arg.value.1);
        if arg2.None? || arg2.value.1 != [] then None
        else Some(Call(op, key.value.0, arg.value.0, arg2.value.0))
  }

  function Decode(cmd: Bytes): Option<Command> {
    if |cmd| < 17 || cmd[16] < 1 || cmd[16] > 5 then None
    else
      var call := ReadCall(OpOf(cmd[16]), cmd[17..]);
      if call.None? then None else Some(Command(Ident(Value(cmd[..8]), Value(cmd[8..16])), call.value))
  }

  ghost predicate Fits(id: Ident, c: Call) {
    && id.client < Pow256(8) && id.seqNo < Pow256(8)
    && |c.key| < Pow256(4) && |c.arg| < Pow256(4) && |c.arg2| < Pow256(4)
    && (!NeedsArg(c.op) ==> c.arg == []) && (!c.op.Cas? ==> c.arg2 == [])
  }

  lemma CallReadsBack(c: Call)
    requires |c.key| < Pow256(4) && |c.arg| < Pow256(4) && |c.arg2| < Pow256(4)
    requires (!NeedsArg(c.op) ==> c.arg == []) && (!c.op.Cas? ==> c.arg2 == [])
    ensures ReadCall(c.op, Str(c.key) + Args(c)) == Some(c)
  {
    StrReadsBack(c.key, Args(c));
    if c.op.Cas? {
      StrReadsBack(c.arg, Str(c.arg2));
      StrReadsBack(c.arg2, []);
      assert Str(c.arg2) + [] == Str(c.arg2);
    } else if NeedsArg(c.op) {
      StrReadsBack(c.arg, []);
      assert Args(c) == Str(c.arg) + [];
    } else {
      assert Args(c) == [];
    }
  }

  /** Where the parts of a command lie. */
  lemma Parts(a: Bytes, b: Bytes, op: Byte, rest: Bytes)
    requires |a| == |b| == 8
    ensures var cmd := a + b + [op] + rest;
            cmd[..8] == a && cmd[8..16] == b && cmd[16] == op && cmd[17..] == rest
  {}

  /** Every command the client builds reads back as itself. */
  lemma DecodeEncode(id: Ident, c: Call)
    requires Fits(id, c)
    ensures Decode(Encode(id, c)) == Some(Command(id, c))
  {
    Parts(Little(id.client, 8), Little(id.seqNo, 8), OpByte(c.op), Str(c.key) + Args(c));
    ValueOfLittle(id.client, 8);
    ValueOfLittle(id.seqNo, 8);
    CallReadsBack(c);
  }

  /** What reads as a string is that string's encoding. */
  lemma StrBack(bs: Bytes)
    requires ReadStr(bs).Some?
    ensures |ReadStr(bs).value.0| < Pow256(4) && bs == Str(ReadStr(bs).value.0) + ReadStr(bs).value.1
  {
    LittleOfValue(bs[..4]);
  }

  lemma CallBack(op: Op, bs: Bytes)
    requires ReadCall(op, bs).Some?
    ensures var c := ReadCall(op, bs).value;
            && c.op == op && |c.key| < Pow256(4) && |c.arg| < Pow256(4) && |c.arg2| < Pow256(4)
            && (!NeedsArg(op) ==> c.arg == []) && (!op.Cas? ==> c.arg2 == [])
            && bs == Str(c.key) + Args(c)
  {
    var c := ReadCall(op, bs).value;
    var afterKey := ReadStr(bs).value.1;
    StrBack(bs);
    if NeedsArg(op) {
      StrBack(afterKey);
      if op.Cas? {
        StrBack(ReadStr(afterKey).value.1);
        assert afterKey == Str(c.arg) + (Str(c.arg2) + []);
        assert Str(c.arg2) + [] == Str(c.arg2);
      }
    }
    assert afterKey == Args(c);
  }

  lemma WordBack(bs: Bytes)
    requires |bs| == 8
    ensures Value(bs) < Pow256(8) && Little(Value(bs), 8) == bs
  {
    LittleOfValue(bs);
  }

  lemma Whole(cmd: Bytes)
    requires |cmd| >= 17
    ensures cmd == cmd[..8] + cmd[8..16] + [cmd[16]] + cmd[17..]
  {}

  lemma OpBack(b: Byte)
    requires 1 <= b <= 5
    ensures OpByte(OpOf(b)) == b
  {}

  /** Putting the parts together again. */
  lemma Assembled(a: Bytes, b: Bytes, op: Byte, rest: Bytes, id: Ident, c: Call)
    requires a == Little(id.client, 8) && b == Little(id.seqNo, 8) && op == OpByte(c.op)
    requires rest == Str(c.key) + Args(c)
    ensures a + b + [op] + rest == Encode(id, c)
  {}

  lemma EncodeBack(cmd: Bytes)
    requires Decode(cmd).Some?
    ensures Fits(Decode(cmd).value.id, Decode(cmd).value.call)
    ensures cmd == Encode(Decode(cmd).value.id, Decode(cmd).value.call)
  {
    CallBack(OpOf(cmd[16]), cmd[17..]);
    WordBack(cmd[..8]);
    WordBack(cmd[8..16]);
    OpBack(cmd[16]);
    Assembled(cmd[..8], cmd[8..16], cmd[16], cmd[17..], Decode(cmd).value.id, Decode(cmd).value.call);
    Whole(cmd);
  }

  /** The decoder accepts exactly the encodings: a byte too many, a byte too few, an unknown operation or
      a length that points past the end is refused. */
  lemma DecodeIff(cmd: Bytes, id: Ident, c: Call)
    ensures Decode(cmd) == Some(Command(id, c)) <==> Fits(id, c) && cmd == Encode(id, c)
  {
    if Decode(cmd) == Some(Command(id, c)) { EncodeBack(cmd); }
    if Fits(id, c) && cmd == Encode(id, c) { DecodeEncode(id, c); }
  }

  // ---- behind the session table ------------------------------------------------------------------------------

  function IdentOf(cmd: Bytes): Option<Ident> {
    var c := Decode(cmd);
    if c.Some? then Some(c.value.id) else None
  }

  function Execute(kv: Store, cmd: Bytes): (Store, Bytes) {
    var c := Decode(cmd);
    if c.Some? then ApplyOp(kv, c.value.call) else (kv, Malformed)
  }

  /** The whole command is read before the session table is looked at. */
  function KvMachine(): Machine<Store, Bytes> {
    Machine(map[], IdentOf, (_: Bytes) => true, Execute, Malformed)
  }

  /** Is this the encoding of some command? */
  ghost predicate WellFormed(cmd: Bytes) {
    exists id, c {:trigger Fits(id, c)} :: Fits(id, c) && cmd == Encode(id, c)
  }

  lemma WellFormedDecodes(cmd: Bytes)
    ensures WellFormed(cmd) <==> Decode(cmd).Some?
  {
    if Decode(cmd).Some? { EncodeBack(cmd); }
    if WellFormed(cmd) {
      var id, c :| Fits(id, c) && cmd == Encode(id, c);
      DecodeEncode(id, c);
    }
  }

  lemma ExecutedIsAnswered(kv: Store, cmd: Bytes)
    requires Decode(cmd).Some?
    ensures Execute(kv, cmd).1 != Malformed
  {
    OutcomesDiffer(kv, Decode(cmd).value.call);
  }

  /** In any stream, a command is answered "malformed" exactly when it is no command's encoding, and then
      neither the map nor the session table notices it. */
  lemma MalformedExactly(cmds: seq<Bytes>, k: nat)
    requires k < |cmds|
    ensures ReplyAt(KvMachine(), cmds, k) == Malformed <==> !WellFormed(cmds[k])
    ensures !WellFormed(cmds[k]) ==> After(KvMachine(), cmds, k + 1) == After(KvMachine(), cmds, k)
  {
    WellFormedDecodes(cmds[k]);
    var m := KvMachine();
    if m.ident(cmds[k]).Some? {
      var j := ReplyIsExecuted(m, cmds, k);
      ExecutedIsAnswered(After(m, cmds, j).core, cmds[j]);
    }
  }

  class KvStateMachine {
    var kv: Store
    var sessions: map<nat, Session<Bytes>>

    ghost function View(): State<Store, Bytes>
      reads this
    {
      State(kv, sessions)
    }

    constructor ()
      ensures View() == Initial(KvMachine())
    {
      kv, sessions := map[], map[];
    }

    /** One operation on the map, in place. */
    method RunOp(c: Call) returns (r: Bytes)
      modifies this`kv
      ensures (kv, r) == ApplyOp(old(kv), c)
    {
      match c.op {
        case Put =>
          kv := kv[c.key := c.arg];
          r := Ok;
        case Get =>
          if c.key !in kv { return NotFound; }
          r := Ok + kv[c.key];
        case Delete =>
          r := if c.key in kv then Ok else NotFound;
          kv := kv - {c.key};
        case Cas =>
          var current := if c.key in kv then kv[c.key] else [];
          if current != c.arg { return CasFailed; }
          kv := kv[c.key := c.arg2];
          r := Ok;
        case Append =>
          var value := (if c.key in kv then kv[c.key] else []) + c.arg;
          kv := kv[c.key := value];
          r := Ok + value;
      }
    }

    /** One committed command. */
    method Apply(cmd: Bytes) returns (r: Bytes)
      modifies this
      ensures (View(), r) == Sessions.Apply(KvMachine(), old(View()), cmd)
      ensures !WellFormed(cmd) ==> r == Malformed && kv == old(kv) && sessions == old(sessions)
    {
      WellFormedDecodes(cmd);
      var decoded := Decode(cmd);
      if decoded.None? { return Malformed; }
      var id := decoded.value.id;
      if id.client != 0 && id.client in sessions && id.seqNo <= sessions[id.client].lastSeq {
        return sessions[id.client].lastReply;
      }
      r := RunOp(decoded.value.call);
      if id.client != 0 { sessions := sessions[id.client := Session(id.seqNo, r)]; }
    }
  }
}
