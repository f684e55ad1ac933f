/** The wire format of the six messages: envelope, payloads, strict decoding. */
module Codec {
  import opened Common
  import opened Wire
  import opened RaftTypes

  datatype Message =
    | Rpc(m: Msg)
    | ClientRequest(clientId: nat, seqNo: nat, command: Bytes)
    | ClientReply(status: nat, leaderHint: NodeId, result: Bytes)

  datatype Decoded = Decoded(from: NodeId, to: NodeId, msg: Message)

  const MAX_PAYLOAD: nat := 16 * 1024 * 1024

  // ---- cursor ------------------------------------------------------------------------------------------

  /** A little-endian number of n bytes and what follows it. */
  function Read(bs: Bytes, n: nat): Option<(nat, Bytes)> {
    if |bs| < n then None else Some((Value(bs[..n]), bs[n..]))
  }

  /** A blob: 32-bit length, then that many bytes. */
  function Blob(b: Bytes): Bytes { Little(|b|, 4) + b }

  function ReadBlob(bs: Bytes): Option<(Bytes, Bytes)> {
    var len := Read(bs, 4);
    if len.None? || len.value.0 > |len.value.1| then None
    else Some((len.value.1[..len.value.0], len.value.1[len.value.0..]))
  }

  lemma ReadBack(v: nat, n: nat, rest: Bytes)
    requires v < Pow256(n)
    ensures Read(Little(v, n) + rest, n) == Some((v, rest))
  {
    ValueOfLittle(v, n);
    assert (Little(v, n) + rest)[..n] == Little(v, n) && (Little(v, n) + rest)[n..] == rest;
  }

  lemma ReadExact(bs: Bytes, n: nat)
    requires Read(bs, n).Some?
    ensures var (v, rest) := Read(bs, n).value; v < Pow256(n) && bs == Little(v, n) + rest
  {
    LittleOfValue(bs[..n]);
    assert bs == bs[..n] + bs[n..];
  }

  lemma BlobBack(b: Bytes, rest: Bytes)
    requires |b| < Pow256(4)
    ensures ReadBlob(Blob(b) + rest) == Some((b, rest))
  {
    ReadBack(|b|, 4, b + rest);
    assert Blob(b) + rest == Little(|b|, 4) + (b + rest);
  }

  lemma BlobExact(bs: Bytes)
    requires ReadBlob(bs).Some?
    ensures var (b, rest) := ReadBlob(bs).value; |b| < Pow256(4) && bs == Blob(b) + rest
  {
    ReadExact(bs, 4);
    var (n, tail) := Read(bs, 4).value;
    assert tail == tail[..n] + tail[n..];
  }

  // ---- entries --------------------------------------------------------------------------------------------

  function Entries(es: seq<Entry>): Bytes {
    if es == [] then [] else Little(es[0].term, 8) + (Blob(es[0].command) + Entries(es[1..]))
  }

  function ReadEntry(bs: Bytes): Option<(Entry, Bytes)> {
    var term := Read(bs, 8);
    if term.None? then None
    else
      var cmd := ReadBlob(term.value.1);
      if cmd.None? then None else Some((Entry(term.value.0, cmd.value.0), cmd.value.1))
  }

  function ReadEntries(bs: Bytes, n: nat): Option<(seq<Entry>, Bytes)>
    decreases n
  {
    if n == 0 then Some(([], bs))
    else
      var e := ReadEntry(bs);
      if e.None? then None
      else
        var es := ReadEntries(e.value.1, n - 1);
        if es.None? then None else Some(([e.value.0] + es.value.0, es.value.1))
  }

  ghost predicate EntryFits(e: Entry) { e.term < Pow256(8) && |e.command| < Pow256(4) }

  ghost predicate EntriesFit(es: seq<Entry>) { forall k :: 0 <= k < |es| ==> EntryFits(es[k]) }

  lemma EntryBack(e: Entry, rest: Bytes)
    requires EntryFits(e)
    ensures ReadEntry(Little(e.term, 8) + (Blob(e.command) + rest)) == Some((e, rest))
  {
    ReadBack(e.term, 8, Blob(e.command) + rest);
    BlobBack(e.command, rest);
  }

  lemma EntryExact(bs: Bytes)
    requires ReadEntry(bs).Some?
    ensures var (e, rest) := ReadEntry(bs).value;
            EntryFits(e) && bs == Little(e.term, 8) + (Blob(e.command) + rest) && |bs| >= 12 + |rest|
  {
    ReadExact(bs, 8);
    BlobExact(Read(bs, 8).value.1);
  }

  lemma {:induction false} EntriesBack(es: seq<Entry>, rest: Bytes)
    requires EntriesFit(es)
    ensures ReadEntries(Entries(es) + rest, |es|) == Some((es, rest))
    ensures |Entries(es)| >= 12 * |es|
  {
    if es == [] {
      assert Entries(es) + rest == rest;
    } else {
      var tail := Entries(es[1..]) + rest;
      EntriesBack(es[1..], rest);
      EntryBack(es[0], tail);
      EntriesCons(es, rest);
      EntriesStep(Entries(es) + rest, |es|, es[0], tail);
      assert [es[0]] + es[1..] == es;
    }
  }

  lemma {:induction false} EntriesCons(es: seq<Entry>, rest: Bytes)
    requires es != []
    ensures Entries(es) + rest == Little(es[0].term, 8) + (Blob(es[0].command) + (Entries(es[1..]) + rest))
    ensures |Entries(es)| >= 12 + |Entries(es[1..])|
  {
    var a, b, c := Little(es[0].term, 8), Blob(es[0].command), Entries(es[1..]);
    assert Entries(es) == a + (b + c);
    Reassociate(a, b, c, rest);
  }

  lemma Reassociate(a: Bytes, b: Bytes, c: Bytes, d: Bytes)
    ensures (a + (b + c)) + d == a + (b + (c + d))
  {}

  lemma EntriesStep(bs: Bytes, n: nat, e: Entry, tail: Bytes)
    requires n > 0 && ReadEntry(bs) == Some((e, tail)) && ReadEntries(tail, n - 1).Some?
    ensures var (es, rest) := ReadEntries(tail, n - 1).value; ReadEntries(bs, n) == Some(([e] + es, rest))
  {}

  lemma {:induction false} EntriesExact(bs: Bytes, n: nat)
    requires ReadEntries(bs, n).Some?
    ensures var (es, rest) := ReadEntries(bs, n).value; |es| == n && EntriesFit(es) && bs == Entries(es) + rest
    decreases n
  {
    if n > 0 {
      EntryExact(bs);
      var (e, tail) := ReadEntry(bs).value;
      EntriesExact(tail, n - 1);
      var (es, rest) := ReadEntries(tail, n - 1).value;
      EntriesStep(bs, n, e, tail);
      EntriesGrow(e, es, rest);
      assert ReadEntries(bs, n).value == ([e] + es, rest);
    }
  }

  lemma EntriesGrow(e: Entry, es: seq<Entry>, rest: Bytes)
    requires EntryFits(e) && EntriesFit(es)
    ensures EntriesFit([e] + es)
    ensures Entries([e] + es) + rest == Little(e.term, 8) + (Blob(e.command) + (Entries(es) + rest))
  {
    assert ([e] + es)[1..] == es;
    EntriesCons([e] + es, rest);
  }

  // ---- runs of numbers --------------------------------------------------------------------------------------

  /** Numbers of the given widths, one after the other. */
  function Nums(ws: seq<nat>, vs: seq<nat>): Bytes
    requires |ws| == |vs|
  {
    if ws == [] then [] else Little(vs[0], ws[0]) + Nums(ws[1..], vs[1..])
  }

  function ReadNums(bs: Bytes, ws: seq<nat>): (r: Option<(seq<nat>, Bytes)>)
    ensures r.Some? ==> |r.value.0| == |ws|
    decreases |ws|
  {
    if ws == [] then Some(([], bs))
    else
      var v := Read(bs, ws[0]);
      if v.None? then None
      else
        var vs := ReadNums(v.value.1, ws[1..]);
        if vs.None? then None else Some(([v.value.0] + vs.value.0, vs.value.1))
  }

  ghost predicate NumsFit(ws: seq<nat>, vs: seq<nat>) {
    |ws| == |vs| && forall k :: 0 <= k < |ws| ==> vs[k] < Pow256(ws[k])
  }

  lemma {:induction false} NumsBack(ws: seq<nat>, vs: seq<nat>, rest: Bytes)
    requires NumsFit(ws, vs)
    ensures ReadNums(Nums(ws, vs) + rest, ws) == Some((vs, rest))
    decreases |ws|
  {
    if ws == [] {
      assert Nums(ws, vs) + rest == rest;
    } else {
      var tail := Nums(ws[1..], vs[1..]) + rest;
      NumsBack(ws[1..], vs[1..], rest);
      ReadBack(vs[0], ws[0], tail);
      NumsCons(ws, vs, rest);
      assert [vs[0]] + vs[1..] == vs;
    }
  }

  lemma NumsCons(ws: seq<nat>, vs: seq<nat>, rest: Bytes)
    requires |ws| == |vs| && ws != []
    ensures Nums(ws, vs) + rest == Little(vs[0], ws[0]) + (Nums(ws[1..], vs[1..]) + rest)
  {}

  lemma {:induction false} NumsExact(bs: Bytes, ws: seq<nat>)
    requires ReadNums(bs, ws).Some?
    ensures var (vs, rest) := ReadNums(bs, ws).value; NumsFit(ws, vs) && bs == Nums(ws, vs) + rest
    decreases |ws|
  {
    if ws != [] {
      ReadExact(bs, ws[0]);
      var (v, tail) := Read(bs, ws[0]).value;
      NumsExact(tail, ws[1..]);
      var (vs, rest) := ReadNums(tail, ws[1..]).value;
      assert ([v] + vs)[1..] == vs;
      assert Little(v, ws[0]) + (Nums(ws[1..], vs) + rest) == (Little(v, ws[0]) + Nums(ws[1..], vs)) + rest;
    }
  }

  // ---- payloads ---------------------------------------------------------------------------------------------------

  const VOTE: seq<nat> := [8, 2, 8, 8]
  const VOTE_REPLY: seq<nat> := [8, 1]
  const APPEND: seq<nat> := [8, 2, 8, 8, 8, 4]
  const APPEND_REPLY: seq<nat> := [8, 1, 8, 8]
  const REQUEST: seq<nat> := [8, 8]
  const REPLY: seq<nat> := [1, 2]

  function Flag(b: bool): nat { if b then 1 else 0 }

  function TypeOf(m: Message): nat {
    match m
    case Rpc(RequestVote(_, _, _, _)) => 1
    case Rpc(RequestVoteReply(_, _)) => 2
    case Rpc(AppendEntries(_, _, _, _, _, _)) => 3
    case Rpc(AppendEntriesReply(_, _, _, _)) => 4
    case ClientRequest(_, _, _) => 5
    case ClientReply(_, _, _) => 6
  }

  /** Number fields and their widths, and the bytes that follow them. */
  function Widths(t: nat): seq<nat> {
    if t == 1 then VOTE else if t == 2 then VOTE_REPLY else if t == 3 then APPEND
    else if t == 4 then APPEND_REPLY else if t == 5 then REQUEST else REPLY
  }

  function Numbers(m: Message): (vs: seq<nat>)
    ensures |vs| == |Widths(TypeOf(m))|
  {
    match m
    case Rpc(RequestVote(t, c, i, lt)) => [t, c, i, lt]
    case Rpc(RequestVoteReply(t, g)) => [t, Flag(g)]
    case Rpc(AppendEntries(t, l, p, pt, lc, es)) => [t, l, p, pt, lc, |es|]
    case Rpc(AppendEntriesReply(t, s, ci, ct)) => [t, Flag(s), ci, ct]
    case ClientRequest(c, s, _) => [c, s]
    case ClientReply(s, h, _) => [s, h]
  }

  function Tail(m: Message): Bytes {
    match m
    case Rpc(AppendEntries(_, _, _, _, _, es)) => Entries(es)
    case ClientRequest(_, _, cmd) => Blob(cmd)
    case ClientReply(_, _, result) => Blob(result)
    case _ => []
  }

  function Payload(m: Message): Bytes { Nums(Widths(TypeOf(m)), Numbers(m)) + Tail(m) }

  /** Numbers and following bytes back to a message; everything must be used up. */
  function Build(t: nat, vs: seq<nat>, bs: Bytes): Option<Message>
    requires 1 <= t <= 6 && |vs| == |Widths(t)|
  {
    if t == 1 then (if bs == [] then Some(Rpc(RequestVote(vs[0], vs[1], vs[2], vs[3]))) else None)
    else if t == 2 then (if bs == [] && vs[1] <= 1 then Some(Rpc(RequestVoteReply(vs[0], vs[1] == 1))) else None)
    else if t == 3 then
      if vs[5] > |bs| / 12 then None
      else
        var es := ReadEntries(bs, vs[5]);
        if es.None? || es.value.1 != [] then None
        else Some(Rpc(AppendEntries(vs[0], vs[1], vs[2], vs[3], vs[4], es.value.0)))
    else if t == 4 then
      (if bs == [] && vs[1] <= 1 then Some(Rpc(AppendEntriesReply(vs[0], vs[1] == 1, vs[2], vs[3]))) else None)
    else
      var b := ReadBlob(bs);
      if b.None? || b.value.1 != [] then None
      else if t == 5 then Some(ClientRequest(vs[0], vs[1], b.value.0))
      else if vs[0] > 2 then None
      else Some(ClientReply(vs[0], vs[1], b.value.0))
  }

  ghost predicate Fits(m: Message) {
    && NumsFit(Widths(TypeOf(m)), Numbers(m))
    && (m.Rpc? && m.m.AppendEntries? ==> EntriesFit(m.m.entries))
    && (m.ClientRequest? ==> |m.command| < Pow256(4))
    && (m.ClientReply? ==> |m.result| < Pow256(4) && m.status <= 2)
  }

  lemma BuildBack(m: Message)
    requires Fits(m)
    ensures Build(TypeOf(m), Numbers(m), Tail(m)) == Some(m)
  {
    match m
    case Rpc(AppendEntries(_, _, _, _, _, es)) =>
      EntriesBack(es, []);
      assert Entries(es) + [] == Entries(es);
    case ClientRequest(_, _, cmd) =>
      BlobBack(cmd, []);
      assert Blob(cmd) + [] == Blob(cmd);
    case ClientReply(_, _, result) =>
      BlobBack(result, []);
      assert Blob(result) + [] == Blob(result);
    case _ =>
  }

  lemma BuildExact(t: nat, vs: seq<nat>, bs: Bytes)
    requires 1 <= t <= 6 && NumsFit(Widths(t), vs) && Build(t, vs, bs).Some?
    ensures var m := Build(t, vs, bs).value; TypeOf(m) == t && Numbers(m) == vs && Tail(m) == bs && Fits(m)
  {
    if t == 3 {
      BuildExactAppend(vs, bs);
    } else if t >= 5 {
      BuildExactBlob(t, vs, bs);
    } else {
      NumbersBack(t, vs, Build(t, vs, bs).value);
    }
  }

  lemma {:induction false} BuildExactAppend(vs: seq<nat>, bs: Bytes)
    requires NumsFit(APPEND, vs) && Build(3, vs, bs).Some?
    ensures var m := Build(3, vs, bs).value; TypeOf(m) == 3 && Numbers(m) == vs && Tail(m) == bs && Fits(m)
  {
    EntriesWhole(bs, vs[5]);
    AppendBuilt(vs, ReadEntries(bs, vs[5]).value.0);
  }

  lemma AppendBuilt(vs: seq<nat>, es: seq<Entry>)
    requires NumsFit(APPEND, vs) && |es| == vs[5] && EntriesFit(es)
    ensures var m := Rpc(AppendEntries(vs[0], vs[1], vs[2], vs[3], vs[4], es));
            Numbers(m) == vs && Tail(m) == Entries(es) && Fits(m)
  {
    NumbersBack(3, vs, Rpc(AppendEntries(vs[0], vs[1], vs[2], vs[3], vs[4], es)));
  }

  lemma EntriesWhole(bs: Bytes, n: nat)
    requires ReadEntries(bs, n).Some? && ReadEntries(bs, n).value.1 == []
    ensures var es := ReadEntries(bs, n).value.0; |es| == n && EntriesFit(es) && Entries(es) == bs
  {
    EntriesExact(bs, n);
    var es := ReadEntries(bs, n).value.0;
    assert Entries(es) + [] == Entries(es);
  }

  lemma BuildExactBlob(t: nat, vs: seq<nat>, bs: Bytes)
    requires 5 <= t <= 6 && NumsFit(Widths(t), vs) && Build(t, vs, bs).Some?
    ensures var m := Build(t, vs, bs).value; TypeOf(m) == t && Numbers(m) == vs && Tail(m) == bs && Fits(m)
  {
    BlobExact(bs);
    var b := ReadBlob(bs).value.0;
    assert Blob(b) + [] == Blob(b);
    NumbersBack(t, vs, Build(t, vs, bs).value);
  }

  lemma NumbersBack(t: nat, vs: seq<nat>, m: Message)
    requires 1 <= t <= 6 && |vs| == |Widths(t)| && TypeOf(m) == t
    requires forall k :: 0 <= k < |vs| ==> Numbers(m)[k] == vs[k]
    ensures Numbers(m) == vs
  {}

  // ---- frames -------------------------------------------------------------------------------------------------------

  const ENVELOPE: seq<nat> := [1, 1, 2, 2, 2, 4]

  function Header(from: NodeId, to: NodeId, t: nat, n: nat): seq<nat> { [1, t, from, to, 0, n] }

  /** Refuses payloads over the limit. */
  function Encode(from: NodeId, to: NodeId, m: Message): Option<Bytes> {
    if |Payload(m)| > MAX_PAYLOAD then None
    else Some(Nums(ENVELOPE, Header(from, to, TypeOf(m), |Payload(m)|)) + Payload(m))
  }

  /** Strict: version 1, known type, zero reserved bytes, exact payload length, nothing left over. */
  function Decode(frame: Bytes): Option<Decoded> {
    if |frame| < 12 || |frame| > 12 + MAX_PAYLOAD then None
    else
      var e := ReadNums(frame, ENVELOPE);
      if e.None? then None
      else
        var (h, payload) := e.value;
        if h[0] != 1 || h[4] != 0 || !(1 <= h[1] <= 6) || h[5] != |frame| - 12 then None
        else
          var f := ReadNums(payload, Widths(h[1]));
          if f.None? then None
          else
            var m := Build(h[1], f.value.0, f.value.1);
            if m.None? then None else Some(Decoded(h[2], h[3], m.value))
  }

  lemma EnvelopeSize(vs: seq<nat>)
    requires |vs| == 6
    ensures |Nums(ENVELOPE, vs)| == 12
  {
    NumsSize(ENVELOPE, vs);
    assert Total(ENVELOPE) == 12 by {
      assert ENVELOPE[1..] == [1, 2, 2, 2, 4] && [1, 2, 2, 2, 4][1..] == [2, 2, 2, 4] && [2, 2, 2, 4][1..] == [2, 2, 4];
      assert [2, 2, 4][1..] == [2, 4] && [2, 4][1..] == [4] && [4][1..] == [];
      assert Total([4]) == 4 && Total([2, 4]) == 6 && Total([2, 2, 4]) == 8;
    }
  }

  function Total(ws: seq<nat>): nat { if ws == [] then 0 else ws[0] + Total(ws[1..]) }

  lemma {:induction false} NumsSize(ws: seq<nat>, vs: seq<nat>)
    requires |ws| == |vs|
    ensures |Nums(ws, vs)| == Total(ws)
    decreases |ws|
  {
    if ws != [] { NumsSize(ws[1..], vs[1..]); }
  }

  lemma HeaderFits(from: NodeId, to: NodeId, t: nat, n: nat)
    requires from < 65536 && to < 65536 && t < 256 && n <= MAX_PAYLOAD
    ensures NumsFit(ENVELOPE, Header(from, to, t, n))
  {
    assert Pow256(1) == 256 && Pow256(2) == 65536;
    Pow256Values();
  }

  /** What is sent is what is received. */
  lemma DecodeEncode(from: NodeId, to: NodeId, m: Message)
    requires from < 65536 && to < 65536 && Fits(m) && Encode(from, to, m).Some?
    ensures Decode(Encode(from, to, m).value) == Some(Decoded(from, to, m))
  {
    var h := Header(from, to, TypeOf(m), |Payload(m)|);
    HeaderFits(from, to, TypeOf(m), |Payload(m)|);
    EnvelopeSize(h);
    NumsBack(ENVELOPE, h, Payload(m));
    NumsBack(Widths(TypeOf(m)), Numbers(m), Tail(m));
    BuildBack(m);
  }

  lemma PayloadExact(t: nat, payload: Bytes)
    requires 1 <= t <= 6 && ReadNums(payload, Widths(t)).Some?
    requires var (vs, bs) := ReadNums(payload, Widths(t)).value; Build(t, vs, bs).Some?
    ensures var (vs, bs) := ReadNums(payload, Widths(t)).value;
            var m := Build(t, vs, bs).value;
            TypeOf(m) == t && Payload(m) == payload && Fits(m)
  {
    NumsExact(payload, Widths(t));
    var (vs, bs) := ReadNums(payload, Widths(t)).value;
    BuildExact(t, vs, bs);
  }

  lemma EnvelopeExact(frame: Bytes)
    requires ReadNums(frame, ENVELOPE).Some?
    ensures var (h, payload) := ReadNums(frame, ENVELOPE).value;
            && h[2] < 65536 && h[3] < 65536 && |payload| == |frame| - 12
            && frame == Nums(ENVELOPE, h) + payload
  {
    NumsExact(frame, ENVELOPE);
    var (h, payload) := ReadNums(frame, ENVELOPE).value;
    EnvelopeSize(h);
    assert h[2] < Pow256(ENVELOPE[2]) && h[3] < Pow256(ENVELOPE[3]);
    assert Pow256(2) == 65536;
  }

  /** Every accepted frame is the encoding of what it decodes to. */
  lemma EncodeDecode(frame: Bytes)
    requires Decode(frame).Some?
    ensures var d := Decode(frame).value;
            d.from < 65536 && d.to < 65536 && Fits(d.msg) && Encode(d.from, d.to, d.msg) == Some(frame)
  {
    EnvelopeExact(frame);
    var (h, payload) := ReadNums(frame, ENVELOPE).value;
    PayloadExact(h[1], payload);
    assert h == Header(h[2], h[3], h[1], |payload|);
  }
}
