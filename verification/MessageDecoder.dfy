/** Decoding into a long-lived message: buffers and entry lists of earlier messages are reused, and what
    they held never shows in the result. */
module MessageDecoder {
  import opened Common
  import opened Wire
  import opened RaftTypes
  import opened Codec

  /** Entries read so far, followed by those still to be read. */
  function Joined(pre: seq<Entry>, r: Option<(seq<Entry>, Bytes)>): Option<(seq<Entry>, Bytes)> {
    if r.None? then None else Some((pre + r.value.0, r.value.1))
  }

  lemma JoinedStep(pre: seq<Entry>, bs: Bytes, n: nat)
    requires n > 0
    ensures var e := ReadEntry(bs);
            Joined(pre, ReadEntries(bs, n))
            == if e.None? then None else Joined(pre + [e.value.0], ReadEntries(e.value.1, n - 1))
  {
    var e := ReadEntry(bs);
    if e.Some? && ReadEntries(e.value.1, n - 1).Some? {
      var es := ReadEntries(e.value.1, n - 1).value.0;
      assert pre + ([e.value.0] + es) == (pre + [e.value.0]) + es;
    }
  }

  lemma JoinedNone(r: Option<(seq<Entry>, Bytes)>)
    ensures Joined([], r) == r
  {
    if r.Some? { assert [] + r.value.0 == r.value.0; }
  }

  function Overwritten(es: seq<Entry>, i: nat, e: Entry): (r: seq<Entry>)
    requires i < |es|
    ensures |r| == |es| && r[..i + 1] == es[..i] + [e]
  {
    es[i := e]
  }

  // ---- one reused buffer ----------------------------------------------------------------------------------

  /** Assign to a reused buffer: cut to length, then overwrite byte by byte, growing where it was shorter. */
  method AssignInto(reused: Bytes, src: Bytes) returns (buf: Bytes)
    ensures buf == src
  {
    buf := if |reused| > |src| then reused[..|src|] else reused;
    for i := 0 to |src|
      invariant i <= |buf| <= |src| && buf[..i] == src[..i]
    {
      buf := if i < |buf| then buf[i := src[i]] else buf + [src[i]];
    }
    assert buf == buf[..|src|] && src == src[..|src|];
  }

  method BlobInto(reused: Bytes, bs: Bytes) returns (r: Option<(Bytes, Bytes)>)
    ensures r == ReadBlob(bs)
  {
    var len := Read(bs, 4);
    if len.None? || len.value.0 > |len.value.1| { return None; }
    var (n, rest) := len.value;
    var buf := AssignInto(reused, rest[..n]);
    return Some((buf, rest[n..]));
  }

  method EntryInto(reused: Entry, bs: Bytes) returns (r: Option<(Entry, Bytes)>)
    ensures r == ReadEntry(bs)
  {
    var e := reused;
    var term := Read(bs, 8);
    if term.None? { return None; }
    e := e.(term := term.value.0);
    var cmd := BlobInto(e.command, term.value.1);
    if cmd.None? { return None; }
    e := e.(command := cmd.value.0);
    return Some((e, cmd.value.1));
  }

  /** A message of the given kind in which only the recycled buffer or list means anything. */
  function Blank(t: nat, buf: Bytes, es: seq<Entry>): (m: Message)
    requires 1 <= t <= 6
    ensures TypeOf(m) == t
  {
    if t == 1 then Rpc(RequestVote(0, 0, 0, 0))
    else if t == 2 then Rpc(RequestVoteReply(0, false))
    else if t == 3 then Rpc(AppendEntries(0, 0, 0, 0, 0, es))
    else if t == 4 then Rpc(AppendEntriesReply(0, false, 0, 0))
    else if t == 5 then ClientRequest(0, 0, buf)
    else ClientReply(0, 0, buf)
  }

  // ---- the pool ---------------------------------------------------------------------------------------------

  /** The byte buffers a message holds. */
  function Buffers(m: Message): seq<Bytes> {
    match m
    case Rpc(AppendEntries(_, _, _, _, _, es)) => CommandsOf(es, |es|)
    case ClientRequest(_, _, cmd) => [cmd]
    case ClientReply(_, _, result) => [result]
    case _ => []
  }

  function CommandsOf(es: seq<Entry>, n: nat): seq<Bytes>
    requires n <= |es|
  {
    if n == 0 then [] else CommandsOf(es, n - 1) + [es[n - 1].command]
  }

  /** The list an AppendEntries gives back is emptied first. */
  function Lists(m: Message): seq<seq<Entry>> { if TypeOf(m) == 3 then [[]] else [] }

  function Top<T>(pool: seq<seq<T>>): seq<T> { if pool == [] then [] else pool[|pool| - 1] }

  function Rest<T>(pool: seq<seq<T>>): seq<seq<T>> { if pool == [] then [] else pool[..|pool| - 1] }

  class Decoder {
    var from: NodeId
    var to: NodeId
    var message: Message
    var bufs: seq<Bytes>         // recycled byte buffers
    var lists: seq<seq<Entry>>   // recycled entry lists

    constructor ()
    {
      from, to, message, bufs, lists := 0, 0, Rpc(RequestVote(0, 0, 0, 0)), [], [];
    }

    method GetBuf() returns (b: Bytes)
      modifies this`bufs
      ensures b == Top(old(bufs)) && bufs == Rest(old(bufs))
    {
      if bufs == [] { return []; }
      b := bufs[|bufs| - 1];
      bufs := bufs[..|bufs| - 1];
    }

    method GetList() returns (es: seq<Entry>)
      modifies this`lists
      ensures es == Top(old(lists)) && lists == Rest(old(lists))
    {
      if lists == [] { return []; }
      es := lists[|lists| - 1];
      lists := lists[..|lists| - 1];
    }

    /** Put the current message's buffers aside before it becomes another kind of message. */
    method Salvage()
      modifies this`bufs, this`lists
      ensures bufs == old(bufs) + Buffers(message) && lists == old(lists) + Lists(message)
    {
      match message {
        case Rpc(AppendEntries(_, _, _, _, _, es)) =>
          for k := 0 to |es|
            invariant bufs == old(bufs) + CommandsOf(es, k) && lists == old(lists)
          {
            bufs := bufs + [es[k].command];
          }
          lists := lists + [[]];
        case ClientRequest(_, _, cmd) => bufs := bufs + [cmd];
        case ClientReply(_, _, result) => bufs := bufs + [result];
        case _ =>
      }
    }

    /** The current message if it is of this kind, as it is; otherwise one dressed in recycled buffers. */
    method BecomeKind(t: nat)
      requires 1 <= t <= 6
      modifies this`message, this`bufs, this`lists
      ensures TypeOf(message) == t
      ensures old(TypeOf(message)) == t ==> message == old(message) && bufs == old(bufs) && lists == old(lists)
      ensures old(TypeOf(message)) != t ==>
                var b, l := old(bufs) + Buffers(old(message)), old(lists) + Lists(old(message));
                && message == Blank(t, if t >= 5 then Top(b) else [], if t == 3 then Top(l) else [])
                && bufs == (if t >= 5 then Rest(b) else b) && lists == if t == 3 then Rest(l) else l
    {
      if TypeOf(message) == t { return; }
      Salvage();
      var buf, es := [], [];
      if t == 3 { es := GetList(); }
      if t >= 5 { buf := GetBuf(); }
      message := Blank(t, buf, es);
    }

    /** Read entry i into its place in the list, with a recycled buffer where the list ends. */
    method NextEntry(es: seq<Entry>, i: nat, bs: Bytes) returns (es': seq<Entry>, rest: Option<Bytes>)
      requires i <= |es|
      modifies this`bufs
      ensures rest.Some? <==> ReadEntry(bs).Some?
      ensures rest.Some? ==>
                && |es'| == (if i < |es| then |es| else i + 1) && rest.value == ReadEntry(bs).value.1
                && es'[..i + 1] == es[..i] + [ReadEntry(bs).value.0]
    {
      es' := es;
      if i == |es| {
        var b := GetBuf();
        es' := es' + [Entry(0, b)];
      }
      var e := EntryInto(es'[i], bs);
      if e.None? { return es', None; }
      return Overwritten(es', i, e.value.0), Some(e.value.1);
    }

    /** Overwrite a reused list with `count` entries read from bs. */
    method EntriesInto(reused: seq<Entry>, bs: Bytes, count: nat) returns (r: Option<(seq<Entry>, Bytes)>)
      modifies this`bufs
      ensures r == ReadEntries(bs, count)
    {
      var es, rest := reused, bs;
      while |es| > count
        decreases |es|
      {
        bufs := bufs + [es[|es| - 1].command];
        es := es[..|es| - 1];
      }
      ghost var done: seq<Entry> := [];
      JoinedNone(ReadEntries(bs, count));
      for i := 0 to count
        invariant i <= |es| <= count && es[..i] == done
        invariant ReadEntries(bs, count) == Joined(done, ReadEntries(rest, count - i))
      {
        JoinedStep(done, rest, count - i);
        var next: Option<Bytes>;
        es, next := NextEntry(es, i, rest);
        if next.None? { return None; }
        done := done + [ReadEntry(rest).value.0];
        rest := next.value;
      }
      assert es == es[..count] == done;
      assert done + [] == done;
      return Some((es, rest));
    }

    /** An AppendEntries payload. */
    method AppendInto(vs: seq<nat>, bs: Bytes) returns (ok: bool)
      requires |vs| == 6 && TypeOf(message) == 3
      modifies this`message, this`bufs
      ensures ok <==> Build(3, vs, bs).Some?
      ensures ok ==> message == Build(3, vs, bs).value
    {
      var m := message.m.(term := vs[0], leaderId := vs[1], prevLogIndex := vs[2], prevLogTerm := vs[3],
          leaderCommit := vs[4]);
      message := Rpc(m);
      if vs[5] > |bs| / 12 { return false; }
      var es := EntriesInto(m.entries, bs, vs[5]);
      if es.None? { return false; }
      message := Rpc(m.(entries := es.value.0));
      return es.value.1 == [];
    }

    /** The three messages of plain numbers; a flag is 0 or 1. */
    method PlainInto(t: nat, vs: seq<nat>, bs: Bytes) returns (ok: bool)
      requires t in {1, 2, 4} && |vs| == |Widths(t)| && TypeOf(message) == t
      modifies this`message
      ensures ok <==> Build(t, vs, bs).Some?
      ensures ok ==> message == Build(t, vs, bs).value
    {
      var m := message.m;
      if t == 1 {
        m := m.(term := vs[0], candidateId := vs[1], lastLogIndex := vs[2], lastLogTerm := vs[3]);
      } else {
        if vs[1] > 1 { return false; }
        m := if t == 2 then m.(term := vs[0], voteGranted := vs[1] == 1)
             else m.(term := vs[0], success := vs[1] == 1, conflictIndex := vs[2], conflictTerm := vs[3]);
      }
      message := Rpc(m);
      return bs == [];
    }

    /** The two messages that end in a blob. */
    method ClientInto(t: nat, vs: seq<nat>, bs: Bytes) returns (ok: bool)
      requires 5 <= t <= 6 && |vs| == |Widths(t)| && TypeOf(message) == t
      modifies this`message
      ensures ok <==> Build(t, vs, bs).Some?
      ensures ok ==> message == Build(t, vs, bs).value
    {
      if t == 5 {
        message := message.(clientId := vs[0], seqNo := vs[1]);
        var b := BlobInto(message.command, bs);
        if b.None? { return false; }
        message := message.(command := b.value.0);
        return b.value.1 == [];
      }
      if vs[0] > 2 { return false; }
      message := message.(status := vs[0], leaderHint := vs[1]);
      var b := BlobInto(message.result, bs);
      if b.None? { return false; }
      message := message.(result := b.value.0);
      return b.value.1 == [];
    }

    /** Same verdict and same message as decoding afresh, whatever this object held before. */
    method DecodeInto(frame: Bytes) returns (ok: bool)
      modifies this
      ensures ok <==> Decode(frame).Some?
      ensures ok ==> Decoded(from, to, message) == Decode(frame).value
    {
      if |frame| < 12 || |frame| > 12 + MAX_PAYLOAD { return false; }
      var e := ReadNums(frame, ENVELOPE);
      if e.None? { return false; }
      var (h, payload) := e.value;
      from, to := h[2], h[3];
      if h[0] != 1 || h[4] != 0 || !(1 <= h[1] <= 6) || h[5] != |frame| - 12 { return false; }
      var f := ReadNums(payload, Widths(h[1]));
      if f.None? { return false; }
      ok := PayloadInto(h[1], f.value.0, f.value.1);
    }

    method PayloadInto(t: nat, vs: seq<nat>, bs: Bytes) returns (ok: bool)
      requires 1 <= t <= 6 && |vs| == |Widths(t)|
      modifies this`message, this`bufs, this`lists
      ensures ok <==> Build(t, vs, bs).Some?
      ensures ok ==> message == Build(t, vs, bs).value
    {
      BecomeKind(t);
      if t == 3 {
        ok := AppendInto(vs, bs);
      } else if t >= 5 {
        ok := ClientInto(t, vs, bs);
      } else {
        ok := PlainInto(t, vs, bs);
      }
    }
  }
}
