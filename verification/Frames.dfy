/** Length-prefixed frames over a byte stream that arrives in arbitrary pieces. */
module Frames {
  import opened Common
  import opened Wire

  /** Envelope plus the largest payload, 16 MiB. */
  const MAX_FRAME: nat := 12 + 16 * 1024 * 1024

  /** Four bytes, most significant first. */
  function Big(b: Bytes): nat
    requires |b| == 4
  {
    var b0: int, b1: int, b2: int, b3: int := b[0], b[1], b[2], b[3];
    ((b0 * 256 + b1) * 256 + b2) * 256 + b3
  }

  function Prefix(n: nat): (p: Bytes)
    ensures |p| == 4
  {
    [n / 0x100_0000 % 256, n / 0x1_0000 % 256, n / 0x100 % 256, n % 256]
  }

  lemma PrefixReadsBack(n: nat)
    requires n < 0x1_0000_0000
    ensures Big(Prefix(n)) == n
  {
    assert n / 0x100 == n / 256 && n / 0x1_0000 == n / 256 / 256 && n / 0x100_0000 == n / 256 / 256 / 256;
  }

  function Framed(body: Bytes): Bytes { Prefix(|body|) + body }

  /** Frames taken off the front of a stream, the bytes left over, and whether a bad length was met. */
  datatype Cut = Cut(frames: seq<Bytes>, left: Bytes, poisoned: bool)

  function Split(s: Bytes): Cut
    decreases |s|
  {
    if |s| < 4 then Cut([], s, false)
    else
      var len := Big(s[..4]);
      if len == 0 || len > MAX_FRAME then Cut([], [], true)
      else if |s| < 4 + len then Cut([], s, false)
      else
        var rest := Split(s[4 + len..]);
        rest.(frames := [s[4..4 + len]] + rest.frames)
  }

  // ---- pieces -------------------------------------------------------------------------------------------

  /** One piece more: the frames of the whole are those of the start, then those of what was left over
      together with the piece. */
  lemma {:induction false} SplitConcat(a: Bytes, b: Bytes)
    ensures var x := Split(a);
            if x.poisoned then Split(a + b) == x
            else var y := Split(x.left + b); Split(a + b) == Cut(x.frames + y.frames, y.left, y.poisoned)
    decreases |a|
  {
    if |a| >= 4 {
      var len := Big(a[..4]);
      SameHead(a, b, len);
      if !(len == 0 || len > MAX_FRAME) && |a| >= 4 + len {
        var rest := a[4 + len..];
        SplitConcat(rest, b);
        SplitFirst(a, len);
        SplitFirst(a + b, len);
        FramesAssociate(a[4..4 + len], Split(rest).frames, Split(Split(rest).left + b).frames);
      }
    }
  }

  lemma SameHead(a: Bytes, b: Bytes, len: nat)
    requires |a| >= 4
    ensures (a + b)[..4] == a[..4]
    ensures |a| >= 4 + len ==> (a + b)[4..4 + len] == a[4..4 + len] && (a + b)[4 + len..] == a[4 + len..] + b
  {}

  /** A whole frame in front comes off first. */
  lemma {:induction false} SplitFirst(s: Bytes, len: nat)
    requires |s| >= 4 && Big(s[..4]) == len && 0 < len <= MAX_FRAME && |s| >= 4 + len
    ensures var rest := Split(s[4 + len..]);
            Split(s) == Cut([s[4..4 + len]] + rest.frames, rest.left, rest.poisoned)
  {}

  lemma FramesAssociate(f: Bytes, x: seq<Bytes>, y: seq<Bytes>)
    ensures [f] + (x + y) == ([f] + x) + y
  {}

  function Flat(pieces: seq<Bytes>): Bytes {
    if pieces == [] then [] else Flat(pieces[..|pieces| - 1]) + pieces[|pieces| - 1]
  }

  /** What a receiver has after a list of pieces. */
  function Received(pieces: seq<Bytes>): Cut {
    if pieces == [] then Cut([], [], false)
    else Fed(Received(pieces[..|pieces| - 1]), pieces[|pieces| - 1])
  }

  /** One call of feed: nothing after a bad length. */
  function Fed(c: Cut, data: Bytes): Cut {
    if c.poisoned then c
    else var y := Split(c.left + data); Cut(c.frames + y.frames, y.left, y.poisoned)
  }

  /** However the stream is cut up, the same frames come out and a bad length stops it at the same point. */
  lemma {:induction false} FragmentationIrrelevant(pieces: seq<Bytes>)
    ensures Received(pieces) == Split(Flat(pieces))
  {
    if pieces != [] {
      var n := |pieces| - 1;
      FragmentationIrrelevant(pieces[..n]);
      SplitConcat(Flat(pieces[..n]), pieces[n]);
    }
  }

  // ---- sending and receiving ----------------------------------------------------------------------------------

  function Sent(bodies: seq<Bytes>): Bytes {
    if bodies == [] then [] else Framed(bodies[0]) + Sent(bodies[1..])
  }

  /** Frames sent are the frames received. */
  lemma {:induction false} SentIsReceived(bodies: seq<Bytes>)
    requires forall k :: 0 <= k < |bodies| ==> 0 < |bodies[k]| <= MAX_FRAME
    ensures Split(Sent(bodies)) == Cut(bodies, [], false)
  {
    if bodies != [] {
      SentIsReceived(bodies[1..]);
      var s, n := Sent(bodies), |bodies[0]|;
      assert s[..4] == Prefix(n) && s[4..4 + n] == bodies[0] && s[4 + n..] == Sent(bodies[1..]);
      PrefixReadsBack(n);
    }
  }

  // ---- what every stream is -----------------------------------------------------------------------------------

  lemma PrefixOfBig(b: Bytes)
    requires |b| == 4
    ensures Prefix(Big(b)) == b
  {
    var b0: int, b1: int, b2: int, b3: int := b[0], b[1], b[2], b[3];
    var n := Big(b);
    assert n == b0 * 0x100_0000 + b1 * 0x1_0000 + b2 * 0x100 + b3;
    assert n / 0x100_0000 == b0 && n / 0x1_0000 == b0 * 0x100 + b1 && n / 0x100 == b0 * 0x1_0000 + b1 * 0x100 + b2;
  }

  /** A length no frame may have: zero, or more than the 12-byte envelope and 16 MiB of payload. */
  predicate BadLength(s: Bytes) { |s| >= 4 && (Big(s[..4]) == 0 || Big(s[..4]) > 16777228) }

  /** A frame of an allowed length that has begun and not ended. */
  predicate Unfinished(s: Bytes) {
    |s| < 4 || (0 < Big(s[..4]) <= 16777228 && |s| < 4 + Big(s[..4]))
  }

  /** Taken apart: whole frames of allowed lengths, then an unfinished one, which is kept, or a bad length. */
  ghost predicate Decomposed(s: Bytes, c: Cut, tail: Bytes) {
    && s == Sent(c.frames) + tail
    && (forall k :: 0 <= k < |c.frames| ==> 0 < |c.frames[k]| <= 16777228)
    && (if c.poisoned then BadLength(tail) && c.left == [] else Unfinished(tail) && c.left == tail)
  }

  /** Every stream is some whole frames and then either an unfinished one or a bad length; the splitter
      delivers those frames, keeps the unfinished one, and is poisoned exactly by the bad length. */
  lemma {:induction false} SplitDecomposes(s: Bytes) returns (tail: Bytes)
    ensures Decomposed(s, Split(s), tail)
    decreases |s|
  {
    if Unfinished(s) || BadLength(s) {
      tail := s;
      StopsAt(s);
      assert Sent([]) + s == s;
    } else {
      var len := Big(s[..4]);
      var rest := s[4 + len..];
      tail := SplitDecomposes(rest);
      SplitFirst(s, len);
      PrefixOfBig(s[..4]);
      OneMore(s, len, Split(rest), tail);
    }
  }

  lemma {:induction false} OneMore(s: Bytes, len: nat, c: Cut, tail: Bytes)
    requires |s| >= 4 + len && s[..4] == Prefix(len) && 0 < len <= 16777228 && Decomposed(s[4 + len..], c, tail)
    ensures Decomposed(s, Cut([s[4..4 + len]] + c.frames, c.left, c.poisoned), tail)
  {
    var f := s[4..4 + len];
    assert ([f] + c.frames)[1..] == c.frames;
    assert s == s[..4] + f + s[4 + len..];
  }

  /** No stream can be taken apart in two ways. */
  lemma {:induction false} SplitExactly(bodies: seq<Bytes>, tail: Bytes)
    requires forall k :: 0 <= k < |bodies| ==> 0 < |bodies[k]| <= 16777228
    requires BadLength(tail) || Unfinished(tail)
    ensures Split(Sent(bodies) + tail)
            == if BadLength(tail) then Cut(bodies, [], true) else Cut(bodies, tail, false)
  {
    SentIsReceived(bodies);
    SplitConcat(Sent(bodies), tail);
    assert [] + tail == tail;
    StopsAt(tail);
  }

  lemma StopsAt(tail: Bytes)
    requires BadLength(tail) || Unfinished(tail)
    ensures Split(tail) == if BadLength(tail) then Cut([], [], true) else Cut([], tail, false)
  {}

  // ---- the assembler --------------------------------------------------------------------------------------------

  function Prepended(fs: seq<Bytes>, c: Cut): Cut { c.(frames := fs + c.frames) }

  lemma PrependedSnoc(fs: seq<Bytes>, f: Bytes, c: Cut)
    ensures Prepended(fs, Prepended([f], c)) == Prepended(fs + [f], c)
  {
    assert fs + ([f] + c.frames) == (fs + [f]) + c.frames;
  }

  /** The next frame at the front of the buffer, if it is complete. */
  method Next(buf: Bytes) returns (bad: bool, body: Option<Bytes>, rest: Bytes)
    ensures bad ==> Split(buf) == Cut([], [], true)
    ensures !bad && body.None? ==> Split(buf) == Cut([], buf, false)
    ensures !bad && body.Some? ==> |rest| < |buf| && Split(buf) == Prepended([body.value], Split(rest))
  {
    if |buf| < 4 { return false, None, buf; }
    var len := Big(buf[..4]);
    if len == 0 || len > MAX_FRAME { return true, None, []; }
    if |buf| < 4 + len { return false, None, buf; }
    return false, Some(buf[4..4 + len]), buf[4 + len..];
  }

  class FrameAssembler {
    var buf: Bytes
    var poisoned: bool

    constructor ()
      ensures buf == [] && !poisoned
    {
      buf, poisoned := [], false;
    }

    /** Append data and deliver every frame completed by it. */
    method Feed(data: Bytes) returns (ok: bool, frames: seq<Bytes>)
      modifies this
      ensures old(poisoned) ==> !ok && frames == [] && buf == old(buf) && poisoned
      ensures !old(poisoned) ==> Cut(frames, buf, poisoned) == Split(old(buf) + data) && ok == !poisoned
    {
      frames := [];
      if poisoned { return false, []; }
      ghost var whole := Split(buf + data);
      buf := buf + data;
      var more := true;
      while more
        invariant !poisoned && whole == Prepended(frames, Split(buf))
        invariant !more ==> Split(buf) == Cut([], buf, false)
        decreases more, |buf|
      {
        var bad, body, rest := Next(buf);
        if bad {
          poisoned := true;
          buf := [];
          return false, frames;
        }
        if body.None? {
          more := false;
        } else {
          PrependedSnoc(frames, body.value, Split(rest));
          frames := frames + [body.value];
          buf := rest;
        }
      }
      return true, frames;
    }

    method Reset()
      modifies this
      ensures buf == [] && !poisoned
    {
      buf, poisoned := [], false;
    }
  }

}
