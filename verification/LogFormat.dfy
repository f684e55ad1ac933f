/** The record format of the durable log: header, command, CRC32C; and the damage it is sure to expose. */
module LogFormat {
  import opened Wire
  import opened RaftTypes
  import opened BitString
  import opened Crc32c
  import opened RecordLog

  /** The CRC32C of bs as the number that is stored. */
  function CrcOf(bs: Bytes): (v: nat)
    ensures v < Pow256(4)
  {
    Powers();
    Pow256Values();
    NumberFits(Crc(bs, Zeros(32)));
    NumberOf(Crc(bs, Zeros(32)))
  }

  // ---- records ---------------------------------------------------------------------------------------

  /** Index, term and command length as the source's 64- and 32-bit fields can hold them. */
  predicate Fits(index: nat, e: Entry) {
    index < Pow256(8) && e.term < Pow256(8) && |e.command| < Pow256(4)
  }

  /** The checksum a record carries; the format works with any that fits its four bytes. */
  type Sum = Bytes -> nat

  ghost predicate FourBytes(sum: Sum) { forall bs :: sum(bs) < Pow256(4) }

  function Header(index: nat, e: Entry): (h: Bytes)
    ensures |h| == 20
  {
    Little(index, 8) + Little(e.term, 8) + Little(|e.command|, 4)
  }

  function Body(index: nat, e: Entry): Bytes { Header(index, e) + e.command }

  function Record(sum: Sum, index: nat, e: Entry): (r: Bytes)
    ensures |r| == 24 + |e.command|
  {
    Body(index, e) + Little(sum(Body(index, e)), 4)
  }

  // ---- reading one record -----------------------------------------------------------------------------

  /** What a record that lies within the file reads as, given the checksum of its header and command. */
  function Verdict(bs: Bytes, index: nat, crc: nat): Parsed
    requires |bs| >= 20 && 24 + Value(bs[16..20]) <= |bs|
  {
    var len := Value(bs[16..20]);
    if Value(bs[20 + len..24 + len]) == crc && Value(bs[..8]) == index
    then Good(Entry(Value(bs[8..16]), bs[20..20 + len]), 24 + len)
    else if 24 + len == |bs| then Torn
    else Bad
  }

  /** A record is torn when it runs past the end of the file or is invalid and ends exactly there. */
  function Parse(sum: Sum, bs: Bytes, index: nat): Parsed {
    if |bs| < 20 || 24 + Value(bs[16..20]) > |bs| then Torn
    else Verdict(bs, index, sum(bs[..20 + Value(bs[16..20])]))
  }

  lemma HeaderFields(index: nat, e: Entry)
    requires Fits(index, e)
    ensures var h := Header(index, e);
            Value(h[..8]) == index && Value(h[8..16]) == e.term && Value(h[16..20]) == |e.command|
  {
    var h := Header(index, e);
    assert h[..8] == Little(index, 8) && h[8..16] == Little(e.term, 8) && h[16..20] == Little(|e.command|, 4);
    ValueOfLittle(index, 8);
    ValueOfLittle(e.term, 8);
    ValueOfLittle(|e.command|, 4);
  }

  /** Where header, command and checksum lie. */
  lemma Layout(h: Bytes, c: Bytes, crc: Bytes, rest: Bytes)
    requires |h| == 20 && |crc| == 4
    ensures var bs, n := h + c + crc + rest, |c|;
            && bs[..8] == h[..8] && bs[8..16] == h[8..16] && bs[16..20] == h[16..20]
            && bs[20..20 + n] == c && bs[..20 + n] == h + c && bs[20 + n..24 + n] == crc
  {}

  /** A record written is a record read, whatever follows it. */
  lemma ParseRecord(sum: Sum, index: nat, e: Entry, rest: Bytes)
    requires Fits(index, e) && FourBytes(sum)
    ensures Parse(sum, Record(sum, index, e) + rest, index) == Good(e, |Record(sum, index, e)|)
  {
    var h, b := Header(index, e), Body(index, e);
    HeaderFields(index, e);
    Layout(h, e.command, Little(sum(b), 4), rest);
    ValueOfLittle(sum(b), 4);
  }

  /** A record cut short anywhere reads as torn. */
  lemma ParseCut(sum: Sum, index: nat, e: Entry, m: nat)
    requires Fits(index, e) && m < |Record(sum, index, e)|
    ensures Parse(sum, Record(sum, index, e)[..m], index) == Torn
  {
    var bs := Record(sum, index, e)[..m];
    HeaderFields(index, e);
    if m >= 20 {
      assert bs[16..20] == Record(sum, index, e)[16..20] == Header(index, e)[16..20];
      assert Value(bs[16..20]) == |e.command|;
    }
  }

  /** A record is its header fields, its command and its checksum. */
  lemma Pieces(bs: Bytes, len: nat)
    requires 24 + len <= |bs|
    ensures bs[..20 + len] == bs[..8] + bs[8..16] + bs[16..20] + bs[20..20 + len]
    ensures bs[..24 + len] == bs[..20 + len] + bs[20 + len..24 + len]
  {}

  /** Whatever bytes they are, a record that is accepted is the encoding of the entry it yields. */
  lemma ParseExact(sum: Sum, bs: Bytes, index: nat)
    requires Parse(sum, bs, index).Good?
    ensures var g := Parse(sum, bs, index);
            g.extent <= |bs| && Fits(index, g.entry) && bs[..g.extent] == Record(sum, index, g.entry)
  {
    var g := Parse(sum, bs, index);
    var len := Value(bs[16..20]);
    LittleOfValue(bs[..8]);
    LittleOfValue(bs[8..16]);
    LittleOfValue(bs[16..20]);
    LittleOfValue(bs[20 + len..24 + len]);
    Pieces(bs, len);
    assert Body(index, g.entry) == bs[..20 + len];
  }

  // ---- the codec --------------------------------------------------------------------------------------

  function Format(sum: Sum): Codec {
    Codec(Fits, (i: nat, e: Entry) => Record(sum, i, e), (bs: Bytes, i: nat) => Parse(sum, bs, i))
  }

  lemma FormatLawful(sum: Sum)
    requires FourBytes(sum)
    ensures Lawful(Format(sum))
  {
    var c := Format(sum);
    forall i, e, rest ensures ReadsBack(c, i, e, rest) {
      if Fits(i, e) { ParseRecord(sum, i, e, rest); }
    }
    forall i, e, m: nat ensures CutIsTorn(c, i, e, m) {
      if Fits(i, e) && m < |Record(sum, i, e)| { ParseCut(sum, i, e, m); }
    }
    forall bs, i ensures AcceptsOnlyRecords(c, bs, i) {
      if Parse(sum, bs, i).Good? { ParseExact(sum, bs, i); }
    }
  }

  /** The format in use: CRC32C. */
  function Disk(): Codec { Format(CrcOf) }

  lemma DiskLawful()
    ensures Lawful(Disk())
  {
    FormatLawful(CrcOf);
  }

  // ---- the same with the checksum table -----------------------------------------------------------------

  method TableCrc(table: seq<Word>, bs: Bytes) returns (v: nat)
    requires IsTable(table)
    ensures v == CrcOf(bs)
  {
    var w := Checksum(table, bs, Zeros(32));
    v := NumberOf(w);
  }

  method EncodeRecord(table: seq<Word>, index: nat, e: Entry) returns (rec: Bytes)
    requires IsTable(table)
    ensures rec == Disk().record(index, e)
  {
    var body := Little(index, 8) + Little(e.term, 8) + Little(|e.command|, 4) + e.command;
    var crc := TableCrc(table, body);
    rec := body + Little(crc, 4);
  }

  method ReadRecord(table: seq<Word>, rest: Bytes, index: nat) returns (p: Parsed)
    requires IsTable(table)
    ensures p == Disk().parse(rest, index)
  {
    if |rest| < 20 || 24 + Value(rest[16..20]) > |rest| { return Torn; }
    var crc := TableCrc(table, rest[..20 + Value(rest[16..20])]);
    p := Verdict(rest, index, crc);
  }

  // ---- damage ----------------------------------------------------------------------------------------------------

  /** A damaged window of a record that does not touch the length field. */
  ghost predicate Window(at: nat, n: nat) { n <= 4 && (at + n <= 16 || 20 <= at) }

  /** A record with up to four consecutive bytes changed is not accepted. */
  lemma DamageRejected(index: nat, e: Entry, before: Bytes, x: Bytes, y: Bytes, after: Bytes, rest: Bytes)
    requires Fits(index, e) && Record(CrcOf, index, e) == before + x + after
    requires |x| == |y| && x != y && Window(|before|, |x|)
    ensures Parse(CrcOf, before + y + after + rest, index) == if rest == [] then Torn else Bad
  {
    RecordFields(CrcOf, index, e);
    DamagedBytes(Record(CrcOf, index, e), |e.command|, before, x, y, after);
    InvalidParse(CrcOf, before + y + after, rest, |e.command|, index);
  }

  lemma RecordFields(sum: Sum, index: nat, e: Entry)
    requires Fits(index, e) && FourBytes(sum)
    ensures var rec, n := Record(sum, index, e), |e.command|;
            Value(rec[16..20]) == n && Value(rec[20 + n..24 + n]) == sum(rec[..20 + n])
  {
    var b := Body(index, e);
    HeaderFields(index, e);
    Layout(Header(index, e), e.command, Little(sum(b), 4), []);
    assert Record(sum, index, e) + [] == Record(sum, index, e);
    ValueOfLittle(sum(b), 4);
  }

  lemma InvalidParse(sum: Sum, rec: Bytes, rest: Bytes, n: nat, index: nat)
    requires |rec| == 24 + n && Value(rec[16..20]) == n && Value(rec[20 + n..24 + n]) != sum(rec[..20 + n])
    ensures Parse(sum, rec + rest, index) == if rest == [] then Torn else Bad
  {
    var bs := rec + rest;
    assert bs[16..20] == rec[16..20] && bs[20 + n..24 + n] == rec[20 + n..24 + n] && bs[..20 + n] == rec[..20 + n];
  }

  /** Damage leaves the length field alone and breaks the agreement of body and checksum. */
  lemma DamagedBytes(rec: Bytes, n: nat, before: Bytes, x: Bytes, y: Bytes, after: Bytes)
    requires |rec| == 24 + n && rec == before + x + after
    requires Value(rec[20 + n..24 + n]) == CrcOf(rec[..20 + n])
    requires |x| == |y| && x != y && Window(|before|, |x|)
    ensures var bad := before + y + after;
            bad[16..20] == rec[16..20] && Value(bad[20 + n..24 + n]) != CrcOf(bad[..20 + n])
  {
    LengthKept(n, before, x, y, after);
    if Value((before + y + after)[20 + n..24 + n]) == CrcOf((before + y + after)[..20 + n]) {
      ValidResidue(rec, n);
      ValidResidue(before + y + after, n);
      BurstDetected(before, x, y, after, Zeros(32));
    }
  }

  /** Records that pass the check all have one checksum, taken over body and stored checksum together. */
  lemma ValidResidue(rec: Bytes, n: nat)
    requires |rec| == 24 + n && Value(rec[20 + n..24 + n]) == CrcOf(rec[..20 + n])
    ensures Crc(rec, Zeros(32)) == Not(Shifts(32, Not(Zeros(32))))
  {
    assert rec[20 + n..24 + n] == rec[20 + n..];
    SelfChecked(rec, 20 + n, Zeros(32));
  }

  lemma LengthKept(n: nat, before: Bytes, x: Bytes, y: Bytes, after: Bytes)
    requires |x| == |y| && |before + x + after| == 24 + n && Window(|before|, |x|)
    ensures (before + y + after)[16..20] == (before + x + after)[16..20]
  {
    if |before| + |x| > 16 {
      assert (before + y + after)[16..20] == before[16..20] == (before + x + after)[16..20];
    } else {
      var at := 16 - |before| - |x|;
      assert (before + y + after)[16..20] == after[at..at + 4] == (before + x + after)[16..20];
    }
  }

  /** Damage to an entry of a stored log never goes unnoticed: damage to the last record costs that
      record, damage to any other stops recovery at that record. */
  lemma DamageNoticed(es: Log, k: nat, before: Bytes, x: Bytes, y: Bytes, after: Bytes, rest: Bytes)
    requires Lawful(Disk()) && AllFit(Disk(), es) && k < |es|
    requires Record(CrcOf, k + 1, es[k]) == before + x + after
    requires FileOf(Disk(), es) == Image(Disk(), es, k) + Record(CrcOf, k + 1, es[k]) + rest
    requires |x| == |y| && x != y && Window(|before|, |x|)
    ensures var off := |Image(Disk(), es, k)|;
            Replay(Disk(), Image(Disk(), es, k) + (before + y + after) + rest)
            == if rest == [] then Recovered(es[..k], off, |before + y + after|) else Corrupt(off)
  {
    assert Disk().fits(k + 1, es[k]);
    DamageRejected(k + 1, es[k], before, x, y, after, rest);
    Stopped(Disk(), es, k, before + y + after, rest);
  }

  /** The length field is the exception: damaged so that the record seems to run past the end of the file, it
      reads as a torn tail, and the record and everything after it are dropped without complaint. */
  lemma LengthDamageReadsTorn(es: Log, k: nat, len: Bytes, rest: Bytes)
    requires Lawful(Disk()) && AllFit(Disk(), es) && k < |es| && |len| == 4
    requires 24 + Value(len) > |Record(CrcOf, k + 1, es[k])| + |rest|
    ensures var rec := Record(CrcOf, k + 1, es[k]);
            var tail := rec[..16] + len + (rec[20..] + rest);
            Replay(Disk(), Image(Disk(), es, k) + tail) == Recovered(es[..k], |Image(Disk(), es, k)|, |tail|)
  {
    var rec := Record(CrcOf, k + 1, es[k]);
    PastTheEnd(CrcOf, rec[..16], len, rec[20..] + rest, k + 1);
    TornTail(Disk(), es, k, rec[..16] + len + (rec[20..] + rest));
  }

  lemma PastTheEnd(sum: Sum, a: Bytes, len: Bytes, more: Bytes, index: nat)
    requires |a| == 16 && |len| == 4 && 24 + Value(len) > 20 + |more|
    ensures Parse(sum, a + len + more, index) == Torn
  {
    assert (a + len + more)[16..20] == len;
  }

  lemma TornTail(c: Codec, es: Log, k: nat, tail: Bytes)
    requires Lawful(c) && AllFit(c, es) && k < |es| && c.parse(tail, k + 1) == Torn
    ensures Replay(c, Image(c, es, k) + tail) == Recovered(es[..k], |Image(c, es, k)|, |tail|)
  {
    assert (Image(c, es, k) + tail)[|Image(c, es, k)|..] == tail;
    ReplayStops(c, es, k, Image(c, es, k) + tail);
  }

  /** Replay stops at a record that is not accepted. */
  lemma Stopped(c: Codec, es: Log, k: nat, bad: Bytes, rest: Bytes)
    requires Lawful(c) && AllFit(c, es) && k < |es| && bad != []
    requires c.parse(bad + rest, k + 1) == if rest == [] then Torn else Bad
    ensures var off := |Image(c, es, k)|;
            Replay(c, Image(c, es, k) + bad + rest)
            == if rest == [] then Recovered(es[..k], off, |bad|) else Corrupt(off)
  {
    var file := Image(c, es, k) + bad + rest;
    ReplayPast(c, es, k, file);
    assert file[|Image(c, es, k)|..] == bad + rest;
  }
}
