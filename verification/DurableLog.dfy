/** The durable log: a file of records, the entries in memory and the offset of every record. */
module DurableLog {
  import opened Wire
  import opened RaftTypes
  import opened RecordLog
  import LogFormat
  import Crc32c

  /** Where each record starts. */
  function OffsetsOf(c: Codec, es: Log): (o: seq<nat>)
    ensures |o| == |es| && forall k :: 0 <= k < |es| ==> o[k] == |Image(c, es, k)|
  {
    seq(|es|, k requires 0 <= k < |es| => |Image(c, es, k)|)
  }

  lemma OffsetsSnoc(c: Codec, es: Log, e: Entry)
    ensures OffsetsOf(c, es + [e]) == OffsetsOf(c, es) + [|FileOf(c, es)|]
  {
    var all := es + [e];
    forall k | 0 <= k <= |es| ensures Image(c, all, k) == Image(c, es, k) {
      assert all[..k] == es[..k];
      ImageAgrees(c, all, es, k);
    }
  }

  lemma OffsetsTake(c: Codec, es: Log, n: nat)
    requires n <= |es|
    ensures OffsetsOf(c, es[..n]) == OffsetsOf(c, es)[..n]
  {
    forall k | 0 <= k < n ensures Image(c, es[..n], k) == Image(c, es, k) {
      assert es[..n][..k] == es[..k];
      ImageAgrees(c, es[..n], es, k);
    }
  }

  /** A record read keeps file, entries and offsets in step. */
  lemma ReadOneMore(c: Codec, file: Bytes, es: Log, off: nat, e: Entry, n: nat)
    requires Lawful(c) && AllFit(c, es) && off <= |file| && file[..off] == FileOf(c, es)
    requires c.parse(file[off..], |es| + 1) == Good(e, n)
    ensures 0 < n && off + n <= |file| && AllFit(c, es + [e]) && file[..off + n] == FileOf(c, es + [e])
    ensures OffsetsOf(c, es + [e]) == OffsetsOf(c, es) + [off]
    ensures off < |file| && ReplayFrom(c, file, es, off) == ReplayFrom(c, file, es + [e], off + n)
  {
    assert AcceptsOnlyRecords(c, file[off..], |es| + 1);
    AppendGrows(c, es, e);
    OffsetsSnoc(c, es, e);
    KeptPart(file, off, n);
  }

  lemma KeptPart(file: Bytes, off: nat, n: nat)
    requires off + n <= |file|
    ensures file[..off + n] == file[..off] + file[off..][..n]
  {}

  ghost predicate WritesAsDisk(c: Codec, i: nat, e: Entry) {
    c.record(i, e) == LogFormat.Disk().record(i, e) && c.fits(i, e) == LogFormat.Fits(i, e)
  }

  ghost predicate ReadsAsDisk(c: Codec, bs: Bytes, i: nat) { c.parse(bs, i) == LogFormat.Disk().parse(bs, i) }

  /** The record format in use; what a record looks like inside is of no concern to the log. */
  ghost predicate OnDisk(c: Codec) {
    && Lawful(c)
    && (forall i, e {:trigger WritesAsDisk(c, i, e)} :: WritesAsDisk(c, i, e))
    && (forall bs, i {:trigger ReadsAsDisk(c, bs, i)} :: ReadsAsDisk(c, bs, i))
  }

  lemma DiskOnDisk()
    ensures OnDisk(LogFormat.Disk())
  {
    LogFormat.DiskLawful();
  }

  class DurableLog {
    const table: seq<Crc32c.Word>
    ghost const codec: Codec
    var file: Bytes
    var entries: Log
    var offsets: seq<nat>
    var size: nat
    var tornBytes: nat

    ghost predicate Equipped() { Crc32c.IsTable(table) && OnDisk(codec) }

    /** The file holds exactly the entries, and every record is where the offsets say. */
    ghost predicate Valid()
      reads this
    {
      && Equipped() && AllFit(codec, entries)
      && file == FileOf(codec, entries) && size == |file| && offsets == OffsetsOf(codec, entries)
    }

    /** A file as found at boot, before replay. */
    constructor (file: Bytes)
      ensures Equipped() && this.file == file && entries == [] && offsets == [] && size == 0 && tornBytes == 0
    {
      var t := Crc32c.MakeTable();
      DiskOnDisk();
      this.table, this.codec := t, LogFormat.Disk();
      this.file, entries, offsets, size, tornBytes := file, [], [], 0, 0;
    }

    method Encode(index: nat, e: Entry) returns (rec: Bytes)
      requires Equipped()
      ensures rec == codec.record(index, e)
    {
      assert WritesAsDisk(codec, index, e);
      rec := LogFormat.EncodeRecord(table, index, e);
    }

    method ReadAt(off: nat) returns (p: Parsed)
      requires Equipped() && off <= |file|
      ensures p == codec.parse(file[off..], |entries| + 1)
    {
      assert ReadsAsDisk(codec, file[off..], |entries| + 1);
      p := LogFormat.ReadRecord(table, file[off..], |entries| + 1);
    }

    lemma RecordSize(index: nat, e: Entry)
      requires Equipped()
      ensures |codec.record(index, e)| == 24 + |e.command|
    {
      assert WritesAsDisk(codec, index, e);
    }

    /** Boot: read every record, discard a torn tail, refuse a corrupt file. */
    method Open() returns (ok: bool)
      requires Equipped() && entries == [] && offsets == [] && size == 0
      modifies this
      ensures ok ==> Valid() && Replay(codec, old(file)) == Recovered(entries, size, tornBytes)
      ensures ok ==> size <= |old(file)| && file == old(file)[..size]
      ensures !ok ==> Replay(codec, old(file)).Corrupt? && file == old(file)
    {
      var off := 0;
      while off < |file|
        invariant off <= |file| && file == old(file) && AllFit(codec, entries)
        invariant file[..off] == FileOf(codec, entries) && offsets == OffsetsOf(codec, entries)
        invariant ReplayFrom(codec, file, entries, off) == Replay(codec, old(file))
        decreases |file| - off
      {
        var p := ReadAt(off);
        assert AcceptsOnlyRecords(codec, file[off..], |entries| + 1);
        match p {
          case Torn =>
            tornBytes := |file| - off;
            size := off;
            file := file[..off];
            return true;
          case Bad =>
            return false;
          case Good(e, n) =>
            ReadOneMore(codec, file, entries, off, e, n);
            offsets := offsets + [off];
            entries := entries + [e];
            off := off + n;
        }
      }
      size, tornBytes := off, 0;
      return true;
    }

    /** The records of new entries, to be written after those in the file. */
    method Serialize(es: Log) returns (buf: Bytes)
      requires Valid()
      ensures file + buf == FileOf(codec, entries + es)
    {
      buf := [];
      ghost var done := entries;
      for i := 0 to |es|
        invariant done == entries + es[..i] && file + buf == FileOf(codec, done)
      {
        var rec := Encode(|entries| + i + 1, es[i]);
        AppendGrows(codec, done, es[i]);
        assert file + (buf + rec) == (file + buf) + rec;
        buf := buf + rec;
        done := done + [es[i]];
      }
      assert es[..|es|] == es;
    }

    /** Write the records of all new entries at the end of the file in one go. */
    method Append(es: Log)
      requires Valid() && AllFit(codec, entries + es)
      modifies this
      ensures Valid() && entries == old(entries) + es && old(file) <= file
    {
      var buf := Serialize(es);
      var off := size;
      file := file[..size] + buf;
      ghost var before := entries;
      for i := 0 to |es|
        invariant entries == before + es[..i] && offsets == OffsetsOf(codec, entries)
        invariant off == |FileOf(codec, entries)| && file == FileOf(codec, before + es)
      {
        OffsetsSnoc(codec, entries, es[i]);
        AppendGrows(codec, entries, es[i]);
        offsets := offsets + [off];
        RecordSize(|entries| + 1, es[i]);
        off := off + 24 + |es[i].command|;
        entries := entries + [es[i]];
      }
      assert es[..|es|] == es;
      size := off;
    }

    /** Cut the file at the offset of entry i and drop it and everything above. */
    method TruncateSuffixFrom(from: nat)
      requires Valid()
      modifies this
      ensures Valid() && entries == TruncatedFrom(old(entries), from) && file <= old(file)
    {
      var i := if from < 1 then 1 else from;
      if i > |entries| { return; }
      TruncateAtRecord(codec, entries, i - 1);
      OffsetsTake(codec, entries, i - 1);
      var newSize := offsets[i - 1];
      file := file[..newSize];
      size := newSize;
      offsets := offsets[..i - 1];
      entries := entries[..i - 1];
    }
  }
}
