/** A file of records back to back, and how it is read back after a crash, for any record codec. */
module RecordLog {
  import opened Wire
  import opened RaftTypes

  /** What replay makes of the bytes from one record boundary to the end of the file. */
  datatype Parsed = Torn | Bad | Good(entry: Entry, extent: nat)

  datatype Codec = Codec(fits: (nat, Entry) -> bool, record: (nat, Entry) -> Bytes, parse: (Bytes, nat) -> Parsed)

  /** A record written is a record read, whatever follows it. */
  ghost predicate ReadsBack(c: Codec, i: nat, e: Entry, rest: Bytes) {
    c.fits(i, e) ==> c.parse(c.record(i, e) + rest, i) == Good(e, |c.record(i, e)|)
  }

  /** A record cut short anywhere reads as torn. */
  ghost predicate CutIsTorn(c: Codec, i: nat, e: Entry, m: nat) {
    c.fits(i, e) && m < |c.record(i, e)| ==> c.parse(c.record(i, e)[..m], i) == Torn
  }

  /** Whatever the bytes, a record that is accepted is the encoding of the entry it yields. */
  ghost predicate AcceptsOnlyRecords(c: Codec, bs: Bytes, i: nat) {
    var p := c.parse(bs, i);
    p.Good? ==> 0 < p.extent <= |bs| && c.fits(i, p.entry) && bs[..p.extent] == c.record(i, p.entry)
  }

  ghost predicate Lawful(c: Codec) {
    && (forall i, e, rest {:trigger ReadsBack(c, i, e, rest)} :: ReadsBack(c, i, e, rest))
    && (forall i, e, m {:trigger CutIsTorn(c, i, e, m)} :: CutIsTorn(c, i, e, m))
    && (forall bs, i {:trigger AcceptsOnlyRecords(c, bs, i)} :: AcceptsOnlyRecords(c, bs, i))
  }

  // ---- files -------------------------------------------------------------------------------------------

  /** The records of the first k entries, back to back. */
  function Image(c: Codec, es: Log, k: nat): Bytes
    requires k <= |es|
  {
    if k == 0 then [] else Image(c, es, k - 1) + c.record(k, es[k - 1])
  }

  /** The file that holds exactly these entries. */
  function FileOf(c: Codec, es: Log): Bytes { Image(c, es, |es|) }

  ghost predicate AllFit(c: Codec, es: Log) { forall k :: 0 <= k < |es| ==> c.fits(k + 1, es[k]) }

  datatype Replayed = Recovered(entries: Log, size: nat, torn: nat) | Corrupt(at: nat)

  /** Record after record from `off` on, entries so far in es. */
  ghost function ReplayFrom(c: Codec, file: Bytes, es: Log, off: nat): Replayed
    requires Lawful(c) && off <= |file|
    decreases |file| - off
  {
    if off == |file| then Recovered(es, off, 0)
    else
      var p := c.parse(file[off..], |es| + 1);
      assert AcceptsOnlyRecords(c, file[off..], |es| + 1);
      match p
      case Torn => Recovered(es, off, |file| - off)
      case Bad => Corrupt(off)
      case Good(e, n) => ReplayFrom(c, file, es + [e], off + n)
  }

  ghost function Replay(c: Codec, file: Bytes): Replayed
    requires Lawful(c)
  {
    ReplayFrom(c, file, [], 0)
  }

  // ---- images --------------------------------------------------------------------------------------------

  lemma {:induction false} ImageAgrees(c: Codec, es: Log, fs: Log, k: nat)
    requires k <= |es| && k <= |fs| && es[..k] == fs[..k]
    ensures Image(c, es, k) == Image(c, fs, k)
    decreases k
  {
    if k > 0 {
      assert es[..k - 1] == es[..k][..k - 1] && fs[..k - 1] == fs[..k][..k - 1];
      assert es[k - 1] == es[..k][k - 1] && fs[k - 1] == fs[..k][k - 1];
      ImageAgrees(c, es, fs, k - 1);
    }
  }

  lemma {:induction false} ImagePrefix(c: Codec, es: Log, j: nat, k: nat)
    requires j <= k <= |es|
    ensures Image(c, es, j) <= Image(c, es, k)
    decreases k
  {
    if j < k { ImagePrefix(c, es, j, k - 1); }
  }

  lemma AppendGrows(c: Codec, es: Log, e: Entry)
    ensures FileOf(c, es + [e]) == FileOf(c, es) + c.record(|es| + 1, e)
  {
    var all := es + [e];
    assert all[..|es|] == es[..|es|];
    ImageAgrees(c, all, es, |es|);
    assert all[|es|] == e;
  }

  lemma TailAfter(file: Bytes, a: Bytes, b: Bytes)
    requires a + b <= file
    ensures file[|a|..] == b + file[|a| + |b|..]
  {
    forall i | 0 <= i < |b| ensures file[|a| + i] == b[i] {
      assert (a + b)[|a| + i] == b[i];
    }
  }

  /** Replay of a file that starts with records gets past them with exactly their entries. */
  lemma {:induction false} ReplayPast(c: Codec, es: Log, k: nat, file: Bytes)
    requires Lawful(c) && AllFit(c, es) && k <= |es| && Image(c, es, k) <= file
    ensures Replay(c, file) == ReplayFrom(c, file, es[..k], |Image(c, es, k)|)
    decreases k
  {
    if k > 0 {
      var a, rec := Image(c, es, k - 1), c.record(k, es[k - 1]);
      ReplayPast(c, es, k - 1, file);
      TailAfter(file, a, rec);
      assert ReadsBack(c, k, es[k - 1], file[|a| + |rec|..]);
      assert AcceptsOnlyRecords(c, file[|a|..], k);
      assert es[..k - 1] + [es[k - 1]] == es[..k];
    }
  }

  /** Clean file: everything back, nothing torn. */
  lemma ReplayImage(c: Codec, es: Log)
    requires Lawful(c) && AllFit(c, es)
    ensures Replay(c, FileOf(c, es)) == Recovered(es, |FileOf(c, es)|, 0)
  {
    ReplayPast(c, es, |es|, FileOf(c, es));
    assert es[..|es|] == es;
  }

  // ---- crashes ---------------------------------------------------------------------------------------------

  /** How many of the first n records lie within the first m bytes. */
  function Whole(c: Codec, es: Log, n: nat, m: nat): (k: nat)
    requires n <= |es|
    ensures k <= n && |Image(c, es, k)| <= m
    ensures k < n ==> m < |Image(c, es, k + 1)|
  {
    if |Image(c, es, n)| <= m then n
    else if |Image(c, es, n - 1)| <= m then n - 1
    else Whole(c, es, n - 1, m)
  }

  lemma CutAfter(file: Bytes, a: Bytes, b: Bytes)
    requires file <= a + b && |a| <= |file|
    ensures |file| - |a| <= |b| && file[|a|..] == b[..|file| - |a|]
  {
    assert forall i :: 0 <= i < |file| ==> file[i] == (a + b)[i];
  }

  /** A crash that leaves any byte prefix of what was written recovers exactly the entries whose records
      are complete, reports the rest as torn, and never as corruption. */
  lemma {:induction false} ReplayCut(c: Codec, es: Log, m: nat)
    requires Lawful(c) && AllFit(c, es) && m <= |FileOf(c, es)|
    ensures var k := Whole(c, es, |es|, m);
            Replay(c, FileOf(c, es)[..m]) == Recovered(es[..k], |Image(c, es, k)|, m - |Image(c, es, k)|)
  {
    CutAt(c, es, Whole(c, es, |es|, m), m);
  }

  lemma CutAt(c: Codec, es: Log, k: nat, m: nat)
    requires Lawful(c) && AllFit(c, es) && k <= |es| && |Image(c, es, k)| <= m <= |FileOf(c, es)|
    requires k < |es| ==> m < |Image(c, es, k + 1)|
    ensures Replay(c, FileOf(c, es)[..m]) == Recovered(es[..k], |Image(c, es, k)|, m - |Image(c, es, k)|)
  {
    ImagePrefix(c, es, k, |es|);
    CutBeyond(Image(c, es, k), FileOf(c, es), m);
    if k < |es| {
      ImagePrefix(c, es, k + 1, |es|);
      CutWithin(Image(c, es, k + 1), FileOf(c, es), m);
      TailIsTorn(c, es, k, FileOf(c, es)[..m]);
    }
    ReplayStops(c, es, k, FileOf(c, es)[..m]);
  }

  /** Whole records, then nothing or a torn one. */
  lemma ReplayStops(c: Codec, es: Log, k: nat, file: Bytes)
    requires Lawful(c) && AllFit(c, es) && k <= |es| && Image(c, es, k) <= file
    requires |Image(c, es, k)| < |file| ==> c.parse(file[|Image(c, es, k)|..], k + 1) == Torn
    ensures Replay(c, file) == Recovered(es[..k], |Image(c, es, k)|, |file| - |Image(c, es, k)|)
  {
    ReplayPast(c, es, k, file);
  }

  lemma CutBeyond(a: Bytes, b: Bytes, m: nat)
    requires a <= b && |a| <= m <= |b|
    ensures a <= b[..m]
  {}

  lemma CutWithin(a: Bytes, b: Bytes, m: nat)
    requires a <= b && m <= |a|
    ensures b[..m] <= a
  {}

  lemma TailIsTorn(c: Codec, es: Log, k: nat, file: Bytes)
    requires Lawful(c) && AllFit(c, es) && k < |es| && |Image(c, es, k)| <= |file| < |Image(c, es, k + 1)|
    requires file <= Image(c, es, k + 1)
    ensures c.parse(file[|Image(c, es, k)|..], k + 1) == Torn
  {
    CutAfter(file, Image(c, es, k), c.record(k + 1, es[k]));
    assert CutIsTorn(c, k + 1, es[k], |file| - |Image(c, es, k)|);
  }

  /** Cut during an append: the old entries all survive, and the new ones as a prefix. */
  lemma CrashDuringAppend(c: Codec, es: Log, more: Log, m: nat)
    requires Lawful(c) && AllFit(c, es + more) && |FileOf(c, es)| <= m <= |FileOf(c, es + more)|
    ensures var all := es + more;
            var k := Whole(c, all, |all|, m);
            && |es| <= k
            && Replay(c, FileOf(c, all)[..m])
                == Recovered(es + more[..k - |es|], |Image(c, all, k)|, m - |Image(c, all, k)|)
  {
    var all := es + more;
    var k := Whole(c, all, |all|, m);
    ReplayCut(c, all, m);
    assert all[..|es|] == es[..|es|];
    ImageAgrees(c, all, es, |es|);
    if k < |es| { ImagePrefix(c, all, k + 1, |es|); }
    assert all[..k] == es + more[..k - |es|];
  }

  /** Truncating the file at a record's offset leaves the file of the entries before it. */
  lemma TruncateAtRecord(c: Codec, es: Log, k: nat)
    requires k <= |es|
    ensures |Image(c, es, k)| <= |FileOf(c, es)| && FileOf(c, es)[..|Image(c, es, k)|] == FileOf(c, es[..k])
  {
    ImagePrefix(c, es, k, |es|);
    assert es[..k][..k] == es[..k];
    ImageAgrees(c, es, es[..k], k);
  }

  // ---- soundness -------------------------------------------------------------------------------------------------

  /** For every file: what replay returns is exactly what the kept part of the file encodes. */
  lemma {:induction false} ReplaySound(c: Codec, file: Bytes, es: Log, off: nat)
    requires Lawful(c) && off <= |file| && AllFit(c, es) && file[..off] == FileOf(c, es)
    ensures var r := ReplayFrom(c, file, es, off);
            r.Recovered? ==> r.size + r.torn == |file| && AllFit(c, r.entries) && file[..r.size] == FileOf(c, r.entries)
    decreases |file| - off
  {
    if off < |file| {
      var p := c.parse(file[off..], |es| + 1);
      assert AcceptsOnlyRecords(c, file[off..], |es| + 1);
      if p.Good? {
        AppendGrows(c, es, p.entry);
        assert file[..off + p.extent] == file[..off] + file[off..][..p.extent];
        ReplaySound(c, file, es + [p.entry], off + p.extent);
      }
    }
  }

  /** After recovery the truncated file replays to the same entries with nothing left to discard. */
  lemma ReplayIdempotent(c: Codec, file: Bytes)
    requires Lawful(c) && Replay(c, file).Recovered?
    ensures var r := Replay(c, file);
            && r.size + r.torn == |file| && file[..r.size] == FileOf(c, r.entries)
            && Replay(c, file[..r.size]) == Recovered(r.entries, r.size, 0)
  {
    ReplaySound(c, file, [], 0);
    ReplayImage(c, Replay(c, file).entries);
  }
}
