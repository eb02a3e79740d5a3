/**
 * What replay of a whole file guarantees: torn writes, truncation, later
 * appends, single-byte corruption, and replay from the middle.
 */
module ReplayLaws {
  import opened Bytes
  import opened Crc
  import opened Record
  import opened Replay

  /** The cursor of a replay from offset 0 after `k` records. */
  function RecordStart(file: seq<byte>, k: nat): Cursor
    requires Replayable(file) && k <= |ReplayFrom(file, 0).ops|
  {
    After(file, Portable(file), StartCursor(Portable(file), 0), k)
  }

  /** Replay gets past the header: the file is legacy, or its version 3 header is valid. */
  predicate Replayable(file: seq<byte>) {
    file != [] && (Portable(file) ==> HeaderValid(file))
  }

  // ------------------------------------------------------------ torn writes

  lemma LogParts(generation: nat, ops: seq<Op>, cut: nat)
    requires cut <= |LogBytes(generation, ops)|
    ensures |LogBytes(generation, ops)| == BoundaryOf(ops)
    ensures var file := LogBytes(generation, ops)[..cut];
            && Portable(file)
            && (cut >= HEADER_LENGTH ==> file[..HEADER_LENGTH] == Header(generation))
  {
    hide Frames, Crc32;
    FramesSize(ops, 1);
    var file := LogBytes(generation, ops)[..cut];
    assert Header(generation)[..4] == MAGIC;
    var n := if cut < 4 then cut else 4;
    assert file[..n] == Header(generation)[..4][..n];
  }

  /** Replay of a cut log, from 0 or from any boundary the cut keeps. */
  lemma TornReplay(generation: nat, ops: seq<Op>, cut: nat, j: nat)
    requires GenerationFits(generation) && AllBounded(ops) && |ops| < U64_LIMIT
    requires j <= |ops| && BoundaryOf(ops[..j]) <= cut <= |LogBytes(generation, ops)|
    ensures var r := ReplayFrom(LogBytes(generation, ops)[..cut], BoundaryOf(ops[..j]));
            var n := Whole(ops[j..], cut - BoundaryOf(ops[..j]));
            && r.ops == ops[j..][..n]
            && r.lastGood == BoundaryOf(ops[..j + n])
            && r.status == (if cut == BoundaryOf(ops[..j + n]) then CleanEof else PartialRecord)
            && r.generation == generation
            && (n > 0 ==> r.lastSequence == j + n)
            && (n == 0 ==> r.lastSequence == 0)
  {
    hide Header, Crc32, Frames, HeaderValid, FromLE, Whole, Size, Scan, LogBytes, Portable, AllBounded, Bounded;
    var file, p := LogBytes(generation, ops)[..cut], BoundaryOf(ops[..j]);
    LogParts(generation, ops, cut);
    HeaderReadsBack(generation, file);
    var rest := ops[j..];
    TornTail(generation, ops, cut, j);
    ScanTail(file, generation, ops, j);
  }

  /** Scanning a cut log from a boundary. */
  lemma ScanTail(file: seq<byte>, generation: nat, ops: seq<Op>, j: nat)
    requires AllBounded(ops) && |ops| < U64_LIMIT && j <= |ops|
    requires var p, rest := BoundaryOf(ops[..j]), ops[j..];
             && p <= |file| <= p + Size(rest) && |Frames(rest, j + 1)| == Size(rest)
             && file[p..] == Frames(rest, j + 1)[..|file| - p]
    ensures var p, rest := BoundaryOf(ops[..j]), ops[j..];
            var n := Whole(rest, |file| - p);
            && Scan(file, true, StartCursor(true, p)).ops == rest[..n]
            && Scan(file, true, StartCursor(true, p)).status == (if |file| == BoundaryOf(ops[..j + n]) then CleanEof else PartialRecord)
            && Scan(file, true, StartCursor(true, p)).end.pos == BoundaryOf(ops[..j + n])
            && (n > 0 ==> Scan(file, true, StartCursor(true, p)).end.expected == Exactly(j + 1 + n))
            && (n == 0 ==> Scan(file, true, StartCursor(true, p)).end.expected == StartCursor(true, p).expected)
            && (j == 0 ==> p == HEADER_LENGTH) && (j > 0 ==> p > HEADER_LENGTH)
  {
    hide Frames, Whole, Size, Scan, Bounded;
    var p, rest := BoundaryOf(ops[..j]), ops[j..];
    var n := Whole(rest, |file| - p);
    SizePositive(ops[..j]);
    SizeNone();
    assert ops[..0] == [];
    ScanFrames(file, StartCursor(true, p), rest, j + 1);
    SizeAppend(ops[..j], rest[..n]);
    assert ops[..j] + rest[..n] == ops[..j + n];
  }

  lemma SizeNone()
    ensures Size([]) == 0
  {
  }

  lemma SizePositive(ops: seq<Op>)
    ensures ops != [] ==> Size(ops) > 0
  {
  }

  /** What a cut log holds from a boundary on. */
  lemma TornTail(generation: nat, ops: seq<Op>, cut: nat, j: nat)
    requires j <= |ops| && BoundaryOf(ops[..j]) <= cut <= |LogBytes(generation, ops)|
    ensures var p := BoundaryOf(ops[..j]);
            var rest := ops[j..];
            && |Frames(rest, j + 1)| == Size(rest)
            && cut <= p + Size(rest)
            && LogBytes(generation, ops)[..cut][p..] == Frames(rest, j + 1)[..cut - p]
  {
    hide Header, Frames, Size;
    var p, rest := BoundaryOf(ops[..j]), ops[j..];
    assert ops == ops[..j] + rest;
    FramesAppend(ops[..j], rest, 1);
    FramesSize(ops[..j], 1);
    FramesSize(rest, j + 1);
    var head, tail := Header(generation) + Frames(ops[..j], 1), Frames(rest, j + 1);
    Regroup(Header(generation), Frames(ops[..j], 1), tail);
    assert LogBytes(generation, ops) == head + tail && |head| == p;
    assert (head + tail)[..cut] == head + tail[..cut - p];
    assert (head + tail[..cut - p])[p..] == tail[..cut - p];
  }

  /** Where the (i+1)-th record of a log lies: its frame, carrying sequence i+1. */
  lemma FrameAt(generation: nat, ops: seq<Op>, i: nat)
    requires i < |ops|
    ensures BoundaryOf(ops[..i]) <= BoundaryOf(ops[..i + 1]) <= |LogBytes(generation, ops)|
    ensures LogBytes(generation, ops)[BoundaryOf(ops[..i])..BoundaryOf(ops[..i + 1])] == Frame(i + 1, ops[i])
  {
    hide LogBytes, Frame, FrameSize;
    LogParts(generation, ops, 0);
    var p, q, all := BoundaryOf(ops[..i]), BoundaryOf(ops[..i + 1]), LogBytes(generation, ops);
    SizeAppend(ops[..i], [ops[i]]);
    assert ops[..i] + [ops[i]] == ops[..i + 1];
    assert Size([ops[i]]) == FrameSize(ops[i]) + Size([]);
    SizeAppend(ops[..i + 1], ops[i + 1..]);
    assert ops[..i + 1] + ops[i + 1..] == ops;
    assert all[..|all|] == all;
    TornTail(generation, ops, |all|, i);
    FirstFrame(all, p, ops[i..], i + 1);
  }

  /**
   * Torn writes: a log cut at any byte replays exactly the records whose frames
   * are wholly present, stops at the last whole boundary, and reports which of
   * the three places the cut fell in. Nothing is assumed about checksums.
   */
  lemma TornWrite(generation: nat, ops: seq<Op>, cut: nat)
    requires GenerationFits(generation) && AllBounded(ops) && |ops| < U64_LIMIT
    requires cut <= |LogBytes(generation, ops)|
    ensures var r := ReplayFrom(LogBytes(generation, ops)[..cut], 0);
            if cut < HEADER_LENGTH then
              r.ops == [] && r.lastGood == 0 && r.status == if cut == 0 then CleanEof else InvalidHeader
            else
              var n := Whole(ops, cut - HEADER_LENGTH);
              && r.ops == ops[..n]
              && r.lastGood == BoundaryOf(ops[..n])
              && r.status == (if cut == BoundaryOf(ops[..n]) then CleanEof else PartialRecord)
              && r.generation == generation
              && r.lastSequence == n
  {
    hide Header, Crc32, Frames, FromLE, Scan, Whole;
    var file := LogBytes(generation, ops)[..cut];
    LogParts(generation, ops, cut);
    if cut >= HEADER_LENGTH {
      assert ops[..0] == [] && ops[0..] == ops;
      TornReplay(generation, ops, cut, 0);
      HeaderReadsBack(generation, file);
    }
  }

  /** A whole log replays as its records, cleanly. */
  lemma WholeLog(generation: nat, ops: seq<Op>)
    requires GenerationFits(generation) && AllBounded(ops) && |ops| < U64_LIMIT
    ensures var r := ReplayFrom(LogBytes(generation, ops), 0);
            && r.ops == ops && r.status == CleanEof
            && r.lastGood == |LogBytes(generation, ops)| == BoundaryOf(ops)
            && r.generation == generation && r.lastSequence == |ops|
  {
    hide ReplayFrom, Size, Whole, LogBytes;
    var file := LogBytes(generation, ops);
    LogParts(generation, ops, 0);
    assert file[..|file|] == file;
    TornWrite(generation, ops, |file|);
    WholeOfAll(ops);
    assert ops[..|ops|] == ops;
  }

  lemma {:induction false} WholeOfAll(ops: seq<Op>)
    ensures Whole(ops, Size(ops)) == |ops|
  {
    hide FrameSize;
    if ops != [] {
      WholeOfAll(ops[1..]);
    }
  }

  // ------------------------------------------------------------ arbitrary files

  /** The good prefix of any file with a valid header is a log some writer would have written. */
  lemma GoodPrefix(file: seq<byte>)
    requires Portable(file) && HeaderValid(file)
    ensures var r := ReplayFrom(file, 0);
            && HEADER_LENGTH <= r.lastGood <= |file|
            && GenerationFits(r.generation) && AllBounded(r.ops) && |r.ops| < U64_LIMIT
            && file[..r.lastGood] == LogBytes(r.generation, r.ops)
            && r.lastSequence == |r.ops|
  {
    hide Header, Crc32, Frames, FromLE, Scan;
    var c := StartCursor(true, 0);
    var r := ReplayFrom(file, 0);
    HeaderWritesBack(file);
    AcceptedIsPrinted(file, c);
    assert r.lastGood == Scan(file, true, c).end.pos;
    assert file[..r.lastGood] == file[..HEADER_LENGTH] + file[HEADER_LENGTH..r.lastGood];
  }

  /** Clean version 3 files are exactly the ones the writer produces. */
  lemma CleanIffWritten(file: seq<byte>)
    requires file != [] && Portable(file)
    ensures ReplayFrom(file, 0).status == CleanEof
            <==> exists generation, ops ::
                   GenerationFits(generation) && AllBounded(ops) && |ops| < U64_LIMIT
                   && file == LogBytes(generation, ops)
  {
    hide LogBytes, Scan, AllBounded, HeaderValid;
    var r := ReplayFrom(file, 0);
    if r.status == CleanEof {
      CleanReachesEnd(file);
      GoodPrefix(file);
      assert file[..|file|] == file;
    }
    forall generation, ops
      | GenerationFits(generation) && AllBounded(ops) && |ops| < U64_LIMIT && file == LogBytes(generation, ops)
      ensures r.status == CleanEof
    {
      WholeLog(generation, ops);
    }
  }

  lemma CleanReachesEnd(file: seq<byte>)
    requires file != [] && ReplayFrom(file, 0).status == CleanEof
    ensures Portable(file) ==> HeaderValid(file)
    ensures ReplayFrom(file, 0).lastGood == |file|
  {
    hide HeaderValid, ReadStep, FromLE;
    var c := StartCursor(Portable(file), 0);
    if Portable(file) {
      HeaderIsLong(file);
    }
    ScanCleanEnd(file, Portable(file), c);
  }

  lemma HeaderIsLong(file: seq<byte>)
    ensures HeaderValid(file) ==> |file| >= HEADER_LENGTH
  {
  }

  lemma {:induction false} ScanCleanEnd(file: seq<byte>, portable: bool, c: Cursor)
    requires c.pos <= |file| && Scan(file, portable, c).status == CleanEof
    ensures Scan(file, portable, c).end.pos == |file|
    decreases |file| - c.pos
  {
    hide ReadFrame;
    if ReadStep(file, portable, c).Applied? {
      ScanCleanEnd(file, portable, ReadStep(file, portable, c).next);
    } else {
      OnlyEndIsClean(file, portable, c.pos);
    }
  }

  lemma OnlyEndIsClean(file: seq<byte>, portable: bool, pos: nat)
    requires pos <= |file|
    ensures ReadFrame(file, portable, pos) == EndOfFile ==> pos == |file|
    ensures ReadFrame(file, portable, pos) != BadFrame(CleanEof)
  {
    hide Crc32, FromLE;
  }

  /**
   * Truncation is a fixed point, for arbitrary bytes: cutting at the last good
   * offset and replaying again gives the same records, now with a clean end.
   */
  lemma TruncationFixedPoint(file: seq<byte>)
    ensures var r := ReplayFrom(file, 0);
            r.lastGood <= |file| &&
            var s := ReplayFrom(file[..r.lastGood], 0);
            s.ops == r.ops && s.status == CleanEof && s.lastGood == r.lastGood && s.lastSequence == r.lastSequence
  {
    hide HeaderValid, Scan, FromLE;
    if Replayable(file) {
      var portable := Portable(file);
      var c := StartCursor(portable, 0);
      var r := ReplayFrom(file, 0);
      HeaderIsLong(file);
      ScanTruncated(file, portable, c);
      var cut := file[..r.lastGood];
      if cut != [] {
        ScanEndsPastPrefix(file, portable, c);
        SameHead(file, cut);
      } else {
        NothingReplayed(file, portable, c);
      }
    }
  }

  /** A replay that kept anything kept at least the bytes that decide the format. */
  lemma ScanEndsPastPrefix(file: seq<byte>, portable: bool, c: Cursor)
    requires c.pos == 0 || c.pos == HEADER_LENGTH
    ensures var e := Scan(file, portable, c).end.pos; e == 0 || e > 8
  {
    hide Crc32, ParseRecord, FromLE;
  }

  lemma NothingReplayed(file: seq<byte>, portable: bool, c: Cursor)
    requires Scan(file, portable, c).end.pos == 0
    ensures Scan(file, portable, c).ops == []
  {
  }

  lemma SameHead(a: seq<byte>, b: seq<byte>)
    requires 4 <= |a| && 4 <= |b| && a[..4] == b[..4]
    requires Portable(a) ==> |a| >= HEADER_LENGTH && |b| >= HEADER_LENGTH && a[..HEADER_LENGTH] == b[..HEADER_LENGTH]
    ensures Portable(a) == Portable(b)
    ensures Portable(a) ==> HeaderValid(a) == HeaderValid(b) && FromLE(a[12..20]) == FromLE(b[12..20])
  {
    hide Crc32, FromLE;
    if Portable(a) {
      var h := a[..HEADER_LENGTH];
      assert h[4..8] == a[4..8] == b[4..8];
      assert h[8..12] == a[8..12] == b[8..12];
      assert h[12..20] == a[12..20] == b[12..20];
      assert h[20..24] == a[20..24] == b[20..24];
      assert h[..20] == a[..20] == b[..20];
    }
  }

  lemma LogExtends(generation: nat, ops: seq<Op>, more: seq<Op>)
    ensures LogBytes(generation, ops + more) == LogBytes(generation, ops) + Frames(more, |ops| + 1)
  {
    hide Header, Frames;
    FramesAppend(ops, more, 1);
    Regroup(Header(generation), Frames(ops, 1), Frames(more, |ops| + 1));
  }

  lemma LogIsLong(generation: nat, ops: seq<Op>)
    ensures |LogBytes(generation, ops)| == BoundaryOf(ops) >= HEADER_LENGTH
  {
    hide LogBytes, Size;
    LogParts(generation, ops, 0);
  }

  lemma PrefixLog(generation: nat, ops: seq<Op>, k: nat)
    requires k <= |ops|
    ensures BoundaryOf(ops[..k]) <= |LogBytes(generation, ops)|
    ensures LogBytes(generation, ops)[..BoundaryOf(ops[..k])] == LogBytes(generation, ops[..k])
  {
    hide LogBytes, Frames, BoundaryOf;
    assert ops[..k] + ops[k..] == ops;
    LogExtends(generation, ops[..k], ops[k..]);
    LogParts(generation, ops[..k], 0);
  }

  /** After truncation, later appends replay as the good prefix and then the new operations. */
  lemma AppendAfterTruncation(file: seq<byte>, more: seq<Op>)
    requires Portable(file) && HeaderValid(file)
    requires AllBounded(more) && |ReplayFrom(file, 0).ops| + |more| < U64_LIMIT
    ensures var r := ReplayFrom(file, 0);
            r.lastGood <= |file| &&
            var s := ReplayFrom(file[..r.lastGood] + Frames(more, r.lastSequence + 1), 0);
            s.ops == r.ops + more && s.status == CleanEof && s.generation == r.generation
  {
    hide ReplayFrom, Header, Frames, Bounded, HeaderValid, LogBytes, BoundaryOf, Portable;
    var r := ReplayFrom(file, 0);
    GoodPrefix(file);
    LogExtends(r.generation, r.ops, more);
    WholeLog(r.generation, r.ops + more);
  }

  // ------------------------------------------------------------ corruption

  /** The file with some of its bytes replaced. */
  function Overwrite(file: seq<byte>, i: nat, bytes: seq<byte>): seq<byte>
    requires i + |bytes| <= |file|
  {
    file[..i] + bytes + file[i + |bytes|..]
  }

  /** The bytes lie in the checksum of the frame between these offsets, or in its record. */
  predicate InChecksumOrRecord(pos: nat, next: nat, i: nat, n: nat) {
    (pos + 4 <= i && i + n <= pos + 8) || (pos + 8 <= i && i + n <= next)
  }

  lemma OverwriteOutside(file: seq<byte>, i: nat, bytes: seq<byte>, p: nat, q: nat)
    requires i + |bytes| <= |file| && p <= q <= |file| && (q <= i || i + |bytes| <= p)
    ensures Overwrite(file, i, bytes)[p..q] == file[p..q] && |Overwrite(file, i, bytes)| == |file|
  {
  }

  lemma OverwriteInside(file: seq<byte>, i: nat, bytes: seq<byte>, p: nat, q: nat)
    requires p <= i && i + |bytes| <= q <= |file|
    ensures |Overwrite(file, i, bytes)| == |file|
    ensures Overwrite(file, i, bytes)[p..q] == file[p..i] + bytes + file[i + |bytes|..q]
    ensures file[p..q] == file[p..i] + file[i..i + |bytes|] + file[i + |bytes|..q]
  {
    var n := |bytes|;
    var part := file[p..i] + bytes + file[i + n..q];
    assert file[..i] == file[..p] + file[p..i];
    assert file[i + n..] == file[i + n..q] + file[q..];
    assert Overwrite(file, i, bytes) == file[..p] + part + file[q..];
    Middle(file[..p], part, file[q..]);
  }

  lemma Middle(a: seq<byte>, b: seq<byte>, c: seq<byte>)
    ensures (a + b + c)[|a|..|a| + |b|] == b
  {
  }

  lemma StillDiffer(head: seq<byte>, a: seq<byte>, b: seq<byte>, tail: seq<byte>)
    requires |a| == |b| && a != b
    ensures head + a + tail != head + b + tail
  {
    var i :| 0 <= i < |a| && a[i] != b[i];
    assert (head + a + tail)[|head| + i] == a[i] && (head + b + tail)[|head| + i] == b[i];
  }

  /** Changing up to four consecutive bytes of a good frame's checksum, or of its record, gives a checksum mismatch. */
  lemma CorruptFrame(file: seq<byte>, portable: bool, pos: nat, i: nat, bytes: seq<byte>)
    requires ReadFrame(file, portable, pos).GoodFrame? && |bytes| <= 4 && i + |bytes| <= |file|
    requires InChecksumOrRecord(pos, ReadFrame(file, portable, pos).next, i, |bytes|) && file[i..i + |bytes|] != bytes
    ensures ReadFrame(Overwrite(file, i, bytes), portable, pos) == BadFrame(ChecksumMismatch)
  {
    hide Crc32, ParseRecord, FromLE, Overwrite;
    var q, n := ReadFrame(file, portable, pos).next, |bytes|;
    OverwriteOutside(file, i, bytes, pos, pos + 4);
    if i < pos + 8 {
      OverwriteOutside(file, i, bytes, pos + 8, q);
      SumsDiffer(file, pos, i, bytes);
    } else {
      OverwriteOutside(file, i, bytes, pos + 4, pos + 8);
      OverwriteInside(file, i, bytes, pos + 8, q);
      BurstChangesCrc(file[pos + 8..i], file[i..i + n], bytes, file[i + n..q]);
    }
  }

  lemma SumsDiffer(file: seq<byte>, pos: nat, i: nat, bytes: seq<byte>)
    requires pos + 4 <= i && i + |bytes| <= pos + 8 <= |file| && file[i..i + |bytes|] != bytes
    ensures |Overwrite(file, i, bytes)| == |file|
    ensures FromLE(Overwrite(file, i, bytes)[pos + 4..pos + 8]) != FromLE(file[pos + 4..pos + 8])
  {
    hide FromLE, Overwrite;
    OverwriteInside(file, i, bytes, pos + 4, pos + 8);
    StillDiffer(file[pos + 4..i], file[i..i + |bytes|], bytes, file[i + |bytes|..pos + 8]);
    Field32(file[pos + 4..pos + 8]);
    Field32(Overwrite(file, i, bytes)[pos + 4..pos + 8]);
  }

  lemma {:induction false} StepAt(file: seq<byte>, portable: bool, c: Cursor, k: nat)
    requires k < |Scan(file, portable, c).ops|
    ensures var d := After(file, portable, c, k);
            && ReadStep(file, portable, d).Applied?
            && ReadStep(file, portable, d).next == After(file, portable, c, k + 1)
    decreases k
  {
    hide ReadStep;
    if k > 0 {
      StepAt(file, portable, ReadStep(file, portable, c).next, k - 1);
    }
  }

  /**
   * Any corruption confined to four consecutive bytes of the (k+1)-th frame's checksum, or of
   * its record, leaves exactly the first k records, and is reported at that frame.
   */
  lemma BurstCorruption(file: seq<byte>, k: nat, i: nat, bytes: seq<byte>)
    requires Replayable(file) && k < |ReplayFrom(file, 0).ops| && |bytes| <= 4 && i + |bytes| <= |file|
    requires InChecksumOrRecord(RecordStart(file, k).pos, RecordStart(file, k + 1).pos, i, |bytes|)
    requires file[i..i + |bytes|] != bytes
    ensures var r := ReplayFrom(Overwrite(file, i, bytes), 0);
            && r.ops == ReplayFrom(file, 0).ops[..k]
            && r.status == ChecksumMismatch
            && r.lastGood == RecordStart(file, k).pos
  {
    hide Scan, ReadFrame, HeaderValid, FromLE, Overwrite;
    var portable := Portable(file);
    var c := StartCursor(portable, 0);
    var bad, d := Overwrite(file, i, bytes), After(file, portable, c, k);
    StepAt(file, portable, c, k);
    CorruptFrame(file, portable, d.pos, i, bytes);
    HeaderIsLong(file);
    OverwriteOutside(file, i, bytes, 0, 4);
    if portable { OverwriteOutside(file, i, bytes, 0, HEADER_LENGTH); }
    SameHead(file, bad);
    if k > 0 { OverwriteOutside(file, i, bytes, c.pos, d.pos); }
    ScanShared(file, bad, portable, c, k);
    ScanStops(bad, portable, d);
    var kept := Scan(file, portable, c).ops[..k];
    assert kept + [] == kept;
  }

  /** So does any one byte that is changed. */
  lemma OneByteCorruption(file: seq<byte>, k: nat, i: nat, b: byte)
    requires Replayable(file) && k < |ReplayFrom(file, 0).ops|
    requires RecordStart(file, k).pos + 4 <= i < RecordStart(file, k + 1).pos
    requires file[i] != b
    ensures var r := ReplayFrom(file[i := b], 0);
            && r.ops == ReplayFrom(file, 0).ops[..k]
            && r.status == ChecksumMismatch
            && r.lastGood == RecordStart(file, k).pos
  {
    hide ReplayFrom, Scan, ReadFrame;
    assert file[i := b] == Overwrite(file, i, [b]);
    assert file[i..i + 1] == [file[i]];
    BurstCorruption(file, k, i, [b]);
  }

  lemma ScanStops(file: seq<byte>, portable: bool, c: Cursor)
    requires ReadFrame(file, portable, c.pos) == BadFrame(ChecksumMismatch)
    ensures Scan(file, portable, c) == Scanned([], ChecksumMismatch, c)
  {
    hide ReadFrame;
  }

  // ------------------------------------------------------------ replay from the middle

  /** A well-formed record whose sequence only a replay of its predecessors would reject. */
  predicate OutOfSequence(file: seq<byte>, portable: bool, c: Cursor) {
    var f := ReadFrame(file, portable, c.pos);
    && portable && f.GoodFrame? && f.sequence != 0
    && c.expected.Exactly? && f.sequence != c.expected.sequence
  }

  /**
   * Replay composes: starting at the k-th boundary gives exactly the rest of the
   * full replay, unless the record there is out of sequence. A replay that starts
   * inside a file cannot tell, and accepts it.
   */
  lemma ReplayFromBoundary(file: seq<byte>, k: nat)
    requires Replayable(file) && 0 < k <= |ReplayFrom(file, 0).ops|
    ensures var r := ReplayFrom(file, 0);
            var s := ReplayFrom(file, RecordStart(file, k).pos);
            (s.ops == r.ops[k..] && s.status == r.status && s.lastGood == r.lastGood)
            <==> !OutOfSequence(file, Portable(file), RecordStart(file, k))
  {
    hide Scan, ReadFrame, HeaderValid, FromLE;
    var portable := Portable(file);
    var c := StartCursor(portable, 0);
    var d := After(file, portable, c, k);
    HeaderIsLong(file);
    AfterPastHeader(file, portable, c, k);
    ScanShared(file, file, portable, c, k);
    SuffixOps(Scan(file, portable, c).ops, k, Scan(file, portable, d).ops);
    if OutOfSequence(file, portable, d) {
      StepOutOfSequence(file, d);
    } else {
      ScanIgnoresExpected(file, portable, d);
    }
  }

  lemma AfterPastHeader(file: seq<byte>, portable: bool, c: Cursor, k: nat)
    requires 0 < k <= |Scan(file, portable, c).ops|
    ensures After(file, portable, c, k).pos > c.pos
  {
    hide ReadStep;
    var next := ReadStep(file, portable, c).next;
    assert After(file, portable, c, k) == After(file, portable, next, k - 1);
  }

  lemma SuffixOps(all: seq<Op>, k: nat, rest: seq<Op>)
    requires k <= |all| && all == all[..k] + rest
    ensures all[k..] == rest
  {
  }

  lemma StepOutOfSequence(file: seq<byte>, c: Cursor)
    requires OutOfSequence(file, true, c)
    ensures Scan(file, true, c).ops == []
    ensures Scan(file, true, Cursor(c.pos, AnySequence)).ops != []
  {
    hide ReadFrame;
  }

  lemma ScanIgnoresExpected(file: seq<byte>, portable: bool, c: Cursor)
    requires !OutOfSequence(file, portable, c)
    ensures var r := Scan(file, portable, c);
            var s := Scan(file, portable, Cursor(c.pos, AnySequence));
            s.ops == r.ops && s.status == r.status && s.end.pos == r.end.pos
  {
    hide ReadFrame;
  }
}
