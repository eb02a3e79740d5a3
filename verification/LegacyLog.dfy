/**
 * Version 2 logs: no header, and frames without a sequence. Replay of such a log, whole or
 * cut, gives back what was logged.
 */
module LegacyLog {
  import opened Bytes
  import opened Crc
  import opened Record
  import opened Replay
  import opened ReplayLaws

  /** Length, checksum and payload. */
  function LegacyFrame(op: Op): seq<byte> {
    LE(|Payload(op)|, 4) + LE(Crc32(Payload(op)), 4) + Payload(op)
  }

  function LegacyFrames(ops: seq<Op>): seq<byte> {
    if ops == [] then [] else LegacyFrame(ops[0]) + LegacyFrames(ops[1..])
  }

  /** The record is within the limit; it carries no sequence. */
  predicate LegacyBounded(op: Op) {
    |Payload(op)| <= MAX_RECORD
  }

  predicate AllLegacy(ops: seq<Op>) {
    forall i :: 0 <= i < |ops| ==> LegacyBounded(ops[i])
  }

  function LegacySize(ops: seq<Op>): nat {
    if ops == [] then 0 else 8 + |Payload(ops[0])| + LegacySize(ops[1..])
  }

  /** How many whole frames fit in the first `cut` bytes. */
  function LegacyWhole(ops: seq<Op>, cut: nat): (n: nat)
    ensures n <= |ops|
  {
    if ops == [] || cut < 8 + |Payload(ops[0])| then 0 else 1 + LegacyWhole(ops[1..], cut - 8 - |Payload(ops[0])|)
  }

  lemma LegacyFrameParts(op: Op)
    ensures |LegacyFrame(op)| == 8 + |Payload(op)| && |Payload(op)| > 0
    ensures LegacyFrame(op)[..4] == LE(|Payload(op)|, 4) && LegacyFrame(op)[4..8] == LE(Crc32(Payload(op)), 4)
    ensures LegacyFrame(op)[8..] == Payload(op)
  {
    hide LE, Crc32;
  }

  lemma {:induction false} LegacyFramesSize(ops: seq<Op>)
    ensures |LegacyFrames(ops)| == LegacySize(ops)
  {
    hide LegacyFrame, Payload;
    if ops != [] {
      LegacyFrameParts(ops[0]);
      LegacyFramesSize(ops[1..]);
    }
  }

  // ------------------------------------------------------------ one frame

  lemma LegacyFields(op: Op)
    requires LegacyBounded(op)
    ensures Fits32(op)
  {
    hide LE;
  }

  lemma ReadLegacy(file: seq<byte>, pos: nat, op: Op)
    requires LegacyBounded(op) && pos + 8 + |Payload(op)| <= |file|
    requires file[pos..pos + 8 + |Payload(op)|] == LegacyFrame(op)
    ensures ReadFrame(file, false, pos) == GoodFrame(op, 0, pos + 8 + |Payload(op)|)
  {
    hide Crc32, ParseRecord, LE, FromLE, Payload, LegacyFrame, Fits32;
    var record, end := Payload(op), pos + 8 + |Payload(op)|;
    LegacyFrameParts(op);
    SliceOfSlice(file, pos, end, 0, 4);
    SliceOfSlice(file, pos, end, 4, 8);
    SliceOfSlice(file, pos, end, 8, end - pos);
    var frame := file[pos..end];
    assert frame[0..4] == frame[..4] && frame[8..end - pos] == frame[8..];
    Encoded32(|record|);
    Crc32Fits(record);
    Encoded32(Crc32(record));
    LegacyFields(op);
    ParseLegacyPrinted(op);
  }

  lemma ReadLegacyTorn(file: seq<byte>, pos: nat, op: Op)
    requires LegacyBounded(op) && pos <= |file| < pos + 8 + |Payload(op)|
    requires file[pos..] == LegacyFrame(op)[..|file| - pos]
    ensures ReadFrame(file, false, pos) == if |file| == pos then EndOfFile else BadFrame(PartialRecord)
  {
    hide Crc32, ParseRecord, LE, FromLE, Payload, LegacyFrame;
    LegacyFrameParts(op);
    if |file| - pos >= 4 {
      var length := file[pos..pos + 4];
      assert length == file[pos..][..4] && length == LegacyFrame(op)[..4];
      Encoded32(|Payload(op)|);
    }
  }

  lemma AcceptedLegacy(file: seq<byte>, pos: nat)
    requires ReadFrame(file, false, pos).GoodFrame?
    ensures var f := ReadFrame(file, false, pos);
            file[pos..f.next] == LegacyFrame(f.op) && LegacyBounded(f.op)
  {
    hide Crc32, ParseRecord, LE, FromLE, Payload;
    var f := ReadFrame(file, false, pos);
    var record := file[pos + 8..f.next];
    PrintLegacyParsed(record);
    Field32(file[pos..pos + 4]);
    Field32(file[pos + 4..pos + 8]);
    assert file[pos..f.next] == file[pos..pos + 4] + file[pos + 4..pos + 8] + record;
  }

  // ------------------------------------------------------------ runs of frames

  /** What a scan of the first `cut` bytes of such frames gives. */
  ghost predicate ScannedWhole(r: Scanned, ops: seq<Op>, pos: nat, cut: nat) {
    var n := LegacyWhole(ops, cut);
    && r.ops == ops[..n] && r.end.pos == pos + LegacySize(ops[..n])
    && r.status == if cut == LegacySize(ops[..n]) then CleanEof else PartialRecord
  }

  lemma {:induction false} ScanLegacy(file: seq<byte>, c: Cursor, ops: seq<Op>)
    requires AllLegacy(ops) && c.pos <= |file| <= c.pos + |LegacyFrames(ops)|
    requires file[c.pos..] == LegacyFrames(ops)[..|file| - c.pos]
    ensures ScannedWhole(Scan(file, false, c), ops, c.pos, |file| - c.pos)
    decreases ops
  {
    hide ReadFrame, LegacyFrame, LegacyFrames, LegacyBounded, LegacySize, LegacyWhole, Payload, Scan, ScannedWhole;
    var cut := |file| - c.pos;
    if cut == 0 {
      AtEnd(file, false, c);
      NoneScanned(ops, c, 0);
    } else {
      NotNothing(ops);
      FirstLegacy(file, c.pos, ops);
      var op, size := ops[0], 8 + |Payload(ops[0])|;
      if cut < size {
        ReadLegacyTorn(file, c.pos, op);
        LegacyStops(file, c);
        NoneScanned(ops, c, cut);
      } else {
        ReadLegacy(file, c.pos, op);
        var next := Cursor(c.pos + size, Exactly(1));
        ScanOne(file, false, c, op, next);
        assert forall i :: 0 <= i < |ops[1..]| ==> ops[1..][i] == ops[i + 1];
        ScanLegacy(file, next, ops[1..]);
        OneWhole(Scan(file, false, next), ops, c.pos, cut);
      }
    }
  }

  lemma NotNothing(ops: seq<Op>)
    ensures |LegacyFrames(ops)| > 0 ==> ops != []
  {
    hide LegacyFrame;
  }

  /** Splits the first frame off a possibly torn run of frames. */
  lemma FirstLegacy(file: seq<byte>, pos: nat, ops: seq<Op>)
    requires ops != [] && pos <= |file| <= pos + |LegacyFrames(ops)|
    requires file[pos..] == LegacyFrames(ops)[..|file| - pos]
    ensures var cut, size := |file| - pos, 8 + |Payload(ops[0])|;
            var frame, rest := LegacyFrame(ops[0]), LegacyFrames(ops[1..]);
            && |frame| == size
            && if cut < size then file[pos..] == frame[..cut]
               else && file[pos..pos + size] == frame && cut - size <= |rest| && file[pos + size..] == rest[..cut - size]
  {
    hide LegacyFrame, Payload;
    var frame, rest := LegacyFrame(ops[0]), LegacyFrames(ops[1..]);
    var cut, size := |file| - pos, 8 + |Payload(ops[0])|;
    LegacyFrameParts(ops[0]);
    if cut < size {
      assert (frame + rest)[..cut] == frame[..cut];
    } else {
      assert (frame + rest)[..cut] == frame + rest[..cut - size];
      Peel(file, pos, frame, rest[..cut - size]);
    }
  }

  lemma NoneScanned(ops: seq<Op>, c: Cursor, cut: nat)
    requires cut == 0 || (ops != [] && cut < 8 + |Payload(ops[0])|)
    ensures ScannedWhole(Scanned([], if cut == 0 then CleanEof else PartialRecord, c), ops, c.pos, cut)
  {
    hide Payload;
    NoneWhole(ops);
  }

  lemma LegacyStops(file: seq<byte>, c: Cursor)
    requires ReadFrame(file, false, c.pos) == BadFrame(PartialRecord)
    ensures Scan(file, false, c) == Scanned([], PartialRecord, c)
  {
    hide ReadFrame;
  }

  lemma NoneWhole(ops: seq<Op>)
    ensures LegacyWhole(ops, 0) == 0 && ops[..0] == [] && LegacySize([]) == 0
  {
    hide Payload;
  }

  lemma OneWhole(r: Scanned, ops: seq<Op>, pos: nat, cut: nat)
    requires ops != [] && cut >= 8 + |Payload(ops[0])|
    requires ScannedWhole(r, ops[1..], pos + 8 + |Payload(ops[0])|, cut - 8 - |Payload(ops[0])|)
    ensures ScannedWhole(Scanned([ops[0]] + r.ops, r.status, r.end), ops, pos, cut)
  {
    hide Payload;
    var n := LegacyWhole(ops[1..], cut - 8 - |Payload(ops[0])|);
    assert [ops[0]] + ops[1..][..n] == ops[..n + 1];
    assert ops[..n + 1][1..] == ops[1..][..n];
  }

  // ------------------------------------------------------------ whole files

  /** The magic, read as a length, is far above the record limit, so no version 2 log starts like version 3. */
  lemma MagicIsNoLength(op: Op)
    requires LegacyBounded(op)
    ensures LE(|Payload(op)|, 4) != MAGIC
  {
    hide LE, Payload;
    Encoded32(|Payload(op)|);
    MagicValue();
  }

  lemma MagicValue()
    ensures FromLE(MAGIC) == 0x3357564B
  {
    assert MAGIC[1..] == [0x56, 0x57, 0x33] && MAGIC[1..][1..] == [0x57, 0x33];
    assert MAGIC[1..][1..][1..] == [0x33] && MAGIC[1..][1..][1..][1..] == [];
    assert FromLE([0x33]) == 0x33;
    assert FromLE([0x57, 0x33]) == 0x57 + 256 * 0x33;
    assert FromLE([0x56, 0x57, 0x33]) == 0x56 + 256 * (0x57 + 256 * 0x33);
  }

  /** The part of the log is so short that its bytes could be the start of the magic. */
  predicate LooksCurrent(file: seq<byte>) {
    0 < |file| < 4 && file == MAGIC[..|file|]
  }

  lemma LegacyIsNotPortable(ops: seq<Op>, cut: nat)
    requires AllLegacy(ops) && 0 < cut <= |LegacyFrames(ops)|
    ensures Portable(LegacyFrames(ops)[..cut]) <==> LooksCurrent(LegacyFrames(ops)[..cut])
  {
    hide LegacyFrame, Payload, LegacyBounded;
    var all := LegacyFrames(ops);
    var file := all[..cut];
    if cut >= 4 {
      LegacyFrameParts(ops[0]);
      MagicIsNoLength(ops[0]);
      assert file[..4] == all[..4] && all[..4] == LegacyFrame(ops[0])[..4];
      assert MAGIC[..4] == MAGIC;
    }
  }

  lemma {:induction false} SizeSplits(a: seq<Op>, b: seq<Op>)
    ensures LegacySize(a + b) == LegacySize(a) + LegacySize(b)
    ensures LegacyFrames(a + b) == LegacyFrames(a) + LegacyFrames(b)
  {
    hide Payload, LegacyFrame;
    if a == [] {
      assert a + b == b;
    } else {
      assert (a + b)[0] == a[0] && (a + b)[1..] == a[1..] + b;
      SizeSplits(a[1..], b);
      var x, y, z := LegacyFrame(a[0]), LegacyFrames(a[1..]), LegacyFrames(b);
      assert (x + y) + z == x + (y + z);
    }
  }

  /** The frames from the j-th boundary on are those of the rest of the operations. */
  lemma FramesFrom(ops: seq<Op>, j: nat)
    requires j <= |ops|
    ensures LegacySize(ops[..j]) <= |LegacyFrames(ops)|
    ensures LegacyFrames(ops)[LegacySize(ops[..j])..] == LegacyFrames(ops[j..])
  {
    hide LegacyFrames, LegacySize;
    assert ops[..j] + ops[j..] == ops;
    SizeSplits(ops[..j], ops[j..]);
    LegacyFramesSize(ops[..j]);
  }

  /** Whole frames counted from a boundary. */
  lemma {:induction false} WholeFrom(ops: seq<Op>, j: nat, cut: nat)
    requires j <= |ops| && LegacySize(ops[..j]) <= cut
    ensures LegacyWhole(ops, cut) == j + LegacyWhole(ops[j..], cut - LegacySize(ops[..j]))
    decreases j
  {
    hide Payload;
    if j == 0 {
      assert ops[..0] == [] && ops[0..] == ops;
    } else {
      assert ops[..j][1..] == ops[1..][..j - 1] && ops[1..][j - 1..] == ops[j..];
      WholeFrom(ops[1..], j - 1, cut - 8 - |Payload(ops[0])|);
    }
  }

  lemma HeaderTooShort(file: seq<byte>, offset: nat)
    requires LooksCurrent(file)
    ensures var r := ReplayFrom(file, offset);
            r.ops == [] && r.status == InvalidHeader && r.lastGood == 0
  {
  }

  /**
   * A version 2 log cut at any byte, replayed from 0 or from any record boundary the cut
   * keeps: exactly the whole frames from there on, ending at the last boundary, and cleanly
   * exactly if the cut is one. The exception is a cut within the first four bytes that leaves
   * the start of the version 3 magic: such a file is refused.
   */
  lemma TornLegacyLog(ops: seq<Op>, cut: nat, j: nat)
    requires AllLegacy(ops) && cut <= |LegacyFrames(ops)| && j <= |ops| && LegacySize(ops[..j]) <= cut
    ensures var file := LegacyFrames(ops)[..cut];
            var r := ReplayFrom(file, LegacySize(ops[..j]));
            var n := LegacyWhole(ops, cut);
            if LooksCurrent(file) then r.ops == [] && r.status == InvalidHeader && r.lastGood == 0
            else && j <= n && r.ops == ops[j..n] && r.lastGood == LegacySize(ops[..n])
                 && r.status == (if cut == LegacySize(ops[..n]) then CleanEof else PartialRecord)
                 && r.generation == 0 && r.lastSequence == 0
  {
    hide LegacyFrames, ReplayFrom, LegacySize, LegacyWhole, LegacyBounded, LooksCurrent;
    var file, start := LegacyFrames(ops)[..cut], LegacySize(ops[..j]);
    ScanFromBoundary(ops, cut, j);
    if cut > 0 { LegacyIsNotPortable(ops, cut); }
    if LooksCurrent(file) { HeaderTooShort(file, start); } else { NotPortable(file, start); }
  }

  /** Without a header replay is the scan of the frames. */
  lemma NotPortable(file: seq<byte>, offset: nat)
    requires file == [] || !Portable(file)
    ensures var r, s := ReplayFrom(file, offset), Scan(file, false, Cursor(offset, AnySequence));
            && r.ops == s.ops && r.status == s.status && r.generation == 0 && r.lastSequence == 0
            && r.lastGood == s.end.pos
  {
    hide Scan;
    if file == [] { EmptyScan(Cursor(offset, AnySequence)); }
  }

  lemma ScanFromBoundary(ops: seq<Op>, cut: nat, j: nat)
    requires AllLegacy(ops) && cut <= |LegacyFrames(ops)| && j <= |ops| && LegacySize(ops[..j]) <= cut
    ensures var start, n := LegacySize(ops[..j]), LegacyWhole(ops, cut);
            var s := Scan(LegacyFrames(ops)[..cut], false, Cursor(start, AnySequence));
            && j <= n && s.ops == ops[j..n] && s.end.pos == LegacySize(ops[..n])
            && s.status == if cut == LegacySize(ops[..n]) then CleanEof else PartialRecord
  {
    hide LegacyFrames, Scan, LegacySize, LegacyWhole, LegacyBounded;
    var file, start := LegacyFrames(ops)[..cut], LegacySize(ops[..j]);
    WholeFrom(ops, j, cut);
    FramesFrom(ops, j);
    var n, tail := LegacyWhole(ops, cut), ops[j..];
    assert tail[..n - j] == ops[j..n];
    assert ops[..j] + ops[j..n] == ops[..n];
    SizeSplits(ops[..j], ops[j..n]);
    assert file[start..] == LegacyFrames(ops)[start..][..cut - start];
    ScanLegacy(file, Cursor(start, AnySequence), tail);
  }

  lemma EmptyScan(c: Cursor)
    ensures Scan([], false, c) == Scanned([], CleanEof, c)
  {
  }

  /** A whole version 2 log replays to exactly its operations, with a clean end. */
  lemma WholeLegacyLog(ops: seq<Op>)
    requires AllLegacy(ops)
    ensures var r := ReplayFrom(LegacyFrames(ops), 0);
            r.ops == ops && r.status == CleanEof && r.lastGood == |LegacyFrames(ops)|
  {
    hide LegacyFrames, ReplayFrom, LegacySize, LegacyWhole, LegacyBounded;
    var file := LegacyFrames(ops);
    LegacyFramesSize(ops);
    assert ops[..|ops|] == ops && file[..|file|] == file && ops[|ops|..] == [] && ops[..0] == [];
    NoneWhole([]);
    WholeFrom(ops, |ops|, |file|);
    assert !LooksCurrent(file) by { if ops != [] { LongEnough(ops); } else { NothingWritten(); } }
    TornLegacyLog(ops, |file|, 0);
    assert ops[0..|ops|] == ops;
  }

  lemma LongEnough(ops: seq<Op>)
    requires ops != []
    ensures |LegacyFrames(ops)| >= 8
  {
    hide LegacyFrame, Payload;
    LegacyFrameParts(ops[0]);
  }

  lemma NothingWritten()
    ensures LegacyFrames([]) == []
  {
  }

  /** The bytes of whatever frames replay accepts are those of the operations it reports. */
  lemma {:induction false} AcceptedIsLegacy(file: seq<byte>, c: Cursor)
    requires c.pos <= |file|
    ensures var r := Scan(file, false, c);
            c.pos <= r.end.pos <= |file| && file[c.pos..r.end.pos] == LegacyFrames(r.ops) && AllLegacy(r.ops)
    decreases |file| - c.pos
  {
    hide ReadFrame, LegacyFrame, LegacyBounded;
    var s := ReadStep(file, false, c);
    if s.Applied? {
      var r := Scan(file, false, c);
      AcceptedLegacy(file, c.pos);
      AcceptedIsLegacy(file, s.next);
      var q, e := s.next.pos, r.end.pos;
      assert file[c.pos..e] == file[c.pos..q] + file[q..e];
      assert r.ops[0] == s.op && r.ops[1..] == Scan(file, false, s.next).ops;
    }
  }

  /** A file that does not start like version 3 replays cleanly if and only if it is a version 2 log of what is replayed. */
  lemma CleanIffLegacy(file: seq<byte>)
    requires file != [] && !Portable(file)
    ensures var r := ReplayFrom(file, 0);
            r.status == CleanEof <==> file == LegacyFrames(r.ops) && AllLegacy(r.ops)
  {
    hide LegacyFrames, Scan, LegacyBounded, ReadFrame;
    var c := Cursor(0, AnySequence);
    var r := Scan(file, false, c);
    AcceptedIsLegacy(file, c);
    if r.status == CleanEof {
      ScanCleanEnd(file, false, c);
      assert file[0..|file|] == file;
    }
    if file == LegacyFrames(r.ops) && AllLegacy(r.ops) {
      WholeLegacyLog(r.ops);
    }
  }
}
