/**
 * Replay of a log file of arbitrary bytes, and what it guarantees about files
 * that were torn, truncated, extended or corrupted.
 */
module Replay {
  import opened Bytes
  import opened Crc
  import opened Record

  const MAGIC: seq<byte> := [0x4B, 0x56, 0x57, 0x33]
  const VERSION: nat := 3
  const ENDIAN_MARKER: nat := 0x01020304
  const HEADER_LENGTH: nat := 24
  /** The largest offset a file stream accepts. */
  const MAX_STREAM_OFFSET: nat := 0x7FFF_FFFF_FFFF_FFFF

  // ------------------------------------------------------------ the file header

  function HeaderBody(generation: nat): (s: seq<byte>)
    ensures |s| == 20
  {
    MAGIC + (LE(VERSION, 4) + (LE(ENDIAN_MARKER, 4) + LE(generation, 8)))
  }

  function Header(generation: nat): (s: seq<byte>)
    ensures |s| == HEADER_LENGTH
  {
    HeaderBody(generation) + LE(Crc32(HeaderBody(generation)), 4)
  }

  predicate HeaderValid(file: seq<byte>) {
    && |file| >= HEADER_LENGTH
    && file[..4] == MAGIC
    && FromLE(file[4..8]) == VERSION
    && FromLE(file[8..12]) == ENDIAN_MARKER
    && FromLE(file[12..20]) != 0
    && FromLE(file[20..24]) == Crc32(file[..20])
  }

  predicate GenerationFits(generation: nat) {
    0 < generation < U64_LIMIT
  }

  /** A header that was written is read back as valid, with its generation. */
  lemma HeaderReadsBack(generation: nat, file: seq<byte>)
    requires GenerationFits(generation)
    requires |file| >= HEADER_LENGTH && file[..HEADER_LENGTH] == Header(generation)
    ensures HeaderValid(file) && FromLE(file[12..20]) == generation
  {
    hide Crc32, LE, FromLE;
    var h := Header(generation);
    assert file[..20] == h[..20] && h[..20] == HeaderBody(generation);
    assert file[20..24] == h[20..24] && h[20..24] == LE(Crc32(HeaderBody(generation)), 4);
    Crc32Fits(file[..20]);
    Encoded32(Crc32(file[..20]));
    HeaderFields(generation, file[..20]);
    assert file[..20][..4] == file[..4] && file[..20][4..8] == file[4..8];
    assert file[..20][8..12] == file[8..12] && file[..20][12..20] == file[12..20];
  }

  lemma HeaderFields(generation: nat, body: seq<byte>)
    requires GenerationFits(generation) && body == HeaderBody(generation)
    ensures body[..4] == MAGIC && FromLE(body[4..8]) == VERSION
    ensures FromLE(body[8..12]) == ENDIAN_MARKER && FromLE(body[12..20]) == generation
  {
    hide LE, FromLE;
    var version, marker, rest := LE(VERSION, 4), LE(ENDIAN_MARKER, 4), LE(generation, 8);
    assert body[0..] == body;
    Peel(body, 0, MAGIC, version + (marker + rest));
    Peel(body, 4, version, marker + rest);
    Peel(body, 8, marker, rest);
    assert body[12..20] == body[12..];
    Encoded32(VERSION);
    Encoded32(ENDIAN_MARKER);
    Encoded64(generation);
  }

  /** A header read as valid is byte for byte the one written for its generation. */
  lemma HeaderWritesBack(file: seq<byte>)
    requires HeaderValid(file)
    ensures GenerationFits(FromLE(file[12..20]))
    ensures file[..HEADER_LENGTH] == Header(FromLE(file[12..20]))
  {
    hide Crc32, LE, FromLE;
    var generation := FromLE(file[12..20]);
    Field32(file[4..8]);
    Field32(file[8..12]);
    Field64(file[12..20]);
    Field32(file[20..24]);
    var body := file[..20];
    assert body[..4] == file[..4] && body[4..8] == file[4..8] && body[8..12] == file[8..12]
           && body[12..] == file[12..20];
    SplitAt(body, 4);
    SplitTwice(body, 4, 8);
    SplitTwice(body, 8, 12);
    assert file[..24] == file[..20] + file[20..24];
    assert file[..20] == HeaderBody(generation);
  }

  // ------------------------------------------------------------ one frame

  datatype FrameRead =
    | EndOfFile
    | BadFrame(status: Status)
    | GoodFrame(op: Op, sequence: nat, next: nat)

  /** What replay sees at byte `pos`, before it looks at the sequence. */
  function ReadFrame(file: seq<byte>, portable: bool, pos: nat): (r: FrameRead)
    ensures r.GoodFrame? ==> pos + 8 < r.next <= |file|
  {
    if |file| <= pos then EndOfFile
    else if |file| - pos < 4 then BadFrame(PartialRecord)
    else
      var length := FromLE(file[pos..pos + 4]);
      if length == 0 || length > MAX_RECORD then BadFrame(InvalidLength)
      else if |file| - pos < 8 + length then BadFrame(PartialRecord)
      else
        var record := file[pos + 8..pos + 8 + length];
        if Crc32(record) != FromLE(file[pos + 4..pos + 8]) then BadFrame(ChecksumMismatch)
        else
          match ParseRecord(record, portable)
          case Malformed(status) => BadFrame(status)
          case Parsed(op, sequence) => GoodFrame(op, sequence, pos + 8 + length)
  }

  /** The sequence the next record must carry; replay from inside a file takes any nonzero one. */
  datatype Expected = AnySequence | Exactly(sequence: nat)

  predicate Accepts(expected: Expected, sequence: nat) {
    sequence != 0 && (expected.Exactly? ==> sequence == expected.sequence)
  }

  datatype Cursor = Cursor(pos: nat, expected: Expected)

  datatype FrameStep = Stop(status: Status) | Applied(op: Op, next: Cursor)

  function ReadStep(file: seq<byte>, portable: bool, c: Cursor): (s: FrameStep)
    ensures s.Applied? ==> c.pos < s.next.pos <= |file|
  {
    match ReadFrame(file, portable, c.pos)
    case EndOfFile => Stop(CleanEof)
    case BadFrame(status) => Stop(status)
    case GoodFrame(op, sequence, next) =>
      if portable && !Accepts(c.expected, sequence) then Stop(InvalidSequence)
      else Applied(op, Cursor(next, Exactly(sequence + 1)))
  }

  /** Reading a whole good frame depends on its own bytes only. */
  lemma ReadStepLocal(a: seq<byte>, b: seq<byte>, portable: bool, c: Cursor)
    requires ReadStep(a, portable, c).Applied?
    requires ReadStep(a, portable, c).next.pos <= |b|
    requires a[c.pos..ReadStep(a, portable, c).next.pos] == b[c.pos..ReadStep(a, portable, c).next.pos]
    ensures ReadStep(b, portable, c) == ReadStep(a, portable, c)
  {
    hide Crc32, ParseRecord, FromLE;
    var p, q := c.pos, ReadStep(a, portable, c).next.pos;
    SharedHalves(a, b, p, p + 8, q);
    SharedHalves(a, b, p, p + 4, p + 8);
  }

  // ------------------------------------------------------------ the replay loop

  datatype Scanned = Scanned(ops: seq<Op>, status: Status, end: Cursor)

  function Scan(file: seq<byte>, portable: bool, c: Cursor): (r: Scanned)
    ensures c.pos <= r.end.pos && (r.end.pos <= |file| || r.end == c)
    decreases |file| - c.pos
  {
    match ReadStep(file, portable, c)
    case Stop(status) => Scanned([], status, c)
    case Applied(op, next) =>
      var r := Scan(file, portable, next);
      Scanned([op] + r.ops, r.status, r.end)
  }

  /** The cursor after the first `k` records. */
  function After(file: seq<byte>, portable: bool, c: Cursor, k: nat): (d: Cursor)
    requires k <= |Scan(file, portable, c).ops|
    ensures c.pos <= d.pos && (k > 0 ==> d.pos <= |file|)
    decreases k
  {
    if k == 0 then c else After(file, portable, ReadStep(file, portable, c).next, k - 1)
  }

  function Prefixed(ops: seq<Op>, r: Scanned): Scanned {
    Scanned(ops + r.ops, r.status, r.end)
  }

  /**
   * Two files that agree up to the k-th record boundary of the first replay the
   * same k records, and then whatever the second file holds from there.
   */
  lemma {:induction false} ScanShared(a: seq<byte>, b: seq<byte>, portable: bool, c: Cursor, k: nat)
    requires k <= |Scan(a, portable, c).ops|
    requires After(a, portable, c, k).pos <= |b| || k == 0
    requires k > 0 ==> a[c.pos..After(a, portable, c, k).pos] == b[c.pos..After(a, portable, c, k).pos]
    ensures Scan(b, portable, c) == Prefixed(Scan(a, portable, c).ops[..k], Scan(b, portable, After(a, portable, c, k)))
    decreases k
  {
    hide ReadStep, Scan, After;
    if k == 0 {
      NoneAfter(a, portable, c);
      assert [] + Scan(b, portable, c).ops == Scan(b, portable, c).ops;
    } else {
      OneAfter(a, portable, c, k);
      var q, next, op := After(a, portable, c, k).pos, ReadStep(a, portable, c).next, ReadStep(a, portable, c).op;
      SharedHalves(a, b, c.pos, next.pos, q);
      ReadStepLocal(a, b, portable, c);
      ScanShared(a, b, portable, next, k - 1);
      ScanOne(b, portable, c, op, next);
      var ra, rb := Scan(a, portable, next).ops, Scan(b, portable, After(a, portable, c, k)).ops;
      assert ([op] + ra)[..k] == [op] + ra[..k - 1];
      assert [op] + (ra[..k - 1] + rb) == ([op] + ra[..k - 1]) + rb;
    }
  }

  lemma NoneAfter(file: seq<byte>, portable: bool, c: Cursor)
    ensures After(file, portable, c, 0) == c
  {
  }

  lemma OneAfter(file: seq<byte>, portable: bool, c: Cursor, k: nat)
    requires 0 < k <= |Scan(file, portable, c).ops|
    ensures var s := ReadStep(file, portable, c);
            && s.Applied? && Scan(file, portable, c).ops == [s.op] + Scan(file, portable, s.next).ops
            && After(file, portable, c, k) == After(file, portable, s.next, k - 1)
            && c.pos <= s.next.pos <= After(file, portable, c, k).pos <= |file|
  {
    hide ReadStep;
  }

  lemma ScanOne(file: seq<byte>, portable: bool, c: Cursor, op: Op, next: Cursor)
    requires ReadStep(file, portable, c) == Applied(op, next)
    ensures var r := Scan(file, portable, next);
            Scan(file, portable, c) == Scanned([op] + r.ops, r.status, r.end)
  {
    hide ReadStep;
  }

  lemma SharedHalves(a: seq<byte>, b: seq<byte>, i: nat, j: nat, k: nat)
    requires i <= j <= k <= |a| && k <= |b| && a[i..k] == b[i..k]
    ensures a[i..j] == b[i..j] && a[j..k] == b[j..k]
  {
    SliceOfSlice(a, i, k, 0, j - i);
    SliceOfSlice(b, i, k, 0, j - i);
    SliceOfSlice(a, i, k, j - i, k - i);
    SliceOfSlice(b, i, k, j - i, k - i);
  }

  lemma {:induction false} AfterAll(file: seq<byte>, portable: bool, c: Cursor)
    ensures After(file, portable, c, |Scan(file, portable, c).ops|) == Scan(file, portable, c).end
    decreases |Scan(file, portable, c).ops|
  {
    hide ReadStep;
    if ReadStep(file, portable, c).Applied? {
      AfterAll(file, portable, ReadStep(file, portable, c).next);
    }
  }

  /** Cutting a file where replay stopped keeps every record replayed and makes the end clean. */
  lemma ScanTruncated(file: seq<byte>, portable: bool, c: Cursor)
    requires c.pos <= |file|
    ensures var r := Scan(file, portable, c);
            Scan(file[..r.end.pos], portable, c) == Scanned(r.ops, CleanEof, r.end)
  {
    hide ReadFrame, Scan, After;
    var r := Scan(file, portable, c);
    var cut := file[..r.end.pos];
    AfterAll(file, portable, c);
    assert file[c.pos..r.end.pos] == cut[c.pos..r.end.pos];
    ScanShared(file, cut, portable, c, |r.ops|);
    AtEnd(cut, portable, r.end);
    assert r.ops[..|r.ops|] + [] == r.ops;
  }

  lemma AtEnd(file: seq<byte>, portable: bool, c: Cursor)
    requires |file| <= c.pos
    ensures Scan(file, portable, c) == Scanned([], CleanEof, c)
  {
  }

  // ------------------------------------------------------------ whole files

  datatype ReplayResult = ReplayResult(
    ops: seq<Op>,
    status: Status,
    start: nat,
    lastGood: nat,
    stop: nat,
    generation: nat,
    lastSequence: nat
  )

  /** The file starts like a version 3 log, as far as it goes. */
  predicate Portable(file: seq<byte>) {
    var n := if |file| < 4 then |file| else 4;
    file[..n] == MAGIC[..n]
  }

  /** Where the loop starts, once the header has been accepted. */
  function StartCursor(portable: bool, offset: nat): Cursor {
    if portable && (offset == 0 || offset == HEADER_LENGTH) then Cursor(HEADER_LENGTH, Exactly(1))
    else Cursor(offset, AnySequence)
  }

  function ReplayFrom(file: seq<byte>, offset: nat): (r: ReplayResult)
    ensures r.stop == r.lastGood && r.start == offset
  {
    if file == [] then ReplayResult([], CleanEof, offset, offset, offset, 0, 0)
    else
      var portable := Portable(file);
      var generation := if portable && |file| >= HEADER_LENGTH then FromLE(file[12..20]) else 0;
      if portable && (!HeaderValid(file) || 0 < offset < HEADER_LENGTH) then
        ReplayResult([], InvalidHeader, offset, 0, 0, generation, 0)
      else
        var r := Scan(file, portable, StartCursor(portable, offset));
        ReplayResult(r.ops, r.status, offset, r.end.pos, r.end.pos, generation,
                     if portable && r.ops != [] && r.end.expected.Exactly? && r.end.expected.sequence > 0
                     then r.end.expected.sequence - 1 else 0)
  }

  // ------------------------------------------------------------ logs as the writer produces them

  function Frames(ops: seq<Op>, first: nat): seq<byte> {
    if ops == [] then [] else Frame(first, ops[0]) + Frames(ops[1..], first + 1)
  }

  function LogBytes(generation: nat, ops: seq<Op>): seq<byte> {
    Header(generation) + Frames(ops, 1)
  }

  predicate AllBounded(ops: seq<Op>) {
    forall i :: 0 <= i < |ops| ==> Bounded(ops[i])
  }

  function FrameSize(op: Op): nat {
    16 + |Payload(op)|
  }

  function Size(ops: seq<Op>): nat {
    if ops == [] then 0 else FrameSize(ops[0]) + Size(ops[1..])
  }

  /** Byte offset just after the given records of a version 3 log. */
  function BoundaryOf(ops: seq<Op>): nat {
    HEADER_LENGTH + Size(ops)
  }

  /** How many whole frames fit in the first `cut` bytes. */
  function Whole(ops: seq<Op>, cut: nat): (n: nat)
    ensures n <= |ops|
  {
    if ops == [] || cut < FrameSize(ops[0]) then 0 else 1 + Whole(ops[1..], cut - FrameSize(ops[0]))
  }

  lemma {:induction false} FramesSize(ops: seq<Op>, first: nat)
    ensures |Frames(ops, first)| == Size(ops)
  {
    if ops != [] {
      FrameLength(first, ops[0]);
      FramesSize(ops[1..], first + 1);
    }
  }

  lemma {:induction false} FramesAppend(a: seq<Op>, b: seq<Op>, first: nat)
    ensures Frames(a + b, first) == Frames(a, first) + Frames(b, first + |a|)
  {
    hide Frame;
    if a == [] {
      assert a + b == b;
    } else {
      assert (a + b)[1..] == a[1..] + b && (a + b)[0] == a[0];
      FramesAppend(a[1..], b, first + 1);
      Regroup(Frame(first, a[0]), Frames(a[1..], first + 1), Frames(b, first + |a|));
    }
  }

  lemma Regroup(x: seq<byte>, y: seq<byte>, z: seq<byte>)
    ensures x + (y + z) == (x + y) + z
  {
  }

  lemma {:induction false} SizeAppend(a: seq<Op>, b: seq<Op>)
    ensures Size(a + b) == Size(a) + Size(b)
  {
    if a == [] {
      assert a + b == b;
    } else {
      hide FrameSize;
      assert (a + b)[1..] == a[1..] + b;
      SizeAppend(a[1..], b);
    }
  }

  /** `Whole` is the number of record boundaries at or before the cut. */
  lemma {:induction false} WholeBrackets(ops: seq<Op>, cut: nat)
    ensures var n := Whole(ops, cut);
            Size(ops[..n]) <= cut && (n < |ops| ==> cut < Size(ops[..n + 1]))
  {
    hide FrameSize;
    if ops != [] && cut >= FrameSize(ops[0]) {
      var n := Whole(ops[1..], cut - FrameSize(ops[0]));
      WholeBrackets(ops[1..], cut - FrameSize(ops[0]));
      assert ops[..n + 1][1..] == ops[1..][..n];
      if n + 1 < |ops| {
        assert ops[..n + 2][1..] == ops[1..][..n + 1];
      }
    } else if ops != [] {
      assert ops[..1][1..] == [];
    }
  }

  /** A whole printed frame is read as its operation. */
  lemma ReadPrinted(file: seq<byte>, pos: nat, sequence: nat, op: Op)
    requires sequence < U64_LIMIT && Bounded(op)
    requires pos + FrameSize(op) <= |file|
    requires file[pos..pos + FrameSize(op)] == Frame(sequence, op)
    ensures ReadFrame(file, true, pos) == GoodFrame(op, sequence, pos + FrameSize(op))
  {
    hide Crc32, ParseRecord, LE, FromLE, Payload;
    var record := RecordBytes(sequence, op);
    var frame := file[pos..pos + FrameSize(op)];
    assert |record| == 8 + |Payload(op)|;
    var end := pos + FrameSize(op);
    SliceOfSlice(file, pos, end, 0, 4);
    SliceOfSlice(file, pos, end, 4, 8);
    SliceOfSlice(file, pos, end, 8, end - pos);
    assert frame[0..4] == LE(|record|, 4);
    assert frame[4..8] == LE(Crc32(record), 4);
    assert frame[8..end - pos] == record;
    Encoded32(|record|);
    Crc32Fits(record);
    Encoded32(Crc32(record));
    BoundedFields(op);
    ParsePrinted(sequence, op);
  }

  /** A frame cut short is read as nothing or as a partial record, whatever its checksum. */
  lemma ReadTorn(file: seq<byte>, pos: nat, sequence: nat, op: Op)
    requires Bounded(op)
    requires pos <= |file| < pos + FrameSize(op)
    requires file[pos..] == Frame(sequence, op)[..|file| - pos]
    ensures ReadFrame(file, true, pos) == if |file| == pos then EndOfFile else BadFrame(PartialRecord)
  {
    hide Crc32, ParseRecord, LE, FromLE, Payload;
    var record := RecordBytes(sequence, op);
    if |file| - pos >= 4 {
      var length := file[pos..pos + 4];
      assert length == file[pos..][..4] && length == Frame(sequence, op)[..4];
      assert length == LE(|record|, 4);
      Encoded32(|record|);
    }
  }

  /** What replay makes of freshly written frames cut to `cut` bytes. */
  function TornScan(ops: seq<Op>, first: nat, c: Cursor, cut: nat): Scanned {
    var n := Whole(ops, cut);
    Scanned(ops[..n],
            if cut == Size(ops[..n]) then CleanEof else PartialRecord,
            Cursor(c.pos + Size(ops[..n]), if n == 0 then c.expected else Exactly(first + n)))
  }

  lemma TornScanStep(ops: seq<Op>, first: nat, c: Cursor, cut: nat)
    requires ops != [] && FrameSize(ops[0]) <= cut
    ensures var size := FrameSize(ops[0]);
            var r := TornScan(ops[1..], first + 1, Cursor(c.pos + size, Exactly(first + 1)), cut - size);
            TornScan(ops, first, c, cut) == Scanned([ops[0]] + r.ops, r.status, r.end)
  {
    hide FrameSize, Size;
    SizeOfPrefix(ops, Whole(ops[1..], cut - FrameSize(ops[0])));
  }

  lemma TornScanStop(ops: seq<Op>, first: nat, c: Cursor, cut: nat)
    requires if ops == [] then cut == 0 else 0 < cut < FrameSize(ops[0]) || cut == 0
    ensures TornScan(ops, first, c, cut) == Scanned([], if cut == 0 then CleanEof else PartialRecord, c)
    ensures ops != [] ==> FrameSize(ops[0]) > 0
  {
    assert ops[..0] == [];
  }

  /**
   * Replay of the first `cut` bytes of freshly written frames: exactly the whole
   * ones, and a clean end exactly when the cut falls on a boundary.
   */
  lemma {:induction false} ScanFrames(file: seq<byte>, c: Cursor, ops: seq<Op>, first: nat)
    requires c.pos <= |file| <= c.pos + Size(ops)
    requires |Frames(ops, first)| == Size(ops) && file[c.pos..] == Frames(ops, first)[..|file| - c.pos]
    requires AllBounded(ops) && 0 < first && first + |ops| <= U64_LIMIT
    requires c.expected == AnySequence || c.expected == Exactly(first)
    ensures Scan(file, true, c) == TornScan(ops, first, c, |file| - c.pos)
    decreases ops
  {
    hide ReadFrame, Frame, Frames, FrameSize, Bounded, Size, TornScan, Scan;
    var cut := |file| - c.pos;
    SizeNothing(ops);
    if cut == 0 {
      AtEnd(file, true, c);
      TornScanStop(ops, first, c, 0);
    } else if cut < FrameSize(ops[0]) {
      FirstFrame(file, c.pos, ops, first);
      ReadTorn(file, c.pos, first, ops[0]);
      StopsAt(file, c, PartialRecord);
      TornScanStop(ops, first, c, cut);
    } else {
      FirstFrame(file, c.pos, ops, first);
      ReadPrinted(file, c.pos, first, ops[0]);
      FramesSize(ops[1..], first + 1);
      var next := Cursor(c.pos + FrameSize(ops[0]), Exactly(first + 1));
      ScanFrames(file, next, ops[1..], first + 1);
      ScanOne(file, true, c, ops[0], next);
      TornScanStep(ops, first, c, cut);
    }
  }

  lemma StopsAt(file: seq<byte>, c: Cursor, status: Status)
    requires ReadStep(file, true, c) == Stop(status)
    ensures Scan(file, true, c) == Scanned([], status, c)
  {
    hide ReadStep;
  }

  lemma SizeNothing(ops: seq<Op>)
    ensures Size([]) == 0 && (ops != [] ==> Size(ops) == FrameSize(ops[0]) + Size(ops[1..]))
  {
    hide FrameSize;
  }

  /** Splits the first frame off a possibly torn run of frames. */
  lemma FirstFrame(file: seq<byte>, pos: nat, ops: seq<Op>, first: nat)
    requires ops != [] && pos <= |file| <= pos + Size(ops)
    requires |Frames(ops, first)| == Size(ops) && file[pos..] == Frames(ops, first)[..|file| - pos]
    ensures FrameSize(ops[0]) > 0
    ensures var cut, size := |file| - pos, FrameSize(ops[0]);
            var rest := Frames(ops[1..], first + 1);
            if cut < size then cut <= |Frame(first, ops[0])| && file[pos..] == Frame(first, ops[0])[..cut]
            else && file[pos..pos + size] == Frame(first, ops[0])
                 && cut - size <= |rest| && file[pos + size..] == rest[..cut - size]
  {
    hide Frame, FrameSize;
    var cut, size := |file| - pos, FrameSize(ops[0]);
    var frame, rest := Frame(first, ops[0]), Frames(ops[1..], first + 1);
    FrameHas(first, ops[0]);
    if cut < size {
      assert (frame + rest)[..cut] == frame[..cut];
    } else {
      assert (frame + rest)[..cut] == frame + rest[..cut - size];
      Peel(file, pos, frame, rest[..cut - size]);
    }
  }

  lemma SizeOfPrefix(ops: seq<Op>, n: nat)
    requires n < |ops|
    ensures [ops[0]] + ops[1..][..n] == ops[..n + 1]
    ensures Size(ops[..n + 1]) == FrameSize(ops[0]) + Size(ops[1..][..n])
  {
    hide FrameSize;
    assert ops[..n + 1][1..] == ops[1..][..n];
  }

  lemma FrameHas(sequence: nat, op: Op)
    ensures |Frame(sequence, op)| == FrameSize(op) && FrameSize(op) > 0
  {
    FrameLength(sequence, op);
  }

  /** Whatever replay accepted, the accepted bytes are exactly what the writer prints for it. */
  lemma {:induction false} AcceptedIsPrinted(file: seq<byte>, c: Cursor)
    requires c.expected.Exactly? && c.pos <= |file|
    ensures var r := Scan(file, true, c);
            && file[c.pos..r.end.pos] == Frames(r.ops, c.expected.sequence)
            && AllBounded(r.ops)
            && r.end.expected == Exactly(c.expected.sequence + |r.ops|)
            && (r.ops != [] ==> c.expected.sequence + |r.ops| <= U64_LIMIT)
    decreases |file| - c.pos
  {
    hide ReadFrame, Frame, Bounded;
    var s := ReadStep(file, true, c);
    if s.Applied? {
      var r := Scan(file, true, c);
      AcceptedFrame(file, c.pos);
      AcceptedIsPrinted(file, s.next);
      var q, e := s.next.pos, r.end.pos;
      assert file[c.pos..e] == file[c.pos..q] + file[q..e];
      assert r.ops[1..] == Scan(file, true, s.next).ops;
    }
  }

  lemma AcceptedFrame(file: seq<byte>, pos: nat)
    requires ReadFrame(file, true, pos).GoodFrame?
    ensures var f := ReadFrame(file, true, pos);
            file[pos..f.next] == Frame(f.sequence, f.op) && Bounded(f.op) && f.sequence < U64_LIMIT
  {
    hide Crc32, ParseRecord, LE, FromLE, Payload;
    var f := ReadFrame(file, true, pos);
    var record := file[pos + 8..f.next];
    PrintParsed(record);
    Field32(file[pos..pos + 4]);
    Field32(file[pos + 4..pos + 8]);
    assert file[pos..f.next] == file[pos..pos + 4] + file[pos + 4..pos + 8] + record;
  }
}
