/**
 * What replay makes of a good log followed by bytes that are no next record: the good part
 * is applied, replay stops at its end, and the status says what is wrong with the bytes.
 */
module BadTails {
  import opened Bytes
  import opened Crc
  import opened Record
  import opened Replay
  import opened ReplayLaws

  /** Any bytes framed with the right length and checksum. */
  function RawFrame(record: seq<byte>): seq<byte> {
    LE(|record|, 4) + LE(Crc32(record), 4) + record
  }

  // ------------------------------------------------------------ a good log, and then

  /** Replay of a file that starts with a written log is its operations, and then what the scan makes of the rest. */
  lemma AfterGoodLog(generation: nat, ops: seq<Op>, tail: seq<byte>)
    requires GenerationFits(generation) && AllBounded(ops) && |ops| + 1 < U64_LIMIT
    ensures var file := LogBytes(generation, ops) + tail;
            var s := Scan(file, true, Cursor(BoundaryOf(ops), Exactly(|ops| + 1)));
            var r := ReplayFrom(file, 0);
            && r.ops == ops + s.ops && r.status == s.status && r.lastGood == s.end.pos && r.generation == generation
  {
    hide LogBytes, Scan, HeaderValid, BoundaryOf, AllBounded, After, Portable, FromLE;
    var log := LogBytes(generation, ops);
    var file, c := log + tail, Cursor(HEADER_LENGTH, Exactly(1));
    var end := Cursor(BoundaryOf(ops), Exactly(|ops| + 1));
    WholeScan(generation, ops);
    AfterAll(log, true, c);
    LogIsLong(generation, ops);
    HeaderFits(ops);
    assert file[HEADER_LENGTH..|log|] == log[HEADER_LENGTH..|log|];
    ScanShared(log, file, true, c, |ops|);
    assert ops[..|ops|] == ops;
    StartsGood(generation, ops, tail);
  }

  lemma HeaderFits(ops: seq<Op>)
    ensures BoundaryOf(ops) >= HEADER_LENGTH
  {
    hide Size;
  }

  lemma WholeScan(generation: nat, ops: seq<Op>)
    requires GenerationFits(generation) && AllBounded(ops) && |ops| + 1 < U64_LIMIT
    ensures var log := LogBytes(generation, ops);
            && Scan(log, true, Cursor(HEADER_LENGTH, Exactly(1)))
               == Scanned(ops, CleanEof, Cursor(BoundaryOf(ops), Exactly(|ops| + 1)))
            && |log| == BoundaryOf(ops)
  {
    hide Scan, Header, Frames, Bounded, Size, Whole;
    var log, c := LogBytes(generation, ops), Cursor(HEADER_LENGTH, Exactly(1));
    FramesSize(ops, 1);
    assert log[HEADER_LENGTH..] == Frames(ops, 1);
    assert Frames(ops, 1)[..Size(ops)] == Frames(ops, 1);
    ScanFrames(log, c, ops, 1);
    assert ops[..|ops|] == ops;
    WholeOfAll(ops);
  }

  lemma StartsGood(generation: nat, ops: seq<Op>, tail: seq<byte>)
    requires GenerationFits(generation)
    ensures var file := LogBytes(generation, ops) + tail;
            Portable(file) && HeaderValid(file) && FromLE(file[12..20]) == generation
  {
    hide LogBytes, FromLE, Crc32, Header, HeaderValid;
    var log := LogBytes(generation, ops);
    var file := log + tail;
    LogParts(generation, ops, |log|);
    LogIsLong(generation, ops);
    HeaderFits(ops);
    assert log[..|log|] == log;
    assert file[..HEADER_LENGTH] == log[..HEADER_LENGTH];
    HeaderReadsBack(generation, file);
    assert file[..4] == log[..4];
    SamePrefix(file, log);
  }

  lemma SamePrefix(file: seq<byte>, log: seq<byte>)
    requires |file| >= 4 && |log| >= 4 && file[..4] == log[..4] && Portable(log)
    ensures Portable(file)
  {
  }

  /** The replay applies the good log, and stops at its end with this status. */
  ghost predicate StopsThere(generation: nat, ops: seq<Op>, tail: seq<byte>, status: Status) {
    var r := ReplayFrom(LogBytes(generation, ops) + tail, 0);
    r.ops == ops && r.status == status && r.lastGood == BoundaryOf(ops)
  }

  lemma StopsIf(generation: nat, ops: seq<Op>, tail: seq<byte>, status: Status)
    requires GenerationFits(generation) && AllBounded(ops) && |ops| + 1 < U64_LIMIT
    requires ReadStep(LogBytes(generation, ops) + tail, true, Cursor(BoundaryOf(ops), Exactly(|ops| + 1))) == Stop(status)
    ensures StopsThere(generation, ops, tail, status)
  {
    hide LogBytes, BoundaryOf, ReadStep, ReplayFrom, AllBounded;
    AfterGoodLog(generation, ops, tail);
    Replay.StopsAt(LogBytes(generation, ops) + tail, Cursor(BoundaryOf(ops), Exactly(|ops| + 1)), status);
    assert ops + [] == ops;
  }

  // ------------------------------------------------------------ bad lengths

  /** A length of zero, or above the limit, stops replay as an invalid length, whatever follows. */
  lemma BadLength(generation: nat, ops: seq<Op>, length: nat, rest: seq<byte>)
    requires GenerationFits(generation) && AllBounded(ops) && |ops| + 1 < U64_LIMIT
    requires length < U32_LIMIT && (length == 0 || length > 67108864)
    ensures StopsThere(generation, ops, LE(length, 4) + rest, InvalidLength)
  {
    hide LogBytes, BoundaryOf, LE, FromLE, StopsThere, Crc32, ParseRecord, AllBounded;
    var log, tail := LogBytes(generation, ops), LE(length, 4) + rest;
    WholeScan(generation, ops);
    var file := log + tail;
    assert file[|log|..|log| + 4] == LE(length, 4);
    Encoded32(length);
    StopsIf(generation, ops, tail, InvalidLength);
  }

  // ------------------------------------------------------------ records with the right checksum

  /** A record within the limit, framed with its length and checksum, is parsed where it lies. */
  lemma FramedIsParsed(log: seq<byte>, record: seq<byte>, rest: seq<byte>)
    requires 0 < |record| <= MAX_RECORD
    ensures ReadFrame(log + (RawFrame(record) + rest), true, |log|)
            == var p := ParseRecord(record, true);
               if p.Parsed? then GoodFrame(p.op, p.sequence, |log| + 8 + |record|) else BadFrame(p.status)
  {
    hide Crc32, ParseRecord, LE, FromLE;
    var a, b := LE(|record|, 4), LE(Crc32(record), 4);
    var file := log + (RawFrame(record) + rest);
    assert RawFrame(record) + rest == a + (b + (record + rest));
    assert file[|log|..] == a + (b + (record + rest));
    Peel(file, |log|, a, b + (record + rest));
    Peel(file, |log| + 4, b, record + rest);
    Peel(file, |log| + 8, record, rest);
    Encoded32(|record|);
    Crc32Fits(record);
    Encoded32(Crc32(record));
  }

  lemma Malformed(generation: nat, ops: seq<Op>, record: seq<byte>, rest: seq<byte>, status: Status)
    requires GenerationFits(generation) && AllBounded(ops) && |ops| + 1 < U64_LIMIT
    requires 0 < |record| <= MAX_RECORD && ParseRecord(record, true) == Parse.Malformed(status)
    ensures StopsThere(generation, ops, RawFrame(record) + rest, status)
  {
    hide LogBytes, BoundaryOf, RawFrame, ReadFrame, ParseRecord, StopsThere, AllBounded;
    WholeScan(generation, ops);
    FramedIsParsed(LogBytes(generation, ops), record, rest);
    StopsIf(generation, ops, RawFrame(record) + rest, status);
  }

  /** An opcode that is neither that of a Set nor that of a Delete. */
  lemma BadOpcode(generation: nat, ops: seq<Op>, sequence: nat, opcode: byte, body: seq<byte>, rest: seq<byte>)
    requires GenerationFits(generation) && AllBounded(ops) && |ops| + 1 < U64_LIMIT
    requires opcode != 1 && opcode != 2 && 9 + |body| <= MAX_RECORD
    ensures StopsThere(generation, ops, RawFrame(LE(sequence, 8) + ([opcode] + body)) + rest, InvalidOpcode)
  {
    hide LogBytes, BoundaryOf, RawFrame, LE, FromLE, StopsThere, AllBounded;
    var record := LE(sequence, 8) + ([opcode] + body);
    assert record[8] == opcode;
    Malformed(generation, ops, record, rest, InvalidOpcode);
  }

  lemma PrintedKey(record: seq<byte>, sequence: nat, op: Op)
    requires record == RecordBytes(sequence, op) && Fits32(op)
    ensures |record| == 13 + |op.key| + if op.Set? then 4 + |op.value| else 0
    ensures record[8] == if op.Set? then OPCODE_SET else OPCODE_DELETE
    ensures FromLE(record[9..13]) == |op.key|
    ensures op.Set? ==> FromLE(record[13 + |op.key|..17 + |op.key|]) == |op.value|
  {
    hide LE, FromLE, RecordBytes;
    var tail := if op.Set? then LE(|op.value|, 4) + op.value else [];
    PrintedParts(record, sequence, op, tail);
    Encoded32(|op.key|);
    if op.Set? {
      Peel(record, 13 + |op.key|, LE(|op.value|, 4), op.value);
      Encoded32(|op.value|);
    }
  }

  /** Bytes behind the end of a record, inside its frame. */
  lemma ExtraBytes(generation: nat, ops: seq<Op>, sequence: nat, op: Op, extra: seq<byte>, rest: seq<byte>)
    requires GenerationFits(generation) && AllBounded(ops) && |ops| + 1 < U64_LIMIT
    requires Fits32(op) && extra != [] && |RecordBytes(sequence, op)| + |extra| <= MAX_RECORD
    ensures StopsThere(generation, ops, RawFrame(RecordBytes(sequence, op) + extra) + rest, InvalidPayload)
  {
    hide LogBytes, BoundaryOf, RawFrame, LE, FromLE, StopsThere, AllBounded, RecordBytes, ParseRecord;
    LongerIsInvalid(sequence, op, extra);
    Malformed(generation, ops, RecordBytes(sequence, op) + extra, rest, InvalidPayload);
  }

  lemma LongerIsInvalid(sequence: nat, op: Op, extra: seq<byte>)
    requires Fits32(op) && extra != []
    ensures ParseRecord(RecordBytes(sequence, op) + extra, true) == Parse.Malformed(InvalidPayload)
  {
    hide LE, FromLE, RecordBytes;
    var record := RecordBytes(sequence, op);
    var all, k := record + extra, |op.key|;
    PrintedKey(record, sequence, op);
    assert all[8] == record[8] && all[9..13] == record[9..13];
    if op.Set? { assert all[13 + k..17 + k] == record[13 + k..17 + k]; }
  }

  /** A record with its end missing, inside a frame of the length that is left. */
  lemma MissingBytes(generation: nat, ops: seq<Op>, sequence: nat, op: Op, cut: nat, rest: seq<byte>)
    requires GenerationFits(generation) && AllBounded(ops) && |ops| + 1 < U64_LIMIT
    requires Fits32(op) && 0 < cut < |RecordBytes(sequence, op)| && cut <= MAX_RECORD
    ensures StopsThere(generation, ops, RawFrame(RecordBytes(sequence, op)[..cut]) + rest, PartialPayload)
  {
    hide LogBytes, BoundaryOf, RawFrame, LE, FromLE, StopsThere, AllBounded, RecordBytes, ParseRecord;
    ShorterIsPartial(sequence, op, cut);
    Malformed(generation, ops, RecordBytes(sequence, op)[..cut], rest, PartialPayload);
  }

  lemma ShorterIsPartial(sequence: nat, op: Op, cut: nat)
    requires Fits32(op) && cut < |RecordBytes(sequence, op)|
    ensures ParseRecord(RecordBytes(sequence, op)[..cut], true) == Parse.Malformed(PartialPayload)
  {
    hide LE, FromLE, RecordBytes;
    var record := RecordBytes(sequence, op);
    var all, k := record[..cut], |op.key|;
    PrintedKey(record, sequence, op);
    if cut >= 9 { assert all[8] == record[8]; }
    if cut >= 13 { assert all[9..13] == record[9..13]; }
    if op.Set? && cut >= 17 + k { assert all[13 + k..17 + k] == record[13 + k..17 + k]; }
  }

  /** A whole record that carries another sequence than the next one. */
  lemma OutOfSequence(generation: nat, ops: seq<Op>, sequence: nat, op: Op, rest: seq<byte>)
    requires GenerationFits(generation) && AllBounded(ops) && |ops| + 1 < U64_LIMIT
    requires Bounded(op) && sequence < U64_LIMIT && sequence != |ops| + 1
    ensures StopsThere(generation, ops, Frame(sequence, op) + rest, InvalidSequence)
  {
    hide LogBytes, BoundaryOf, LE, FromLE, StopsThere, AllBounded, RecordBytes, ParseRecord, ReadFrame, Crc32, Fits32;
    WholeScan(generation, ops);
    RecordIsBounded(sequence, op);
    FramedIsParsed(LogBytes(generation, ops), RecordBytes(sequence, op), rest);
    ParsePrinted(sequence, op);
    StopsIf(generation, ops, Frame(sequence, op) + rest, InvalidSequence);
  }

  lemma RecordIsBounded(sequence: nat, op: Op)
    requires Bounded(op)
    ensures 0 < |RecordBytes(sequence, op)| <= MAX_RECORD && Fits32(op)
  {
    hide LE;
  }

  // ------------------------------------------------------------ files without a good start

  /**
   * A file that starts like version 3, is long enough for a header, and does not have the
   * header of the generation it carries: nothing is applied, from whatever offset, nothing
   * is kept, and the generation is reported as found.
   */
  lemma BadHeader(file: seq<byte>, offset: nat)
    requires |file| >= 24 && file[..4] == MAGIC
    requires FromLE(file[12..20]) == 0 || file[..24] != Header(FromLE(file[12..20]))
    ensures ReplayFrom(file, offset) == ReplayResult([], InvalidHeader, offset, 0, 0, FromLE(file[12..20]), 0)
  {
    hide FromLE, HeaderValid, Header, Scan;
    if HeaderValid(file) { HeaderWritesBack(file); }
    assert MAGIC[..4] == MAGIC;
  }

  /** An offset inside the header is refused, however good the log. */
  lemma InsideHeader(generation: nat, ops: seq<Op>, offset: nat)
    requires GenerationFits(generation) && 0 < offset < 24
    ensures ReplayFrom(LogBytes(generation, ops), offset)
            == ReplayResult([], InvalidHeader, offset, 0, 0, generation, 0)
  {
    hide LogBytes, FromLE, HeaderValid, Portable, Scan;
    var log := LogBytes(generation, ops);
    assert log + [] == log;
    StartsGood(generation, ops, []);
    LogIsLong(generation, ops);
  }

  /** From the end of a log on nothing is applied, and the offset is reported as good as it is. */
  lemma PastTheEnd(generation: nat, ops: seq<Op>, offset: nat)
    requires GenerationFits(generation) && offset >= |LogBytes(generation, ops)| && ops != []
    ensures ReplayFrom(LogBytes(generation, ops), offset)
            == ReplayResult([], CleanEof, offset, offset, offset, generation, 0)
  {
    hide LogBytes, FromLE, HeaderValid, Portable, Scan, BoundaryOf;
    var log := LogBytes(generation, ops);
    assert log + [] == log;
    StartsGood(generation, ops, []);
    LogIsLong(generation, ops);
    BehindHeader(ops);
    AtEnd(log, true, Cursor(offset, AnySequence));
  }

  lemma BehindHeader(ops: seq<Op>)
    requires ops != []
    ensures BoundaryOf(ops) > HEADER_LENGTH
  {
    SizePositive(ops);
  }
}
