/**
 * The replay loop as the log runs it: a cursor over the file, one frame per
 * iteration, the map changed only after a whole frame has been validated.
 */
module ReplayLoop {
  import opened Bytes
  import opened Crc
  import opened Record
  import opened Replay

  /** The caller-visible report of a replay. */
  datatype Report = Report(
    applied: nat,
    status: Status,
    start: nat,
    lastGood: nat,
    stop: nat,
    generation: nat,
    lastSequence: nat,
    truncated: bool
  )

  /** What replay alone reports: it never truncates. */
  function ReportOf(r: ReplayResult): Report {
    Report(|r.ops|, r.status, r.start, r.lastGood, r.stop, r.generation, r.lastSequence, false)
  }

  /** Checks the 24-byte header; the generation is reported even when the header is rejected. */
  method ParseHeader(table: seq<bv32>, file: seq<byte>) returns (valid: bool, generation: nat)
    requires IsTable(table) && Portable(file)
    ensures valid == HeaderValid(file)
    ensures generation == if |file| >= HEADER_LENGTH then FromLE(file[12..20]) else 0
  {
    hide IsTable, Crc32, FromLE;
    if |file| < HEADER_LENGTH || file[..4] != MAGIC {
      return false, 0;
    }
    var ok, offset, version, marker, checksum;
    ok, offset, version := ConsumeLE(file, 4, 4);
    ok, offset, marker := ConsumeLE(file, offset, 4);
    ok, offset, generation := ConsumeLE(file, offset, 8);
    ok, offset, checksum := ConsumeLE(file, offset, 4);
    var computed := TableCrc(table, file[..20]);
    valid := version == VERSION && marker == ENDIAN_MARKER && generation != 0 && checksum == computed;
  }

  /** One frame, read field by field. */
  method ReadFrameBytes(table: seq<bv32>, file: seq<byte>, portable: bool, pos: nat) returns (read: FrameRead)
    requires IsTable(table)
    ensures read == ReadFrame(file, portable, pos)
  {
    hide IsTable, Crc32, FromLE, ParseRecord;
    if pos >= |file| { return EndOfFile; }
    var ok, cursor, length := ConsumeLE(file, pos, 4);
    if !ok { return BadFrame(PartialRecord); }
    if length == 0 || length > MAX_RECORD { return BadFrame(InvalidLength); }
    var expected, record;
    ok, cursor, expected := ConsumeLE(file, cursor, 4);
    if !ok { return BadFrame(PartialRecord); }
    ok, cursor, record := ConsumeBytes(file, cursor, length);
    if !ok { return BadFrame(PartialRecord); }
    var actual := TableCrc(table, record);
    if actual != expected { return BadFrame(ChecksumMismatch); }
    var parse := ParseRecordBytes(record, portable);
    match parse
    case Malformed(status) => return BadFrame(status);
    case Parsed(op, sequence) => return GoodFrame(op, sequence, cursor);
  }

  lemma ScanAdvances(file: seq<byte>, portable: bool, start: Cursor, done: seq<Op>, c: Cursor)
    requires Scan(file, portable, start) == Prefixed(done, Scan(file, portable, c))
    ensures var s := ReadStep(file, portable, c);
            Scan(file, portable, start) ==
            if s.Stop? then Scanned(done, s.status, c) else Prefixed(done + [s.op], Scan(file, portable, s.next))
  {
    hide ReadStep, Scan;
    var s := ReadStep(file, portable, c);
    if s.Applied? {
      ScanOne(file, portable, c, s.op, s.next);
      var rest := Scan(file, portable, s.next).ops;
      assert done + ([s.op] + rest) == done + [s.op] + rest;
    } else {
      ScanNone(file, portable, c);
      assert done + [] == done;
    }
  }

  lemma ScanNone(file: seq<byte>, portable: bool, c: Cursor)
    requires ReadStep(file, portable, c).Stop?
    ensures Scan(file, portable, c) == Scanned([], ReadStep(file, portable, c).status, c)
  {
    hide ReadStep;
  }

  lemma ReplayOneMore(store: Store, done: seq<Op>, op: Op)
    ensures ApplyAll(store, done + [op]) == Apply(ApplyAll(store, done), op)
  {
    hide Apply;
    ApplyAppend(store, done, [op]);
    assert ApplyAll(ApplyAll(store, done), [op]) == ApplyAll(Apply(ApplyAll(store, done), op), []);
  }

  /** The sequence test, with the 64-bit wrap of the successor. */
  predicate RejectsSequence(sequence: nat, applied: nat, start: nat, last: nat) {
    || sequence == 0
    || (applied == 0 && start == HEADER_LENGTH && sequence != 1)
    || (applied != 0 && sequence != (last + 1) % U64_LIMIT)
  }

  /** What the loop knows about the sequence it last applied. */
  predicate Tracks(portable: bool, start: Cursor, c: Cursor, applied: nat, last: nat) {
    if applied == 0 then c == start && last == 0
    else if portable then c.expected == Exactly(last + 1)
    else last == 0
  }

  lemma SequenceTest(file: seq<byte>, start: Cursor, c: Cursor, applied: nat, last: nat)
    requires ReadFrame(file, true, c.pos).GoodFrame? && Tracks(true, start, c, applied, last)
    requires start.expected == if start.pos == HEADER_LENGTH then Exactly(1) else AnySequence
    requires last < U64_LIMIT
    ensures var sequence := ReadFrame(file, true, c.pos).sequence;
            && sequence < U64_LIMIT
            && RejectsSequence(sequence, applied, start.pos, last) == !Accepts(c.expected, sequence)
  {
    hide ReadFrame, Frame, Bounded;
    AcceptedFrame(file, c.pos);
  }

  /** The frame loop over an accepted file. */
  method ReplayRecords(table: seq<bv32>, file: seq<byte>, portable: bool, start: nat, store: Store)
    returns (applied: nat, status: Status, cursor: nat, last: nat, replayed: Store, ghost end: Cursor)
    requires IsTable(table)
    ensures var c := Cursor(start, if portable && start == HEADER_LENGTH then Exactly(1) else AnySequence);
            var r := Scan(file, portable, c);
            && applied == |r.ops| && status == r.status && cursor == r.end.pos && end == r.end
            && replayed == ApplyAll(store, r.ops)
            && Tracks(portable, c, r.end, applied, last)
            && (!portable ==> last == 0)
  {
    hide IsTable, ReadFrame, Scan, Prefixed, Apply, ApplyAll, RejectsSequence, Accepts;
    ghost var c0 := Cursor(start, if portable && start == HEADER_LENGTH then Exactly(1) else AnySequence);
    ghost var done: seq<Op> := [];
    applied, status, cursor, last, replayed, end := 0, CleanEof, start, 0, store, c0;
    NothingYet(file, portable, c0, store);
    while true
      invariant cursor == end.pos && Scan(file, portable, c0) == Prefixed(done, Scan(file, portable, end))
      invariant applied == |done| && replayed == ApplyAll(store, done)
      invariant Tracks(portable, c0, end, applied, last) && last < U64_LIMIT && (!portable ==> last == 0)
      decreases |file| - cursor
    {
      var read := ReadFrameBytes(table, file, portable, cursor);
      ScanAdvances(file, portable, c0, done, end);
      match read
      case EndOfFile =>
        status := CleanEof;
        return;
      case BadFrame(bad) =>
        status := bad;
        return;
      case GoodFrame(op, sequence, next) =>
        if portable {
          SequenceTest(file, c0, end, applied, last);
          if RejectsSequence(sequence, applied, start, last) {
            status := InvalidSequence;
            return;
          }
          last := sequence;
        }
        ReplayOneMore(store, done, op);
        replayed := Apply(replayed, op);
        applied, cursor := applied + 1, next;
        done, end := done + [op], Cursor(next, Exactly(sequence + 1));
    }
  }

  lemma NothingYet(file: seq<byte>, portable: bool, c: Cursor, store: Store)
    ensures Scan(file, portable, c) == Prefixed([], Scan(file, portable, c))
    ensures ApplyAll(store, []) == store
  {
    hide ReadStep;
    assert [] + Scan(file, portable, c).ops == Scan(file, portable, c).ops;
  }

  /** Replays `file` from `offset` over `store`, stopping at the first frame that is not good. */
  method ReplayFromDetailed(table: seq<bv32>, file: seq<byte>, offset: nat, store: Store)
    returns (outcome: Outcome<Report>, replayed: Store)
    requires IsTable(table)
    ensures outcome.Threw? <==> offset > 0x7FFF_FFFF_FFFF_FFFF
    ensures outcome.Ok? ==> outcome.value == ReportOf(ReplayFrom(file, offset))
    ensures replayed == if outcome.Ok? then ApplyAll(store, ReplayFrom(file, offset).ops) else store
  {
    hide IsTable, HeaderValid, Scan, FromLE;
    if offset > MAX_STREAM_OFFSET { return Threw, store; }
    if file == [] {
      return Ok(Report(0, CleanEof, offset, offset, offset, 0, 0, false)), store;
    }
    var n := if |file| < 4 then |file| else 4;
    var portable := file[..n] == MAGIC[..n];
    var start, generation := offset, 0;
    if portable {
      var valid;
      valid, generation := ParseHeader(table, file);
      if !valid || (offset != 0 && offset < HEADER_LENGTH) {
        return Ok(Report(0, InvalidHeader, offset, 0, 0, generation, 0, false)), store;
      }
      if offset == 0 { start := HEADER_LENGTH; }
    }
    var applied, status, cursor, last, after, _ := ReplayRecords(table, file, portable, start, store);
    return Ok(Report(applied, status, offset, cursor, cursor, generation, last, false)), after;
  }
}
