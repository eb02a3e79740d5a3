/**
 * What recovery reads from a log that was truncated and is brought back, because the
 * truncation had not been synced, under a snapshot of the log that followed it. If the
 * snapshot's offset falls inside a value, the bytes of the value decide.
 */
module OldLogs {
  import opened Bytes
  import opened Crc
  import opened Record
  import opened Replay
  import opened ReplayLaws

  /** The size of the smallest frame: a deletion of the empty key. */
  const SMALLEST_FRAME: nat := 21

  function Zeros(n: nat): (zs: seq<byte>)
    ensures |zs| == n
  {
    if n == 0 then [] else [0] + Zeros(n - 1)
  }

  /** Where the value begins in the frame of a Set. */
  function ValueStart(key: Key): nat {
    25 + |key|
  }

  lemma ValueInFrame(sequence: nat, key: Key, value: Value)
    ensures |Frame(sequence, Set(key, value))| == FrameSize(Set(key, value)) == ValueStart(key) + |value|
    ensures Frame(sequence, Set(key, value))[ValueStart(key)..] == value
  {
    hide Crc32, LE, RecordBytes, Payload;
    var op := Set(key, value);
    var record := RecordBytes(sequence, op);
    RecordTail(record, sequence, key, value);
    FrameHas(sequence, op);
    var head := LE(|record|, 4) + LE(Crc32(record), 4);
    assert |head| == 8 && Frame(sequence, op) == head + record;
    Behind(head, record, 17 + |key|);
  }

  lemma RecordTail(record: seq<byte>, sequence: nat, key: Key, value: Value)
    requires record == RecordBytes(sequence, Set(key, value))
    ensures |record| == 17 + |key| + |value| && record[17 + |key|..] == value
  {
    hide LE, RecordBytes;
    var size := LE(|value|, 4);
    PrintedParts(record, sequence, Set(key, value), size + value);
    Peel(record, 13 + |key|, size, value);
  }

  lemma Behind(head: seq<byte>, tail: seq<byte>, i: nat)
    requires i <= |tail|
    ensures (head + tail)[|head| + i..] == tail[i..]
  {
  }

  // ------------------------------------------------------------ what is read at an offset

  /** A frame that lies at the offset is read, whatever it is a part of. */
  lemma FrameIsRead(file: seq<byte>, n: nat, sequence: nat, op: Op)
    requires HeaderValid(file) && n > HEADER_LENGTH && 0 < sequence < U64_LIMIT && Bounded(op)
    requires n + FrameSize(op) <= |file| && file[n..n + FrameSize(op)] == Frame(sequence, op)
    ensures ReplayFrom(file, n).ops != [] && ReplayFrom(file, n).ops[0] == op
    ensures n + FrameSize(op) == |file| ==> ReplayFrom(file, n).ops == [op]
  {
    hide HeaderValid, FrameSize, Frame, Bounded, Scan, ReadFrame;
    HeaderIsPortable(file);
    ReadPrinted(file, n, sequence, op);
    var next := Cursor(n + FrameSize(op), Exactly(sequence + 1));
    ScanOne(file, true, Cursor(n, AnySequence), op, next);
    if n + FrameSize(op) == |file| {
      AtEnd(file, true, next);
      assert [op] + [] == [op];
    }
  }

  lemma HeaderIsPortable(file: seq<byte>)
    requires HeaderValid(file)
    ensures Portable(file) && |file| >= HEADER_LENGTH
  {
    hide Crc32, FromLE;
    assert MAGIC[..4] == MAGIC;
  }

  /** Where there is no room for a frame, nothing is read. */
  lemma NoRoom(file: seq<byte>, n: nat)
    requires HeaderValid(file) && n <= |file| < n + SMALLEST_FRAME && n != 0
    ensures ReplayFrom(file, n).ops == []
  {
    hide HeaderValid, ReadStep, Scan;
    HeaderIsPortable(file);
    var c := StartCursor(true, n);
    NothingFits(file, c);
    StopsThere(file, c);
  }

  lemma StopsThere(file: seq<byte>, c: Cursor)
    requires ReadStep(file, true, c).Stop?
    ensures Scan(file, true, c).ops == []
  {
    hide ReadStep;
  }

  lemma NothingFits(file: seq<byte>, c: Cursor)
    requires |file| < c.pos + SMALLEST_FRAME
    ensures ReadStep(file, true, c).Stop?
  {
    hide Crc32, FromLE;
  }

  // ------------------------------------------------------------ offsets inside a value

  /** A log with one Set whose value is to be chosen. */
  function LogWith(generation: nat, former: seq<Op>, key: Key, value: Value, later: seq<Op>): seq<byte> {
    LogBytes(generation, former + [Set(key, value)] + later)
  }

  /** Where that value begins. */
  function ValueAt(former: seq<Op>, key: Key): nat {
    BoundaryOf(former) + ValueStart(key)
  }

  lemma ValueInLog(generation: nat, former: seq<Op>, key: Key, value: Value, later: seq<Op>)
    requires GenerationFits(generation)
    ensures var file := LogWith(generation, former, key, value, later);
            && HeaderValid(file) && ValueAt(former, key) + |value| <= |file|
            && file[ValueAt(former, key)..ValueAt(former, key) + |value|] == value
            && (later == [] ==> |file| == ValueAt(former, key) + |value|)
  {
    hide LogBytes, Frame, FrameSize, HeaderValid, Header;
    var ops, i, op := former + [Set(key, value)] + later, |former|, Set(key, value);
    var file := LogBytes(generation, ops);
    assert ops[..i] == former && ops[i] == op && ops[..i + 1] == former + [op];
    LogParts(generation, ops, 0);
    LogParts(generation, ops, |file|);
    LogIsLong(generation, ops);
    assert file[..|file|] == file;
    HeaderReadsBack(generation, file);
    FrameAt(generation, ops, i);
    ValueInFrame(i + 1, key, value);
    SizeAppend(former, [op]);
    assert Size([op]) == FrameSize(op) + Size([]);
    var b, e := BoundaryOf(former), BoundaryOf(former + [op]);
    SliceOfSlice(file, b, e, ValueStart(key), e - b);
    assert file[b..e][ValueStart(key)..] == file[b..e][ValueStart(key)..e - b];
    if later == [] { assert ops == former + [op]; }
  }

  lemma MiddlePart(x: seq<byte>, y: seq<byte>, z: seq<byte>)
    ensures (x + y + z)[|x|..|x| + |y|] == y
  {
    var m := (x + y + z)[|x|..|x| + |y|];
    assert |m| == |y| && forall k :: 0 <= k < |m| ==> m[k] == y[k];
  }

  /**
   * An offset inside a value with room for the frame of an operation, any operation: some
   * value of that size makes recovery apply it, although no call made it.
   */
  lemma ReadAsRecord(generation: nat, former: seq<Op>, key: Key, size: nat, later: seq<Op>, n: nat, op: Op)
    returns (value: Value)
    requires GenerationFits(generation) && Bounded(op)
    requires ValueAt(former, key) <= n && n + FrameSize(op) <= ValueAt(former, key) + size
    ensures |value| == size
    ensures var r := ReplayFrom(LogWith(generation, former, key, value, later), n);
            && r.ops != [] && r.ops[0] == op
            && (later == [] && n + FrameSize(op) == ValueAt(former, key) + size ==> r.ops == [op])
  {
    hide LogWith, Frame, FrameSize, HeaderValid, ReplayFrom, Bounded;
    var v := ValueAt(former, key);
    FrameHas(1, op);
    var rest := v + size - n - FrameSize(op);
    value := Zeros(n - v) + Frame(1, op) + Zeros(rest);
    var file := LogWith(generation, former, key, value, later);
    ValueInLog(generation, former, key, value, later);
    SliceOfSlice(file, v, v + size, n - v, n - v + FrameSize(op));
    MiddlePart(Zeros(n - v), Frame(1, op), Zeros(rest));
    FrameIsRead(file, n, 1, op);
  }

  /** Whatever the value, recovery from this offset applies nothing. */
  ghost predicate Harmless(generation: nat, former: seq<Op>, key: Key, size: nat, later: seq<Op>, n: nat) {
    forall value: Value :: |value| == size ==> ReplayFrom(LogWith(generation, former, key, value, later), n).ops == []
  }

  /** The frame has room, or goes on as the bytes behind the value do. */
  predicate Continues(frame: seq<byte>, room: nat, following: seq<byte>) {
    || |frame| <= room
    || (|frame| <= room + |following| && frame[room..] == following[..|frame| - room])
  }

  /** Some frame that the log accepts can begin where this many bytes of the value are left. */
  ghost predicate FrameCanBegin(room: nat, following: seq<byte>) {
    exists sequence: nat, op ::
      0 < sequence < U64_LIMIT && Bounded(op) && Continues(Frame(sequence, op), room, following)
  }

  /** The log ends with the frames of the later operations. */
  lemma LaterInLog(generation: nat, former: seq<Op>, key: Key, value: Value, later: seq<Op>)
    requires GenerationFits(generation)
    ensures var file, end := LogWith(generation, former, key, value, later), ValueAt(former, key) + |value|;
            end <= |file| && file[end..] == Frames(later, |former| + 2)
  {
    hide LogBytes, Frames, HeaderValid;
    ValueInLog(generation, former, key, value, later);
    ValueInLog(generation, former, key, value, []);
    var ops := former + [Set(key, value)];
    assert ops + [] == ops;
    LogExtends(generation, ops, later);
  }

  /**
   * An offset inside any value of a log, whatever follows it: nothing is read there for any
   * value of that size if and only if no frame can begin at the offset, within the rest of
   * the value or going on with the bytes behind it.
   */
  lemma HarmlessIffNoFrame(generation: nat, former: seq<Op>, key: Key, size: nat, later: seq<Op>, n: nat)
    requires GenerationFits(generation) && ValueAt(former, key) <= n <= ValueAt(former, key) + size
    ensures Harmless(generation, former, key, size, later, n)
            <==> !FrameCanBegin(ValueAt(former, key) + size - n, Frames(later, |former| + 2))
  {
    hide LogWith, Frame, Frames, ReplayFrom, Bounded, Continues;
    var room, following := ValueAt(former, key) + size - n, Frames(later, |former| + 2);
    if sequence: nat, op :| 0 < sequence < U64_LIMIT && Bounded(op) && Continues(Frame(sequence, op), room, following) {
      var value := ValueFor(generation, former, key, size, later, n, sequence, op);
    } else {
      forall value: Value | |value| == size
        ensures ReplayFrom(LogWith(generation, former, key, value, later), n).ops == []
      {
        NothingBegins(generation, former, key, value, later, n);
      }
    }
  }

  /** A value that makes the frame begin at the offset. */
  lemma ValueFor(generation: nat, former: seq<Op>, key: Key, size: nat, later: seq<Op>, n: nat, sequence: nat, op: Op)
    returns (value: Value)
    requires GenerationFits(generation) && ValueAt(former, key) <= n <= ValueAt(former, key) + size
    requires 0 < sequence < U64_LIMIT && Bounded(op)
    requires Continues(Frame(sequence, op), ValueAt(former, key) + size - n, Frames(later, |former| + 2))
    ensures |value| == size && ReplayFrom(LogWith(generation, former, key, value, later), n).ops != []
  {
    hide LogWith, Frame, FrameSize, Frames, HeaderValid, ReplayFrom, Bounded;
    var v, room, frame := ValueAt(former, key), ValueAt(former, key) + size - n, Frame(sequence, op);
    FrameHas(sequence, op);
    var part := if |frame| <= room then frame else frame[..room];
    value := Zeros(n - v) + part + Zeros(room - |part|);
    var file := LogWith(generation, former, key, value, later);
    ValueInLog(generation, former, key, value, later);
    LaterInLog(generation, former, key, value, later);
    SliceOfSlice(file, v, v + size, n - v, n - v + |part|);
    MiddlePart(Zeros(n - v), part, Zeros(room - |part|));
    if |frame| > room { FrameGoesOn(file, n, room, frame); }
    BehindHeader(former);
    FrameIsRead(file, n, sequence, op);
  }

  lemma BehindHeader(former: seq<Op>)
    ensures forall key :: ValueAt(former, key) > HEADER_LENGTH
  {
    hide Size;
  }

  lemma FrameGoesOn(file: seq<byte>, n: nat, room: nat, frame: seq<byte>)
    requires n + room <= |file| && room < |frame| && n + |frame| <= |file|
    requires file[n..n + room] == frame[..room] && file[n + room..][..|frame| - room] == frame[room..]
    ensures file[n..n + |frame|] == frame
  {
    assert file[n + room..][..|frame| - room] == file[n + room..n + |frame|];
    assert file[n..n + |frame|] == file[n..n + room] + file[n + room..n + |frame|];
    assert frame == frame[..room] + frame[room..];
  }

  lemma NothingBegins(generation: nat, former: seq<Op>, key: Key, value: Value, later: seq<Op>, n: nat)
    requires GenerationFits(generation) && ValueAt(former, key) <= n <= ValueAt(former, key) + |value|
    requires !FrameCanBegin(ValueAt(former, key) + |value| - n, Frames(later, |former| + 2))
    ensures ReplayFrom(LogWith(generation, former, key, value, later), n).ops == []
  {
    hide LogWith, Frame, Frames, HeaderValid, Bounded, ReadFrame, Scan, Continues;
    var file, room := LogWith(generation, former, key, value, later), ValueAt(former, key) + |value| - n;
    ValueInLog(generation, former, key, value, later);
    LaterInLog(generation, former, key, value, later);
    HeaderIsPortable(file);
    BehindHeader(former);
    var c := StartCursor(true, n);
    if ReadFrame(file, true, n).GoodFrame? {
      AcceptedFrame(file, n);
      var f := ReadFrame(file, true, n);
      AcceptedContinues(file, n, room, f.next, Frame(f.sequence, f.op));
    }
    StopsThere(file, c);
  }

  /** Whatever is accepted there has room, or goes on with the bytes behind the value. */
  lemma AcceptedContinues(file: seq<byte>, n: nat, room: nat, next: nat, frame: seq<byte>)
    requires n <= next <= |file| && n + room <= |file| && file[n..next] == frame
    ensures Continues(frame, room, file[n + room..])
  {
    if |frame| > room {
      SliceOfSlice(file, n, next, room, next - n);
      assert frame[room..] == frame[room..|frame|];
      assert file[n + room..][..|frame| - room] == file[n + room..next];
    }
  }

  /** An offset inside the last value of a log is harmless for all values of that size if and only if no frame fits. */
  lemma HarmlessIffNoRoom(generation: nat, former: seq<Op>, key: Key, size: nat, n: nat)
    requires GenerationFits(generation) && size <= MAX_RECORD
    requires ValueAt(former, key) <= n <= ValueAt(former, key) + size
    ensures Harmless(generation, former, key, size, [], n) <==> ValueAt(former, key) + size < n + SMALLEST_FRAME
  {
    hide LogWith, FrameSize, ReplayFrom, HeaderValid, Bounded;
    var room := ValueAt(former, key) + size - n;
    if room < SMALLEST_FRAME {
      forall value: Value | |value| == size
        ensures ReplayFrom(LogWith(generation, former, key, value, []), n).ops == []
      {
        ValueInLog(generation, former, key, value, []);
        NoRoom(LogWith(generation, former, key, value, []), n);
      }
    } else {
      var op := Delete(Zeros(room - SMALLEST_FRAME));
      DeletionSize(op);
      var value := ReadAsRecord(generation, former, key, size, [], n, op);
    }
  }

  lemma DeletionSize(op: Op)
    requires op.Delete? && |op.key| < MAX_RECORD - 20
    ensures FrameSize(op) == SMALLEST_FRAME + |op.key| && Bounded(op)
  {
    hide LE;
  }
}
