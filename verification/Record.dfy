/**
 * The version 3 log record: printing, patching a prepared frame in place, and
 * the cursor parser.
 */
module Record {
  import opened Bytes
  import opened Crc

  type Key = seq<byte>
  type Value = seq<byte>
  type Store = map<Key, Value>

  datatype Op = Set(key: Key, value: Value) | Delete(key: Key)

  const MAX_RECORD: nat := 64 * 1024 * 1024
  const OPCODE_SET: byte := 1
  const OPCODE_DELETE: byte := 2

  datatype Status =
    | CleanEof
    | InvalidHeader
    | PartialRecord
    | InvalidLength
    | InvalidSequence
    | InvalidOpcode
    | ChecksumMismatch
    | PartialPayload
    | InvalidPayload

  datatype Parse = Parsed(op: Op, sequence: nat) | Malformed(status: Status)

  datatype Outcome<T> = Ok(value: T) | Threw

  // ------------------------------------------------------------ applying operations

  function Apply(store: Store, op: Op): Store {
    match op
    case Set(k, v) => store[k := v]
    case Delete(k) => store - {k}
  }

  function ApplyAll(store: Store, ops: seq<Op>): Store
    decreases ops
  {
    if ops == [] then store else ApplyAll(Apply(store, ops[0]), ops[1..])
  }

  lemma {:induction false} ApplyAppend(store: Store, a: seq<Op>, b: seq<Op>)
    ensures ApplyAll(store, a + b) == ApplyAll(ApplyAll(store, a), b)
    decreases a
  {
    if a == [] {
      assert a + b == b;
    } else {
      assert (a + b)[1..] == a[1..] + b;
      ApplyAppend(Apply(store, a[0]), a[1..], b);
    }
  }

  lemma ApplyOne(store: Store, op: Op)
    ensures ApplyAll(store, [op]) == Apply(store, op)
  {
    hide Apply;
    assert ApplyAll(store, [op]) == ApplyAll(Apply(store, op), []);
  }

  lemma ApplyNone(store: Store)
    ensures ApplyAll(store, []) == store
  {
  }

  /** What `ops` leave under `k`, whatever was there before: the last operation on it decides. */
  predicate Touches(ops: seq<Op>, k: Key) {
    exists i :: 0 <= i < |ops| && ops[i].key == k
  }

  /** Two stores agree on one key: both lack it, or both map it to the same value. */
  predicate AgreeOn(a: Store, b: Store, k: Key) {
    (k in a <==> k in b) && (k in a ==> a[k] == b[k])
  }

  lemma {:induction false} ApplyAgrees(a: Store, b: Store, ops: seq<Op>, k: Key)
    requires AgreeOn(a, b, k) || Touches(ops, k)
    ensures AgreeOn(ApplyAll(a, ops), ApplyAll(b, ops), k)
    decreases ops
  {
    if ops != [] {
      if ops[0].key != k && Touches(ops, k) {
        var i :| 0 <= i < |ops| && ops[i].key == k;
        assert ops[1..][i - 1].key == k;
      }
      ApplyAgrees(Apply(a, ops[0]), Apply(b, ops[0]), ops[1..], k);
    }
  }

  lemma {:induction false} ApplyUntouched(store: Store, ops: seq<Op>, k: Key)
    requires !Touches(ops, k)
    ensures AgreeOn(ApplyAll(store, ops), store, k)
    decreases ops
  {
    if ops != [] {
      assert ops[0].key != k;
      assert forall i :: 0 <= i < |ops[1..]| ==> ops[1..][i] == ops[i + 1];
      ApplyUntouched(Apply(store, ops[0]), ops[1..], k);
    }
  }

  lemma AgreeEverywhere(a: Store, b: Store)
    requires forall k :: AgreeOn(a, b, k)
    ensures a == b
  {
    assert forall k :: AgreeOn(a, b, k) ==> (k in a <==> k in b) && (k in a ==> a[k] == b[k]);
    assert a.Keys == b.Keys;
  }

  /**
   * Replaying a log over a map that already contains its first part gives what
   * replaying it over the original map gives. With `b == []`: replay is idempotent.
   */
  lemma ReplayAbsorbs(store: Store, a: seq<Op>, b: seq<Op>)
    ensures ApplyAll(ApplyAll(store, a), a + b) == ApplyAll(store, a + b)
  {
    var after := ApplyAll(store, a);
    forall k
      ensures AgreeOn(ApplyAll(after, a), ApplyAll(store, a), k)
    {
      if !Touches(a, k) {
        ApplyUntouched(store, a, k);
      }
      ApplyAgrees(after, store, a, k);
    }
    AgreeEverywhere(ApplyAll(after, a), ApplyAll(store, a));
    ApplyAppend(after, a, b);
    ApplyAppend(store, a, b);
  }

  // ------------------------------------------------------------ printing

  function Payload(op: Op): seq<byte> {
    match op
    case Set(k, v) => [OPCODE_SET] + (LE(|k|, 4) + (k + (LE(|v|, 4) + v)))
    case Delete(k) => [OPCODE_DELETE] + (LE(|k|, 4) + k)
  }

  function RecordBytes(sequence: nat, op: Op): seq<byte> {
    LE(sequence, 8) + Payload(op)
  }

  function Frame(sequence: nat, op: Op): seq<byte> {
    var record := RecordBytes(sequence, op);
    LE(|record|, 4) + LE(Crc32(record), 4) + record
  }

  /** The log accepts an operation exactly when its record, sequence included, is at most 64 MiB. */
  predicate Bounded(op: Op) {
    8 + |Payload(op)| <= MAX_RECORD
  }

  // ------------------------------------------------------------ parsing

  /** What the parser makes of one checksummed record; `portable` records start with a sequence. */
  function ParseRecord(record: seq<byte>, portable: bool): Parse {
    var start := if portable then 8 else 0;
    if |record| < start + 1 then Malformed(PartialPayload)
    else
      var sequence := if portable then FromLE(record[..8]) else 0;
      var opcode := record[start];
      if opcode != OPCODE_SET && opcode != OPCODE_DELETE then Malformed(InvalidOpcode)
      else if |record| < start + 5 then Malformed(PartialPayload)
      else
        var keyEnd := start + 5 + FromLE(record[start + 1..start + 5]);
        if |record| < keyEnd then Malformed(PartialPayload)
        else
          var key := record[start + 5..keyEnd];
          if opcode == OPCODE_DELETE then
            if |record| != keyEnd then Malformed(InvalidPayload) else Parsed(Delete(key), sequence)
          else if |record| < keyEnd + 4 then Malformed(PartialPayload)
          else
            var valueEnd := keyEnd + 4 + FromLE(record[keyEnd..keyEnd + 4]);
            if |record| < valueEnd then Malformed(PartialPayload)
            else if |record| != valueEnd then Malformed(InvalidPayload)
            else Parsed(Set(key, record[keyEnd + 4..valueEnd]), sequence)
  }

  /** The parser as the cursor walk of the source. */
  method ParseRecordBytes(record: seq<byte>, portable: bool) returns (parse: Parse)
    ensures parse == ParseRecord(record, portable)
  {
    var offset, sequence, ok := 0, 0, true;
    if portable {
      ok, offset, sequence := ConsumeLE(record, offset, 8);
      if !ok { return Malformed(PartialPayload); }
    }
    if offset >= |record| { return Malformed(PartialPayload); }
    var opcode := record[offset];
    offset := offset + 1;
    if opcode != OPCODE_SET && opcode != OPCODE_DELETE { return Malformed(InvalidOpcode); }
    var keySize, key;
    ok, offset, keySize := ConsumeLE(record, offset, 4);
    if !ok { return Malformed(PartialPayload); }
    ok, offset, key := ConsumeBytes(record, offset, keySize);
    if !ok { return Malformed(PartialPayload); }
    if opcode == OPCODE_SET {
      var valueSize, value;
      ok, offset, valueSize := ConsumeLE(record, offset, 4);
      if !ok { return Malformed(PartialPayload); }
      ok, offset, value := ConsumeBytes(record, offset, valueSize);
      if !ok { return Malformed(PartialPayload); }
      if offset != |record| { return Malformed(InvalidPayload); }
      return Parsed(Set(key, value), sequence);
    }
    if offset != |record| { return Malformed(InvalidPayload); }
    return Parsed(Delete(key), sequence);
  }

  // ------------------------------------------------------------ printer and parser undo each other

  lemma PrintedParts(record: seq<byte>, sequence: nat, op: Op, tail: seq<byte>)
    requires record == RecordBytes(sequence, op)
    requires tail == if op.Set? then LE(|op.value|, 4) + op.value else []
    ensures |record| == 13 + |op.key| + |tail|
    ensures record[..8] == LE(sequence, 8)
    ensures record[8] == if op.Set? then OPCODE_SET else OPCODE_DELETE
    ensures record[9..13] == LE(|op.key|, 4)
    ensures record[13..13 + |op.key|] == op.key
    ensures record[13 + |op.key|..] == tail
  {
    hide LE;
    var opcode := [if op.Set? then OPCODE_SET else OPCODE_DELETE];
    assert op.key + [] == op.key;
    assert Payload(op) == opcode + (LE(|op.key|, 4) + (op.key + tail));
    assert record[0..] == record;
    Peel(record, 0, LE(sequence, 8), Payload(op));
    Peel(record, 8, opcode, LE(|op.key|, 4) + (op.key + tail));
    Peel(record, 9, LE(|op.key|, 4), op.key + tail);
    Peel(record, 13, op.key, tail);
    assert record[8] == record[8..9][0];
  }

  lemma ParseSet(record: seq<byte>, sequence: nat, k: Key, v: Value)
    requires |record| == 17 + |k| + |v| && record[8] == OPCODE_SET
    requires FromLE(record[..8]) == sequence
    requires FromLE(record[9..13]) == |k| && record[13..13 + |k|] == k
    requires FromLE(record[13 + |k|..17 + |k|]) == |v| && record[17 + |k|..17 + |k| + |v|] == v
    ensures ParseRecord(record, true) == Parsed(Set(k, v), sequence)
  {
    hide FromLE;
  }

  lemma ParseDelete(record: seq<byte>, sequence: nat, k: Key)
    requires |record| == 13 + |k| && record[8] == OPCODE_DELETE
    requires FromLE(record[..8]) == sequence
    requires FromLE(record[9..13]) == |k| && record[13..13 + |k|] == k
    ensures ParseRecord(record, true) == Parsed(Delete(k), sequence)
  {
    hide FromLE;
  }

  lemma BoundedFields(op: Op)
    requires Bounded(op)
    ensures |op.key| <= MAX_RECORD && (op.Set? ==> |op.value| <= MAX_RECORD)
  {
    hide LE;
  }

  /** Both fields fit their 32-bit lengths. */
  predicate Fits32(op: Op) {
    |op.key| < U32_LIMIT && (op.Set? ==> |op.value| < U32_LIMIT)
  }

  /** Parsing a printed record gives back the operation and its sequence. */
  lemma ParsePrinted(sequence: nat, op: Op)
    requires sequence < U64_LIMIT && Fits32(op)
    ensures ParseRecord(RecordBytes(sequence, op), true) == Parsed(op, sequence)
  {
    hide LE, FromLE, RecordBytes, ParseRecord;
    var record, k := RecordBytes(sequence, op), op.key;
    var tail := if op.Set? then LE(|op.value|, 4) + op.value else [];
    PrintedParts(record, sequence, op, tail);
    Encoded64(sequence);
    Encoded32(|k|);
    if op.Set? {
      var v := op.value;
      Peel(record, 13 + |k|, LE(|v|, 4), v);
      Encoded32(|v|);
      assert record[17 + |k|..17 + |k| + |v|] == record[17 + |k|..];
      ParseSet(record, sequence, k, v);
    } else {
      ParseDelete(record, sequence, k);
    }
  }

  lemma SplitAt(s: seq<byte>, i: nat)
    requires i <= |s|
    ensures s == s[..i] + s[i..]
  {
  }

  lemma SplitTwice(s: seq<byte>, i: nat, j: nat)
    requires i <= j <= |s|
    ensures s[i..] == s[i..j] + s[j..]
  {
  }

  lemma PrintedSet(record: seq<byte>, p: Parse, keyEnd: nat)
    requires 17 <= keyEnd + 4 <= |record| && p.Parsed? && p.op.Set?
    requires record[..8] == LE(p.sequence, 8)
    requires record[8..] == [OPCODE_SET] + record[9..]
    requires record[9..] == LE(|p.op.key|, 4) + record[13..]
    requires record[13..] == p.op.key + record[keyEnd..]
    requires record[keyEnd..] == LE(|p.op.value|, 4) + p.op.value
    ensures RecordBytes(p.sequence, p.op) == record
  {
    SplitAt(record, 8);
  }

  lemma PrintedDelete(record: seq<byte>, p: Parse, keyEnd: nat)
    requires 13 <= keyEnd == |record| && p.Parsed? && p.op.Delete?
    requires record[..8] == LE(p.sequence, 8)
    requires record[8..] == [OPCODE_DELETE] + record[9..]
    requires record[9..] == LE(|p.op.key|, 4) + record[13..]
    requires record[13..] == p.op.key + record[keyEnd..]
    ensures RecordBytes(p.sequence, p.op) == record
  {
    SplitAt(record, 8);
    assert record[keyEnd..] == [];
    assert p.op.key + [] == p.op.key;
  }

  /** Printing what the parser accepted gives back the identical bytes. */
  lemma PrintParsed(record: seq<byte>)
    requires ParseRecord(record, true).Parsed?
    ensures ParseRecord(record, true).sequence < U64_LIMIT
    ensures RecordBytes(ParseRecord(record, true).sequence, ParseRecord(record, true).op) == record
  {
    hide LE, FromLE;
    var p := ParseRecord(record, true);
    var keyEnd := 13 + |p.op.key|;
    Field64(record[..8]);
    Field32(record[9..13]);
    SplitAt(record, 8);
    SplitTwice(record, 8, 9);
    assert record[8..9] == [record[8]];
    SplitTwice(record, 9, 13);
    SplitTwice(record, 13, keyEnd);
    if p.op.Set? {
      Field32(record[keyEnd..keyEnd + 4]);
      SplitTwice(record, keyEnd, keyEnd + 4);
      PrintedSet(record, p, keyEnd);
    } else {
      PrintedDelete(record, p, keyEnd);
    }
  }

  // ------------------------------------------------------------ version 2 records

  /** A version 2 record is a version 3 record without its sequence. */
  lemma SameParse(head: seq<byte>, record: seq<byte>)
    requires |head| == 8
    ensures var p := ParseRecord(head + record, true);
            ParseRecord(record, false) == if p.Parsed? then Parsed(p.op, 0) else p
  {
    hide FromLE;
    var all := head + record;
    assert all[8..] == record;
    if |record| >= 5 {
      Behind8(head, record, 1, 5);
      var keyEnd := 5 + FromLE(record[1..5]);
      if |record| >= keyEnd {
        Behind8(head, record, 5, keyEnd);
        if |record| >= keyEnd + 4 {
          Behind8(head, record, keyEnd, keyEnd + 4);
          var valueEnd := keyEnd + 4 + FromLE(record[keyEnd..keyEnd + 4]);
          if |record| >= valueEnd { Behind8(head, record, keyEnd + 4, valueEnd); }
        }
      }
    }
  }

  lemma Behind8(head: seq<byte>, record: seq<byte>, i: nat, j: nat)
    requires |head| == 8 && i <= j <= |record|
    ensures (head + record)[8 + i..8 + j] == record[i..j]
  {
    var x, y := (head + record)[8 + i..8 + j], record[i..j];
    assert |x| == |y| && forall k :: 0 <= k < |x| ==> x[k] == y[k];
  }

  /** A payload parses, as a version 2 record, to its operation, with sequence 0. */
  lemma ParseLegacyPrinted(op: Op)
    requires Fits32(op)
    ensures ParseRecord(Payload(op), false) == Parsed(op, 0)
  {
    hide LE, ParseRecord, Payload;
    ParsePrinted(0, op);
    SameParse(LE(0, 8), Payload(op));
  }

  /** And whatever is accepted as a version 2 record is the payload of what was parsed. */
  lemma PrintLegacyParsed(record: seq<byte>)
    requires ParseRecord(record, false).Parsed?
    ensures var p := ParseRecord(record, false);
            Payload(p.op) == record && p.sequence == 0
  {
    hide LE, ParseRecord, Payload;
    var head := LE(0, 8);
    SameParse(head, record);
    PrintParsed(head + record);
    var p := ParseRecord(head + record, true);
    var printed := LE(p.sequence, 8);
    assert (head + record)[8..] == record && (printed + Payload(p.op))[8..] == Payload(p.op);
  }

  // ------------------------------------------------------------ frames patched in place

  const ZEROS_12: seq<byte> := LE(0, 4) + LE(0, 8)

  /** The sizes an append checks before it builds anything, and the payload it builds. */
  method BuildPayload(op: Op) returns (result: Outcome<seq<byte>>)
    ensures result.Ok? <==> Bounded(op)
    ensures result.Ok? ==> result.value == Payload(op)
  {
    hide LE, Payload;
    PayloadSize(op);
    if |op.key| >= U32_LIMIT { return Threw; }
    if op.Set? && |op.value| >= U32_LIMIT { return Threw; }
    var size := 8 + 1 + 4 + |op.key| + (if op.Set? then 4 + |op.value| else 0);
    if size > MAX_RECORD { return Threw; }
    var payload := [if op.Set? then OPCODE_SET else OPCODE_DELETE];
    payload := AppendLE(payload, |op.key|, 4);
    payload := payload + op.key;
    if op.Set? {
      payload := AppendLE(payload, |op.value|, 4);
      payload := payload + op.value;
    }
    PayloadParts(op);
    return Ok(payload);
  }

  lemma PayloadSize(op: Op)
    ensures |Payload(op)| == 5 + |op.key| + if op.Set? then 4 + |op.value| else 0
  {
    hide LE;
  }

  /** The payload in the order it is appended. */
  lemma PayloadParts(op: Op)
    ensures op.Set? ==> Payload(op) == [OPCODE_SET] + LE(|op.key|, 4) + op.key + LE(|op.value|, 4) + op.value
    ensures op.Delete? ==> Payload(op) == [OPCODE_DELETE] + LE(|op.key|, 4) + op.key
  {
    hide LE;
    var head := if op.Set? then [OPCODE_SET] else [OPCODE_DELETE];
    if op.Set? {
      var a, b, c, d := LE(|op.key|, 4), op.key, LE(|op.value|, 4), op.value;
      assert head + a + b + c + d == head + (a + (b + (c + d)));
    } else {
      assert head + LE(|op.key|, 4) + op.key == head + (LE(|op.key|, 4) + op.key);
    }
  }

  /** Lays out a frame whose checksum and sequence are still zero. */
  method PrepareFrame(payload: seq<byte>) returns (frame: array<byte>)
    requires 8 + |payload| <= MAX_RECORD
    ensures fresh(frame)
    ensures frame[..] == LE(8 + |payload|, 4) + ZEROS_12 + payload
  {
    var bytes := AppendLE([], 8 + |payload|, 4);
    bytes := AppendLE(bytes, 0, 4);
    bytes := AppendLE(bytes, 0, 8);
    bytes := bytes + payload;
    frame := new byte[|bytes|](i requires 0 <= i < |bytes| => bytes[i]);
    assert frame[..] == bytes;
  }

  /** Writes sequence and checksum into bytes 4 to 15 of a prepared frame. */
  method FinalizeFrame(table: seq<bv32>, frame: array<byte>, sequence: nat, ghost op: Op)
    requires IsTable(table)
    requires frame[..] == LE(8 + |Payload(op)|, 4) + ZEROS_12 + Payload(op)
    modifies frame
    ensures frame[..] == Frame(sequence, op)
  {
    hide Crc32, IsTable, Payload, LE;
    ghost var payload := Payload(op);
    PatchLE(frame, 8, sequence, 8);
    assert frame[..] == LE(8 + |payload|, 4) + LE(0, 4) + RecordBytes(sequence, op);
    assert frame[8..] == RecordBytes(sequence, op);
    var checksum := TableCrc(table, frame[8..]);
    PatchLE(frame, 4, checksum, 4);
    assert frame[..] == LE(8 + |payload|, 4) + LE(checksum, 4) + RecordBytes(sequence, op);
  }

  lemma FrameLength(sequence: nat, op: Op)
    ensures |Frame(sequence, op)| == 16 + |Payload(op)|
  {
  }
}
