/**
 * What a refused truncation leads to. A cut inside a record throws after the file has been
 * cut, and the log goes on as if nothing had happened: it accepts the next append and
 * acknowledges it behind the torn frame.
 */
module RefusedCuts {
  import opened Bytes
  import opened Crc
  import opened Record
  import opened Replay
  import opened ReplayLaws
  import opened Recovery
  import opened BadTails
  import opened Wal

  /** Whatever is written behind a torn frame without filling the gap is not replayed. */
  lemma GapStops(generation: nat, ops: seq<Op>, k: nat, n: nat, more: seq<byte>)
    requires GenerationFits(generation) && AllBounded(ops) && |ops| + 1 < U64_LIMIT && k < |ops|
    requires BoundaryOf(ops[..k]) + 4 <= n && n + |more| < BoundaryOf(ops[..k + 1]) && n <= |LogBytes(generation, ops)|
    ensures var r := ReplayFrom(LogBytes(generation, ops)[..n] + more, 0);
            r.ops == ops[..k] && r.status == PartialRecord && r.lastGood == BoundaryOf(ops[..k])
  {
    hide LogBytes, BoundaryOf, ReplayFrom, ReadStep, Frame, AllBounded, StopsThere;
    var log, good, at := LogBytes(generation, ops), LogBytes(generation, ops[..k]), BoundaryOf(ops[..k]);
    PrefixLog(generation, ops, k);
    LogIsLong(generation, ops[..k]);
    FrameAt(generation, ops, k);
    AllBoundedTake(ops, k);
    var frame := Frame(k + 1, ops[k]);
    var tail := frame[..n - at] + more;
    CutParts(log, good, frame, n, more);
    FramePart(good, frame, k + 1, ops[k], n - at, more);
    StopsIf(generation, ops[..k], tail, PartialRecord);
    StoppedThere(generation, ops[..k], tail);
  }

  lemma AllBoundedTake(ops: seq<Op>, k: nat)
    requires AllBounded(ops) && k < |ops|
    ensures AllBounded(ops[..k]) && Bounded(ops[k])
  {
    hide Bounded;
  }

  lemma StoppedThere(generation: nat, ops: seq<Op>, tail: seq<byte>)
    requires StopsThere(generation, ops, tail, PartialRecord)
    ensures var r := ReplayFrom(LogBytes(generation, ops) + tail, 0);
            r.ops == ops && r.status == PartialRecord && r.lastGood == BoundaryOf(ops)
  {
    hide LogBytes, BoundaryOf, ReplayFrom;
  }

  lemma CutParts(log: seq<byte>, good: seq<byte>, frame: seq<byte>, n: nat, more: seq<byte>)
    requires good <= log && |good| <= n <= |good| + |frame| <= |log| && log[|good|..|good| + |frame|] == frame
    ensures log[..n] + more == good + (frame[..n - |good|] + more)
  {
    assert log[..n] == good + frame[..n - |good|];
  }

  lemma FramePart(good: seq<byte>, frame: seq<byte>, sequence: nat, op: Op, n: nat, more: seq<byte>)
    requires frame == Frame(sequence, op) && Bounded(op) && 4 <= n && n + |more| < |frame|
    ensures forall c: Cursor :: c.pos == |good| ==>
              ReadStep(good + (frame[..n] + more), true, c) == Stop(PartialRecord)
  {
    hide Crc32, ParseRecord, LE, FromLE, Payload;
    var file, record := good + (frame[..n] + more), RecordBytes(sequence, op);
    assert frame[..4] == LE(|record|, 4) && frame[..n][..4] == frame[..4];
    assert file[|good|..|good| + 4] == frame[..4];
    Encoded32(|record|);
  }

  /**
   * On a clean log, cut inside a record past its length field. The truncation is refused.
   * The next append goes through exactly when the device lets it, and is synced if the policy
   * syncs; but if its frame does not fill the gap, replay stops before the torn frame, and
   * neither that append nor anything from the torn record on is recovered.
   */
  method CutThenAppend(log: WriteAheadLog, k: nat, offset: nat, op: Op, hook: bool, sync: bool, io: Io)
    returns (cut: bool, ok: bool)
    requires log.Valid() && log.format.Current() && !log.failed && log.streamOpen && hook && Bounded(op)
    requires k < |log.ops| && |log.ops| + 2 < U64_LIMIT
    requires BoundaryOf(log.ops[..k]) + 4 <= offset && offset + FrameSize(op) < BoundaryOf(log.ops[..k + 1])
    modifies log
    ensures !cut && ok == Completes(log.policy, io, FrameSize(op))
    ensures ok ==>
              && offset <= |old(log.file)|
              && log.file == old(log.file)[..offset] + Frame(|old(log.ops)| + 1, op)
              && (log.policy != Buffered ==> log.synced == |log.file|)
              && ReplayFrom(log.file, 0).ops == old(log.ops)[..k] && ReplayFrom(log.file, 0).status == PartialRecord
  {
    hide IsTable, LogBytes, ReplayFrom, BoundaryOf, Frame, FormatOk, FrameSize, AllBounded, Recut, Completes,
      Stats.Balanced;
    ghost var before, ops, f := log.file, log.ops, log.format;
    CleanLog(before, f, ops, log.torn);
    InsideRecord(f.generation, ops, k, offset, f, FrameSize(op));
    cut := log.TruncateTo(offset, hook, sync);
    ok := AppendBehind(log, op, io);
    if ok {
      OneFrame(f.generation, op, |ops| + 1);
      GapStops(f.generation, ops, k, offset, Frame(|ops| + 1, op));
    }
  }

  /** What an append does to a log that it takes for a good one. */
  method AppendBehind(log: WriteAheadLog, op: Op, io: Io) returns (ok: bool)
    requires IsTable(log.table) && log.streamOpen && !log.format.headerPending && log.format.nextSequence + 1 <= MAX_U64
    requires Bounded(op) && 1 <= log.maxBatch && |log.stats.histogram| == log.maxBatch + 1
    modifies log
    ensures ok == Completes(log.policy, io, FrameSize(op))
    ensures ok ==> log.file == old(log.file) + Frame(old(log.format).nextSequence, op)
    ensures ok && log.policy != Buffered ==> log.synced == |log.file|
  {
    hide IsTable, Frame, FrameSize, Emission, Grown, AllBounded, CountsCall, Stats.Balanced;
    OneFrame(log.format.generation, op, log.format.nextSequence);
    ghost var taken, n;
    ok, taken, n := log.Put([op], io);
  }

  lemma CleanLog(file: seq<byte>, f: Format, ops: seq<Op>, torn: seq<Op>)
    requires FormatOk(file, f, false, ops, torn) && f.Current() && ops != []
    ensures GenerationFits(f.generation) && AllBounded(ops) && file == LogBytes(f.generation, ops)
    ensures f.nextSequence == |ops| + 1 && !f.headerPending
  {
    hide LogBytes, BoundaryOf, Bounded;
    assert ops + [] == ops;
  }

  /** No record ends there, so the cut is refused. */
  lemma InsideRecord(generation: nat, ops: seq<Op>, k: nat, offset: nat, f: Format, size: nat)
    requires GenerationFits(generation) && AllBounded(ops) && |ops| + 2 < U64_LIMIT && k < |ops| && !f.legacy
    requires BoundaryOf(ops[..k]) + 4 <= offset && offset + size < BoundaryOf(ops[..k + 1])
    ensures offset != 0 && offset <= |LogBytes(generation, ops)| && Recut(LogBytes(generation, ops), offset, f).Threw?
  {
    hide LogBytes, BoundaryOf, ReplayFrom, AllBounded, Recut;
    FrameAt(generation, ops, k);
    AcceptedCutsAreBoundaries(generation, ops, offset, f);
    forall j | 0 <= j <= |ops|
      ensures offset != BoundaryOf(ops[..j])
    {
      BoundariesInOrder(ops, j, k);
      BoundariesInOrder(ops, k + 1, j);
    }
  }

  lemma OneFrame(generation: nat, op: Op, first: nat)
    requires Bounded(op)
    ensures Emission(false, generation, first, [op]) == Frame(first, op)
    ensures |Frame(first, op)| == FrameSize(op) && AllBounded([op])
  {
    hide Frame;
    FrameLength(first, op);
    assert [op][1..] == [];
    assert Frames([op], first) == Frame(first, op) + [];
  }
}
