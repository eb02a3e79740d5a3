/**
 * The write-ahead log object: opening arbitrary bytes, appending, batching,
 * rotating, truncating, and its counters. The file is a field; what the device
 * does during a call is the call's `Io` argument.
 */
module Wal {
  import opened Bytes
  import opened Crc
  import opened Record
  import opened Replay
  import opened ReplayLaws
  import opened ReplayLoop

  datatype Policy = Buffered | Sync | GroupCommit

  /**
   * The device during one call: how many bytes it takes before it fails, whether
   * each fault point lets the call go on, and whether the sync succeeds.
   */
  datatype Io = Io(room: nat, afterWrite: bool, sync: bool, afterSync: bool)

  const MAX_U64: nat := U64_LIMIT - 1

  // ------------------------------------------------------------ batch histogram

  function Total(h: seq<nat>): nat {
    if h == [] then 0 else Total(h[..|h| - 1]) + h[|h| - 1]
  }

  /** Sum of i * h[i]: the number of records the counted batches carried. */
  function Weighted(h: seq<nat>): nat {
    if h == [] then 0 else Weighted(h[..|h| - 1]) + (|h| - 1) * h[|h| - 1]
  }

  lemma {:induction false} CountBatch(h: seq<nat>, i: nat)
    requires i < |h|
    ensures Total(h[i := h[i] + 1]) == Total(h) + 1
    ensures Weighted(h[i := h[i] + 1]) == Weighted(h) + i
  {
    var n := |h| - 1;
    var g := h[i := h[i] + 1];
    if i == n {
      assert g[..n] == h[..n];
      assert n * (h[n] + 1) == n * h[n] + n;
    } else {
      assert g[..n] == h[..n][i := h[i] + 1];
      CountBatch(h[..n], i);
    }
  }

  lemma {:induction false} EmptyHistogram(h: seq<nat>)
    requires forall i :: 0 <= i < |h| ==> h[i] == 0
    ensures Total(h) == 0 && Weighted(h) == 0
  {
    if h != [] {
      EmptyHistogram(h[..|h| - 1]);
    }
  }

  datatype Stats = Stats(records: nat, syncCalls: nat, histogram: seq<nat>) {
    /** The histogram accounts for every record, and no batch went without a sync. */
    predicate Balanced() {
      Weighted(histogram) == records && Total(histogram) <= syncCalls
    }
  }

  /**
   * What one call counts: its records once they are written, the sync once it has succeeded,
   * and the size of the batch once all is done under a policy that syncs.
   */
  predicate CountsCall(policy: Policy, io: Io, written: bool, ok: bool, size: nat, was: Stats, now: Stats) {
    && now.records == was.records + (if written && io.afterWrite then size else 0)
    && now.syncCalls == was.syncCalls + (if written && Synced(policy, io) then 1 else 0)
    && |now.histogram| == |was.histogram|
    && forall i :: 0 <= i < |now.histogram| ==>
         now.histogram[i] == was.histogram[i] + if ok && policy != Buffered && i == size then 1 else 0
  }

  /** A sync outside a batch is counted as such. */
  predicate SyncCounted(synced: bool, was: Stats, now: Stats) {
    now == was.(syncCalls := if synced then was.syncCalls + 1 else was.syncCalls)
  }

  lemma NotCounted(stats: Stats)
    ensures SyncCounted(false, stats, stats)
  {
  }

  /** Counts one synced batch in the histogram. */
  function Counting(stats: Stats, size: nat): (s: Stats)
    requires size < |stats.histogram|
    ensures |s.histogram| == |stats.histogram|
    ensures Weighted(stats.histogram) + size == stats.records && Total(stats.histogram) < stats.syncCalls ==>
              s.Balanced()
  {
    CountBatch(stats.histogram, size);
    stats.(histogram := stats.histogram[size := stats.histogram[size] + 1])
  }

  function NoStats(maxBatch: nat): (s: Stats)
    ensures s.Balanced() && |s.histogram| == maxBatch + 1
  {
    var h := seq(maxBatch + 1, _ => 0);
    EmptyHistogram(h);
    Stats(0, 0, h)
  }

  // ------------------------------------------------------------ the file of a version 3 log

  /** Every acknowledged frame, then at most the start of what a failed call left behind. */
  predicate LogShape(file: seq<byte>, generation: nat, ops: seq<Op>, torn: seq<Op>) {
    && GenerationFits(generation) && AllBounded(ops + torn) && |ops + torn| < U64_LIMIT
    && file <= LogBytes(generation, ops + torn)
    && (ops != [] ==> BoundaryOf(ops) <= |file|)
  }

  /** No call has failed: the file is empty with its header pending, or it is a whole log. */
  predicate Settled(file: seq<byte>, generation: nat, ops: seq<Op>, torn: seq<Op>, nextSequence: nat, headerPending: bool) {
    && torn == [] && nextSequence == |ops| + 1 <= MAX_U64
    && file == (if headerPending then [] else LogBytes(generation, ops))
    && (headerPending ==> ops == [])
  }

  /** The file is version 3 as far as it goes, and its header carries this generation. */
  predicate Generation(file: seq<byte>, generation: nat) {
    Portable(file) && (|file| >= HEADER_LENGTH ==> FromLE(file[12..20]) == generation)
  }

  /** The file starts like version 3 but has no valid header. */
  predicate Headless(file: seq<byte>) {
    file != [] && Portable(file) && !HeaderValid(file)
  }

  lemma CutKeepsHead(file: seq<byte>, offset: nat)
    requires 0 < offset <= |file| && Portable(file)
    ensures Portable(file[..offset])
    ensures Headless(file) ==> Headless(file[..offset])
  {
    hide FromLE, Crc32, HeaderValid;
    var cut := file[..offset];
    var n := if offset < 4 then offset else 4;
    assert cut[..n] == file[..n] == MAGIC[..n];
    HeaderIsLong(cut);
    if HeaderValid(cut) {
      assert cut[..HEADER_LENGTH] == file[..HEADER_LENGTH];
      SameHead(cut, file);
    }
  }

  lemma HeadlessNeverClean(file: seq<byte>)
    requires Headless(file)
    ensures ReplayFrom(file, 0).status == InvalidHeader
  {
  }

  lemma SettledFacts(file: seq<byte>, generation: nat, ops: seq<Op>, torn: seq<Op>, nextSequence: nat, headerPending: bool)
    requires Settled(file, generation, ops, torn, nextSequence, headerPending)
    ensures torn == [] && nextSequence == |ops| + 1 <= MAX_U64 && (headerPending ==> file == [] && ops == [])
  {
  }

  lemma ShapeGeneration(file: seq<byte>, generation: nat, ops: seq<Op>, torn: seq<Op>)
    requires LogShape(file, generation, ops, torn)
    ensures Generation(file, generation)
  {
    hide LogBytes, FromLE, AllBounded, HeaderValid;
    var log := LogBytes(generation, ops + torn);
    assert file == log[..|file|];
    LogParts(generation, ops + torn, |file|);
    if |file| >= HEADER_LENGTH {
      HeaderReadsBack(generation, file);
    }
  }

  /** A cut that replays cleanly is a settled log of the same generation. */
  lemma TruncatedShape(file: seq<byte>, generation: nat, offset: nat)
    requires 0 < offset <= |file| && Generation(file, generation)
    requires ReplayFrom(file[..offset], 0).status == CleanEof
    requires ReplayFrom(file[..offset], 0).lastSequence < MAX_U64
    ensures var r := ReplayFrom(file[..offset], 0);
            && LogShape(file[..offset], generation, r.ops, [])
            && Settled(file[..offset], generation, r.ops, [], r.lastSequence + 1, false)
  {
    hide HeaderValid, Scan, LogBytes, LogShape, Settled, Headless, FromLE;
    var cut := file[..offset];
    CutKeepsHead(file, offset);
    CleanReachesEnd(cut);
    HeaderIsLong(cut);
    assert cut[12..20] == file[12..20];
    OpenedOk(cut);
  }

  /** The bytes one batch adds: the header if it is still owed, then the frames in order. */
  function Emission(headerPending: bool, generation: nat, first: nat, batch: seq<Op>): seq<byte> {
    (if headerPending then Header(generation) else []) + Frames(batch, first)
  }

  /** The device lets a call through that writes `size` bytes. */
  predicate Completes(policy: Policy, io: Io, size: nat) {
    size <= io.room && io.afterWrite && (policy != Buffered ==> io.sync && io.afterSync)
  }

  /** The sync is reached, and succeeds. */
  predicate Synced(policy: Policy, io: Io) {
    io.afterWrite && policy != Buffered && io.sync
  }

  /** The file has grown by some part of these bytes, from their start. */
  predicate Grown(before: seq<byte>, e: seq<byte>, after: seq<byte>) {
    |before| <= |after| <= |before| + |e| && after == before + e[..|after| - |before|]
  }

  /** The part of an emission that reaches the file is a part of the whole batch's, also if no frame of it does. */
  lemma PartOfEmission(headerPending: bool, generation: nat, first: nat, batch: seq<Op>, taken: seq<Op>, n: nat)
    requires taken == batch || taken == []
    requires n <= |Emission(headerPending, generation, first, taken)|
    ensures n <= |Emission(headerPending, generation, first, batch)|
    ensures Emission(headerPending, generation, first, taken)[..n] == Emission(headerPending, generation, first, batch)[..n]
    ensures taken == [] && !headerPending ==> n == 0
  {
    hide Header;
    NoFrames(first);
  }

  lemma EmissionExtends(file: seq<byte>, generation: nat, ops: seq<Op>, next: nat, headerPending: bool, batch: seq<Op>)
    requires Settled(file, generation, ops, [], next, headerPending)
    ensures file + Emission(headerPending, generation, next, batch) == LogBytes(generation, ops + batch)
    ensures |LogBytes(generation, ops)| == BoundaryOf(ops)
  {
    hide Header, Frames, Size;
    LogExtends(generation, ops, batch);
    FramesSize(ops, 1);
    if headerPending {
      assert ops + batch == batch;
      assert [] + Emission(true, generation, 1, batch) == LogBytes(generation, batch);
    } else {
      assert [] + Frames(batch, next) == Frames(batch, next);
    }
  }

  /** Any part of an emission leaves the acknowledged frames and a torn batch behind them. */
  lemma PartialEmission(file: seq<byte>, generation: nat, ops: seq<Op>, next: nat, headerPending: bool, batch: seq<Op>, n: nat)
    requires LogShape(file, generation, ops, []) && Settled(file, generation, ops, [], next, headerPending)
    requires n <= |Emission(headerPending, generation, next, batch)|
    requires AllBounded(batch) && |ops| + |batch| < U64_LIMIT
    ensures LogShape(file + Emission(headerPending, generation, next, batch)[..n], generation, ops, batch)
  {
    hide Emission, LogBytes, Size, Bounded;
    var e := Emission(headerPending, generation, next, batch);
    EmissionExtends(file, generation, ops, next, headerPending, batch);
    assert ops + [] == ops;
    assert file + e[..n] == (file + e)[..|file| + n];
  }

  /** A whole emission settles the batch. */
  lemma WholeEmission(file: seq<byte>, generation: nat, ops: seq<Op>, next: nat, headerPending: bool, batch: seq<Op>)
    requires LogShape(file, generation, ops, []) && Settled(file, generation, ops, [], next, headerPending)
    requires AllBounded(batch) && |ops| + |batch| < MAX_U64
    ensures var after := file + Emission(headerPending, generation, next, batch);
            && LogShape(after, generation, ops + batch, [])
            && Settled(after, generation, ops + batch, [], next + |batch|, false)
  {
    hide Emission, LogBytes, Size, Bounded;
    EmissionExtends(file, generation, ops, next, headerPending, batch);
    EmissionExtends(file, generation, ops, next, headerPending, []);
    assert ops + [] == ops && (ops + batch) + [] == ops + batch;
    LogParts(generation, ops + batch, 0);
  }

  // ------------------------------------------------------------ what the object knows about its format

  datatype Format = Format(
    legacy: bool, headerPending: bool, valid: bool, needsRecovery: bool, generation: nat, nextSequence: nat)
  {
    /** Appends are accepted, as far as the format goes. */
    predicate Current() {
      !legacy && valid && !needsRecovery
    }
  }

  /** The file is what the object believes it to be. */
  ghost predicate FormatOk(file: seq<byte>, f: Format, failed: bool, ops: seq<Op>, torn: seq<Op>) {
    if f.legacy then true
    else if !f.valid then Headless(file)
    else if f.needsRecovery then !f.headerPending && Generation(file, f.generation)
    else
      && LogShape(file, f.generation, ops, torn)
      && (!failed ==> Settled(file, f.generation, ops, torn, f.nextSequence, f.headerPending))
  }

  /** A version 3 file that replays to its end. */
  predicate Clean(bytes: seq<byte>) {
    Replayable(bytes) && Portable(bytes) && ReplayFrom(bytes, 0).status == CleanEof
  }

  /** What an open makes of the bytes already there. */
  function Opened(bytes: seq<byte>): Format {
    var r := ReplayFrom(bytes, 0);
    if bytes == [] then Format(false, true, true, false, 1, 1)
    else if !Portable(bytes) then Format(true, false, true, r.status != CleanEof, 0, 1)
    else if !HeaderValid(bytes) then Format(false, false, false, false, 0, 1)
    else Format(false, false, true, r.status != CleanEof, r.generation, r.lastSequence + 1)
  }

  method Inspect(table: seq<bv32>, bytes: seq<byte>) returns (f: Format)
    requires IsTable(table)
    ensures f == Opened(bytes)
  {
    hide IsTable, HeaderValid, Scan, FromLE;
    if |bytes| == 0 { return Format(false, true, true, false, 1, 1); }
    var n := if |bytes| < 4 then |bytes| else 4;
    var outcome, _ := ReplayFromDetailed(table, bytes, 0, map[]);
    if bytes[..n] != MAGIC[..n] {
      return Format(true, false, true, outcome.value.status != CleanEof, 0, 1);
    }
    var valid, read := ParseHeader(table, bytes);
    HeaderIsLong(bytes);
    if n != 4 || !valid { return Format(false, false, false, false, 0, 1); }
    return Format(false, false, true, outcome.value.status != CleanEof, read, outcome.value.lastSequence + 1);
  }

  /** What an open finds is what every later call relies on. */
  lemma OpenedOk(bytes: seq<byte>)
    requires ReplayFrom(bytes, 0).lastSequence < MAX_U64
    ensures FormatOk(bytes, Opened(bytes), false, if Clean(bytes) then ReplayFrom(bytes, 0).ops else [], [])
  {
    hide HeaderValid, Scan, LogBytes, Bounded, FromLE;
    var r := ReplayFrom(bytes, 0);
    HeaderIsLong(bytes);
    if Clean(bytes) {
      CleanReachesEnd(bytes);
      GoodPrefix(bytes);
      assert bytes[..|bytes|] == bytes && r.ops + [] == r.ops;
      WholeLog(r.generation, r.ops);
    }
  }

  /** The object's view after the file has been cut at `offset`; throws if the rest does not replay. */
  function Recut(file: seq<byte>, offset: nat, f: Format): Outcome<Format>
    requires offset <= |file|
  {
    if f.legacy then Ok(f.(needsRecovery := false))
    else if offset == 0 then Ok(Format(false, true, true, false, f.generation + 1, 1))
    else
      var r := ReplayFrom(file[..offset], 0);
      if r.status != CleanEof || r.lastSequence >= MAX_U64 then Threw
      else Ok(f.(needsRecovery := false, nextSequence := r.lastSequence + 1))
  }

  /** A version 2 log is not inspected again. */
  lemma LegacyRecut(file: seq<byte>, offset: nat, f: Format)
    requires offset <= |file|
    ensures f.legacy ==> Recut(file, offset, f) == Ok(f.(needsRecovery := false))
  {
    hide ReplayFrom;
  }

  method ReinspectCut(table: seq<bv32>, file: seq<byte>, offset: nat, f: Format) returns (g: Outcome<Format>)
    requires IsTable(table) && offset <= |file|
    ensures g == Recut(file, offset, f)
  {
    hide IsTable, ReplayFrom;
    if f.legacy { return Ok(f.(needsRecovery := false)); }
    if offset == 0 { return Ok(Format(false, true, true, false, f.generation + 1, 1)); }
    var outcome, _ := ReplayFromDetailed(table, file[..offset], 0, map[]);
    if outcome.value.status != CleanEof || outcome.value.lastSequence >= MAX_U64 { return Threw; }
    return Ok(f.(needsRecovery := false, nextSequence := outcome.value.lastSequence + 1));
  }

  /** A cut that is accepted leaves a settled log holding exactly the records it kept. */
  lemma RecutOk(file: seq<byte>, offset: nat, f: Format, failed: bool, ops: seq<Op>, torn: seq<Op>)
    requires offset <= |file| && FormatOk(file, f, failed, ops, torn) && Recut(file, offset, f).Ok?
    requires f.legacy || offset != 0 || f.generation < MAX_U64
    ensures FormatOk(file[..offset], Recut(file, offset, f).value, failed, ReplayFrom(file[..offset], 0).ops, [])
    ensures !f.legacy ==> Recut(file, offset, f).value.Current()
    ensures !Recut(file, offset, f).value.needsRecovery
    ensures !f.legacy && offset != 0 ==>
              Recut(file, offset, f).value.nextSequence == |ReplayFrom(file[..offset], 0).ops| + 1
  {
    hide ReplayFrom, LogShape, Settled, Generation, Headless;
    var cut := file[..offset];
    if !f.legacy {
      if offset == 0 {
        NothingLeft(cut);
        FreshShape(f.generation + 1);
      } else {
        HeadKnown(file, offset, f, failed, ops, torn);
        TruncatedShape(file, f.generation, offset);
        SettledFacts(cut, f.generation, ReplayFrom(cut, 0).ops, [], ReplayFrom(cut, 0).lastSequence + 1, false);
        if f.Current() && !failed {
          SettledFacts(file, f.generation, ops, torn, f.nextSequence, f.headerPending);
        }
      }
    }
  }

  lemma NothingLeft(file: seq<byte>)
    requires file == []
    ensures ReplayFrom(file, 0).ops == []
  {
  }

  /** Only a log whose header is good can be cut to something clean. */
  lemma HeadKnown(file: seq<byte>, offset: nat, f: Format, failed: bool, ops: seq<Op>, torn: seq<Op>)
    requires 0 < offset <= |file| && ReplayFrom(file[..offset], 0).status == CleanEof
    requires !f.legacy && FormatOk(file, f, failed, ops, torn)
    ensures f.valid && Generation(file, f.generation)
  {
    hide LogShape, Settled, ReplayFrom, HeaderValid;
    if !f.valid {
      CutKeepsHead(file, offset);
      HeadlessNeverClean(file[..offset]);
    } else if !f.needsRecovery {
      ShapeGeneration(file, f.generation, ops, torn);
    }
  }

  lemma FreshShape(generation: nat)
    requires GenerationFits(generation)
    ensures LogShape([], generation, [], []) && Settled([], generation, [], [], 1, true)
  {
  }

  lemma NoFrames(first: nat)
    ensures Frames([], first) == []
  {
  }

  lemma FramesOneMore(batch: seq<Op>, op: Op, first: nat)
    ensures Frames(batch + [op], first) == Frames(batch, first) + Frame(first + |batch|, op)
  {
    hide Frame;
    FramesAppend(batch, [op], first);
    assert Frames([op], first + |batch|) == Frame(first + |batch|, op) + [];
  }

  class WriteAheadLog {
    const policy: Policy
    const maxBatch: nat
    const table: seq<bv32>

    // The file, and how much of it is on stable storage.
    var file: seq<byte>
    var synced: nat

    var streamOpen: bool
    var format: Format
    var failed: bool
    var stats: Stats

    // Operations acknowledged in this generation, operations a failed call may have
    // left behind, and whether a call failed since the counters were last reset.
    ghost var ops: seq<Op>
    ghost var torn: seq<Op>
    ghost var miscounted: bool

    ghost predicate Valid()
      reads this
    {
      && 1 <= maxBatch <= 4096 && IsTable(table) && |stats.histogram| == maxBatch + 1
      && synced <= |file|
      && FormatOk(file, format, failed, ops, torn)
      && (policy != Buffered && !miscounted ==> stats.Balanced())
    }

    // ------------------------------------------------------------ opening

    /** Opens a log on existing bytes, of which the first `synced` are on stable storage. */
    constructor (bytes: seq<byte>, synced: nat, policy: Policy, maxBatch: nat, table: seq<bv32>)
      requires 1 <= maxBatch <= 4096 && synced <= |bytes| && IsTable(table)
      requires ReplayFrom(bytes, 0).lastSequence < MAX_U64
      ensures Valid() && !failed && streamOpen
      ensures file == bytes && this.synced == synced && this.policy == policy && this.maxBatch == maxBatch
      ensures stats == NoStats(maxBatch) && !miscounted
      ensures format == Opened(bytes)
      ensures ops == if Clean(bytes) then ReplayFrom(bytes, 0).ops else []
    {
      hide IsTable, ReplayFrom, FormatOk, Opened, Clean, NoStats;
      this.file, this.synced, this.policy, this.maxBatch, this.table := bytes, synced, policy, maxBatch, table;
      streamOpen, failed, torn, miscounted, stats := true, false, [], false, NoStats(maxBatch);
      var found := Inspect(table, bytes);
      format := found;
      ops := if Clean(bytes) then ReplayFrom(bytes, 0).ops else [];
      new;
      OpenedOk(bytes);
    }

    /** The checks an open makes before it succeeds. */
    static method Open(bytes: seq<byte>, synced: nat, policy: Policy, maxBatch: nat, table: seq<bv32>)
      returns (log: WriteAheadLog?)
      requires synced <= |bytes| && IsTable(table)
      ensures log != null <==> 1 <= maxBatch <= 4096 && ReplayFrom(bytes, 0).lastSequence < MAX_U64
      ensures log != null ==> fresh(log) && log.Valid() && log.file == bytes && log.synced == synced
      ensures log != null ==> !log.failed && log.streamOpen && log.format == Opened(bytes)
      ensures log != null ==> log.policy == policy && log.maxBatch == maxBatch && log.stats == NoStats(maxBatch)
      ensures log != null ==> log.ops == if Clean(bytes) then ReplayFrom(bytes, 0).ops else []
    {
      hide IsTable, ReplayFrom, FormatOk, Opened, Clean, NoStats;
      if maxBatch == 0 || maxBatch > 4096 { return null; }
      var outcome, _ := ReplayFromDetailed(table, bytes, 0, map[]);
      if outcome.value.lastSequence >= MAX_U64 { return null; }
      log := new WriteAheadLog(bytes, synced, policy, maxBatch, table);
    }

    // ------------------------------------------------------------ appending

    /** Writes to the append stream; a device that runs out of room keeps what it took, and the stream goes bad. */
    method Write(bytes: seq<byte>, room: nat) returns (ok: bool, left: nat)
      modifies this`file, this`streamOpen
      ensures ok == streamOpen == (old(streamOpen) && |bytes| <= room)
      ensures file == old(file) + bytes[..(if !old(streamOpen) then 0 else if |bytes| <= room then |bytes| else room)]
      ensures ok ==> left == room - |bytes|
    {
      ok, left := streamOpen && |bytes| <= room, 0;
      if !streamOpen {
        assert file == file + bytes[..0];
      } else if |bytes| <= room {
        file, left := file + bytes, room - |bytes|;
      } else {
        file, streamOpen := file + bytes[..room], false;
      }
    }

    /** Prepares every frame of a batch and patches sequence and checksum into it, in batch order. */
    method FinalizeBatch(batch: seq<Op>) returns (ok: bool, frames: seq<byte>)
      requires IsTable(table) && AllBounded(batch) && format.nextSequence <= MAX_U64
      modifies this`format
      ensures ok == (old(format).nextSequence + |batch| <= MAX_U64)
      ensures ok ==> frames == Frames(batch, old(format).nextSequence)
      ensures ok ==> format == old(format).(nextSequence := old(format).nextSequence + |batch|)
      ensures format == old(format).(nextSequence := format.nextSequence)
    {
      hide IsTable, Frame, Payload, Frames, LE;
      frames := [];
      ghost var first := format.nextSequence;
      NoFrames(first);
      for i := 0 to |batch|
        invariant format == old(format).(nextSequence := first + i) && first + i <= MAX_U64
        invariant frames == Frames(batch[..i], first)
      {
        if format.nextSequence == MAX_U64 { return false, frames; }
        var payload := BuildPayload(batch[i]);
        var frame := PrepareFrame(payload.value);
        FinalizeFrame(table, frame, format.nextSequence, batch[i]);
        FramesOneMore(batch[..i], batch[i], first);
        assert batch[..i + 1] == batch[..i] + [batch[i]];
        frames := frames + frame[..];
        format := format.(nextSequence := format.nextSequence + 1);
      }
      assert batch[..|batch|] == batch;
      ok := true;
    }

    /** Header if owed, then all frames of the batch in one write. */
    method Emit(batch: seq<Op>, room: nat) returns (ok: bool, ghost taken: seq<Op>, ghost n: nat)
      requires IsTable(table) && AllBounded(batch) && format.nextSequence <= MAX_U64
      modifies this`file, this`format, this`streamOpen
      ensures var f := old(format);
              var e := Emission(f.headerPending, f.generation, f.nextSequence, batch);
              && ok == (old(streamOpen) && f.nextSequence + |batch| <= MAX_U64 && |e| <= room)
              && (ok ==> streamOpen)
              && (f.nextSequence + |batch| <= MAX_U64 ==> streamOpen == (old(streamOpen) && |e| <= room))
              && (ok ==> file == old(file) + e)
              && (ok ==> format == f.(headerPending := false, nextSequence := f.nextSequence + |batch|))
      ensures format == old(format).(headerPending := format.headerPending, nextSequence := format.nextSequence)
      ensures taken == if old(format).nextSequence + |batch| <= MAX_U64 then batch else []
      ensures var e := Emission(old(format).headerPending, format.generation, old(format).nextSequence, taken);
              n <= |e| && file == old(file) + e[..n]
    {
      hide IsTable, Header, Frames, Bounded;
      var f, wasOpen := format, streamOpen;
      taken := if f.nextSequence + |batch| <= MAX_U64 then batch else [];
      ghost var before, e := file, Emission(f.headerPending, f.generation, f.nextSequence, taken);
      NoFrames(f.nextSequence);
      var left := room;
      ghost var header := if f.headerPending then Header(f.generation) else [];
      if f.headerPending {
        var wrote;
        wrote, left := Write(Header(f.generation), left);
        n := if wrote then HEADER_LENGTH else if wasOpen then room else 0;
        assert e[..n] == header[..n];
        if !wrote { return false, taken, n; }
        format := f.(headerPending := false);
      }
      n := |header|;
      assert e[..n] == header && file == before + header;
      var finalized, frames := FinalizeBatch(batch);
      if !finalized { return false, taken, n; }
      assert e == header + frames;
      ghost var more := if !streamOpen then 0 else if |frames| <= left then |frames| else left;
      ok, left := Write(frames, left);
      n := |header| + more;
      assert e[..n] == header + frames[..more];
      assert ok ==> e[..n] == e;
    }

    /**
     * What one call does with the device: emit, let the fault points act, sync if the policy
     * asks for it, and count.
     */
    method Put(batch: seq<Op>, io: Io) returns (ok: bool, ghost taken: seq<Op>, ghost n: nat)
      requires IsTable(table) && AllBounded(batch) && format.nextSequence <= MAX_U64
      requires format.headerPending ==> format.nextSequence + |batch| <= MAX_U64
      requires 1 <= |batch| <= maxBatch && |stats.histogram| == maxBatch + 1
      modifies this`file, this`format, this`streamOpen, this`synced, this`stats
      ensures var f := old(format);
              var fits := f.nextSequence + |batch| <= MAX_U64;
              var e := Emission(f.headerPending, f.generation, f.nextSequence, batch);
              && ok == (old(streamOpen) && fits && Completes(policy, io, |e|))
              && (fits ==> streamOpen == (old(streamOpen) && |e| <= io.room))
              && (ok ==> streamOpen && format == f.(headerPending := false, nextSequence := f.nextSequence + |batch|))
              && Grown(old(file), e, file) && (!fits ==> file == old(file))
              && (streamOpen && fits ==> file == old(file) + e)
              && synced == (if streamOpen && fits && Synced(policy, io) then |file| else old(synced))
      ensures format == old(format).(headerPending := format.headerPending, nextSequence := format.nextSequence)
      ensures taken == if old(format).nextSequence + |batch| <= MAX_U64 then batch else []
      ensures var e := Emission(old(format).headerPending, format.generation, old(format).nextSequence, taken);
              n <= |e| && file == old(file) + e[..n]
      ensures |stats.histogram| == maxBatch + 1
      ensures ok && policy != Buffered && old(stats.Balanced()) ==> stats.Balanced()
      ensures var written := streamOpen && old(format).nextSequence + |batch| <= MAX_U64;
              CountsCall(policy, io, written, ok, |batch|, old(stats), stats)
    {
      hide IsTable, Emission, Weighted, Total, Bounded;
      ghost var f := format;
      var wrote;
      wrote, taken, n := Emit(batch, io.room);
      PartOfEmission(f.headerPending, f.generation, f.nextSequence, batch, taken, n);
      ok := wrote && io.afterWrite;
      if ok {
        stats := stats.(records := stats.records + |batch|);
        if policy != Buffered {
          ok := io.sync && io.afterSync;
          if io.sync { stats, synced := stats.(syncCalls := stats.syncCalls + 1), |file|; }
          if ok { stats := Counting(stats, |batch|); }
        }
      }
    }

    /**
     * What a single append does under the I/O lock, and what the writer thread does
     * with one batch; a failure is for good.
     */
    method Commit(batch: seq<Op>, io: Io) returns (ok: bool)
      requires Valid() && format.Current() && !failed && AllBounded(batch) && 1 <= |batch| <= maxBatch
      modifies this
      ensures Valid()
      ensures var f := old(format);
              var fits := f.nextSequence + |batch| <= MAX_U64;
              var e := Emission(f.headerPending, f.generation, f.nextSequence, batch);
              && ok == (old(streamOpen) && fits && Completes(policy, io, |e|))
              && (fits ==> streamOpen == (old(streamOpen) && |e| <= io.room))
              && Grown(old(file), e, file) && (!fits ==> file == old(file))
              && (streamOpen && fits ==> file == old(file) + e)
              && synced == (if streamOpen && fits && Synced(policy, io) then |file| else old(synced))
      ensures ok ==> streamOpen
      ensures failed == !ok && format.Current() && format.generation == old(format).generation
      ensures ok ==> ops == old(ops) + batch && file == LogBytes(format.generation, ops)
      ensures ok && policy != Buffered ==> synced == |file|
      ensures !ok ==> ops == old(ops) && (torn == batch || torn == [])
      ensures ok ==> miscounted == old(miscounted)
      ensures var written := streamOpen && old(format).nextSequence + |batch| <= MAX_U64;
              CountsCall(policy, io, written, ok, |batch|, old(stats), stats)
    {
      hide IsTable, Emission, LogShape, CountsCall, Settled, LogBytes, Weighted, Total, Counting, Bounded;
      ghost var before, f := file, format;
      SettledFacts(file, f.generation, ops, torn, f.nextSequence, f.headerPending);
      EmissionExtends(before, f.generation, ops, f.nextSequence, f.headerPending, batch);
      ghost var taken, n;
      ok, taken, n := Put(batch, io);
      if ok {
        WholeEmission(before, f.generation, ops, f.nextSequence, f.headerPending, batch);
        ops := ops + batch;
      } else {
        PartialEmission(before, f.generation, ops, f.nextSequence, f.headerPending, taken, n);
        failed, miscounted, torn := true, true, taken;
      }
    }

    /** An append of this operation goes through, if the device does this. */
    ghost predicate Admits(op: Op, io: Io)
      reads this
    {
      && Bounded(op) && !failed && format.Current() && streamOpen && format.nextSequence + 1 <= MAX_U64
      && Completes(policy, io, |Emission(format.headerPending, format.generation, format.nextSequence, [op])|)
    }

    /** Appends one operation, for the policies that write under the caller's own lock. */
    method Append(op: Op, io: Io) returns (ok: bool)
      requires Valid() && !format.legacy
      modifies this
      ensures Valid()
      ensures ok == old(Admits(op, io))
      ensures ok ==> !failed && ops == old(ops) + [op] && file == LogBytes(format.generation, ops)
      ensures ok && policy != Buffered ==> synced == |file|
      ensures !ok ==> ops == old(ops) && old(file) <= file
      ensures !Bounded(op) || old(failed) || !old(format).Current() ==> unchanged(this)
      ensures (ok ==> streamOpen) && format.generation == old(format).generation
      ensures old(Bounded(op) && !failed && format.Current()) ==>
                var written := streamOpen && old(format).nextSequence + 1 <= MAX_U64;
                failed == !ok && CountsCall(policy, io, written, ok, 1, old(stats), stats)
      ensures !format.legacy && (ok ==> format.Current())
    {
      hide IsTable, Emission, FormatOk, LogBytes, Completes, Bounded, Stats.Balanced, CountsCall;
      var payload := BuildPayload(op);
      if payload.Threw? || failed || !format.valid || format.needsRecovery { return false; }
      ok := Commit([op], io);
    }

    /** The end of the file; throws once a write has failed, until the stream is reopened. */
    method CurrentOffset() returns (offset: Outcome<nat>)
      ensures offset == if streamOpen then Ok(|file|) else Threw
    {
      if !streamOpen { return Threw; }
      return Ok(|file|);
    }

    method ResetStats()
      requires Valid()
      modifies this`stats, this`miscounted
      ensures Valid() && stats == NoStats(maxBatch) && !miscounted
    {
      hide IsTable, FormatOk, NoStats;
      stats, miscounted := NoStats(maxBatch), false;
    }

    // ------------------------------------------------------------ rotation and truncation

    /** Syncs after a truncation, if the policy syncs at all. */
    method SyncTruncation(ok: bool) returns (done: bool)
      requires Valid()
      modifies this`synced, this`stats
      ensures Valid() && done == (policy == Buffered || ok)
      ensures synced == if policy != Buffered && ok then |file| else old(synced)
      ensures SyncCounted(policy != Buffered && ok, old(stats), stats)
    {
      hide IsTable, FormatOk, Weighted, Total;
      if policy == Buffered { return true; }
      if !ok { return false; }
      stats, synced := stats.(syncCalls := stats.syncCalls + 1), |file|;
      return true;
    }

    /** A rotation goes through: the fault point lets it, generations are left, and the sync succeeds if there is one. */
    ghost predicate Rotates(hook: bool, sync: bool)
      reads this
    {
      hook && format.generation < MAX_U64 && (policy == Buffered || sync)
    }

    /** Empties the log and starts the next generation; a log that had failed stays failed. */
    method Rotate(hook: bool, sync: bool) returns (ok: bool)
      requires Valid()
      modifies this
      ensures Valid() && failed == old(failed) && miscounted == old(miscounted)
      ensures ok == old(Rotates(hook, sync))
      ensures SyncCounted(ok && policy != Buffered, old(stats), stats)
      ensures var started := hook && old(format).generation < MAX_U64;
              && (started ==> format == Format(false, true, true, false, old(format).generation + 1, 1)
                              && streamOpen && file == [] && synced == 0 && ops == [] && torn == [])
              && (!started ==> unchanged(this))
    {
      hide IsTable, LogShape, Settled, Stats.Balanced;
      if !hook || format.generation >= MAX_U64 { return false; }
      file, synced, streamOpen := [], 0, true;
      format := Format(false, true, true, false, format.generation + 1, 1);
      ops, torn := [], [];
      FreshShape(format.generation);
      ok := SyncTruncation(sync);
    }

    /** A truncation goes through: it is let through, within the file, accepted there, and synced if need be. */
    ghost predicate Truncates(offset: nat, hook: bool, sync: bool)
      reads this
    {
      && hook && (format.legacy || offset != 0 || format.generation < MAX_U64) && offset <= |file|
      && Recut(file, offset, format).Ok? && (policy == Buffered || sync)
    }

    /**
     * Cuts the file. At offset 0 a new generation starts; anywhere else what is left
     * must replay cleanly. A cut elsewhere throws, but only after the file was cut.
     */
    method TruncateTo(offset: nat, hook: bool, sync: bool) returns (ok: bool)
      requires Valid()
      modifies this
      ensures failed == old(failed) && miscounted == old(miscounted)
      ensures var f := old(format);
              var started := hook && (f.legacy || offset != 0 || f.generation < MAX_U64);
              var cuts := started && offset <= |old(file)|;
              && file == (if cuts then old(file)[..offset] else old(file))
              && ok == old(Truncates(offset, hook, sync))
              && (ok ==> !format.needsRecovery)
              && (f.legacy && cuts ==> format == f.(needsRecovery := false))
              && (cuts && Recut(old(file), offset, f).Ok? ==>
                    streamOpen && format == Recut(old(file), offset, f).value && ops == ReplayFrom(file, 0).ops
                      && torn == [])
              && (!(cuts && Recut(old(file), offset, f).Threw?) ==> Valid())
              && streamOpen == (if started then cuts else old(streamOpen))
              && synced == (if ok && policy != Buffered then offset else if cuts && offset < old(synced) then offset
                            else old(synced))
              && (!(cuts && Recut(old(file), offset, f).Ok?) ==>
                    format == old(format) && ops == old(ops) && torn == old(torn))
              && SyncCounted(ok && policy != Buffered, old(stats), stats)
    {
      hide IsTable, ReplayFrom, FormatOk, Recut, Stats.Balanced, SyncCounted;
      NotCounted(stats);
      if !hook || (!format.legacy && offset == 0 && format.generation >= MAX_U64) { return false; }
      streamOpen := false;
      if offset > |file| { return false; }
      var before := file;
      file := file[..offset];
      synced := if synced < offset then synced else offset;
      streamOpen := true;
      var cut := ReinspectCut(table, before, offset, format);
      LegacyRecut(before, offset, format);
      if cut.Threw? { return false; }
      RecutOk(before, offset, format, failed, ops, torn);
      format := cut.value;
      ops, torn := ReplayFrom(file, 0).ops, [];
      ok := SyncTruncation(sync);
    }

    /**
     * Recovery: replays from `offset` and cuts off whatever did not replay. From offset 0
     * the cut is always accepted, whatever the bytes were, and the map is what replay gave.
     */
    method ReplayFromAndTruncate(offset: nat, store: Store, hook: bool, sync: bool)
      returns (report: Outcome<Report>, replayed: Store)
      requires Valid()
      modifies this
      ensures replayed == if offset > MAX_STREAM_OFFSET then store else ApplyAll(store, ReplayFrom(old(file), offset).ops)
      ensures report.Ok? ==>
                var r := ReplayFrom(old(file), offset);
                report.value == ReportOf(r).(truncated := r.status != CleanEof)
      ensures report.Ok? == (offset <= MAX_STREAM_OFFSET
                             && (ReplayFrom(old(file), offset).status == CleanEof
                                 || old(Truncates(ReplayFrom(file, offset).lastGood, hook, sync))))
      ensures offset == 0 && hook && (policy == Buffered || sync) && old(format).generation < MAX_U64
              && ReplayFrom(old(file), 0).lastSequence < MAX_U64
              ==> report.Ok?
      ensures report.Ok? ==>
                var r := ReplayFrom(old(file), offset);
                && Valid() && (r.status == CleanEof ==> unchanged(this))
                && (r.status != CleanEof ==>
                      && !format.needsRecovery && streamOpen && torn == [] && failed == old(failed)
                      && r.lastGood <= |old(file)| && file == old(file)[..r.lastGood]
                      && Recut(old(file), r.lastGood, old(format)) == Ok(format)
                      && synced == if policy != Buffered || r.lastGood < old(synced) then r.lastGood else old(synced))
      ensures offset == 0 && report.Ok? ==>
                var r := ReplayFrom(old(file), 0);
                Valid() && file == old(file)[..r.lastGood] && ReplayFrom(file, 0).ops == r.ops
                && ReplayFrom(file, 0).status == CleanEof
    {
      hide IsTable, ReplayFrom, FormatOk, Recut, Stats.Balanced, ApplyAll;
      ghost var before := file;
      report, replayed := ReplayFromDetailed(table, file, offset, store);
      if report.Threw? { return; }
      TruncationFixedPoint(file);
      ReplayedInRange(file);
      if report.value.status != CleanEof {
        if offset == 0 && ReplayFrom(file, 0).lastSequence < MAX_U64 { GoodOffsetAccepted(file, format); }
        var ok := TruncateTo(report.value.lastGood, hook, sync);
        if !ok { return Threw, replayed; }
        report := Ok(report.value.(truncated := true));
      } else if offset == 0 {
        CleanKeepsAll(file);
      }
    }
  }

  lemma ReplayedInRange(file: seq<byte>)
    ensures ReplayFrom(file, 0).lastGood <= |file|
  {
    hide ReplayFrom;
    TruncationFixedPoint(file);
  }

  lemma CleanKeepsAll(file: seq<byte>)
    requires ReplayFrom(file, 0).status == CleanEof
    ensures ReplayFrom(file, 0).lastGood <= |file| && file[..ReplayFrom(file, 0).lastGood] == file
  {
    hide Scan;
    if file != [] {
      CleanReachesEnd(file);
    }
  }

  /**
   * Closing and reopening a log that has not failed: the file gives back next sequence,
   * operations and, unless it is still empty, the generation. An empty file starts over at
   * generation 1, whatever the generation was.
   */
  lemma ReopenRebuilds(log: WriteAheadLog)
    requires log.Valid() && log.format.Current() && !log.failed
    ensures log.format.headerPending <==> log.file == []
    ensures log.file != [] ==> Opened(log.file) == log.format
    ensures log.file == [] ==> Opened(log.file) == log.format.(generation := 1)
    ensures ReplayFrom(log.file, 0).ops == log.ops && (log.file != [] ==> Clean(log.file))
  {
    hide LogBytes, ReplayFrom, HeaderValid, Stats.Balanced, IsTable, Bounded, FromLE, Portable;
    var f := log.format;
    assert log.ops + [] == log.ops;
    LogIsLong(f.generation, log.ops);
    if f.headerPending {
      NothingLeft(log.file);
    } else {
      WholeLog(f.generation, log.ops);
      LogParts(f.generation, log.ops, |log.file|);
      assert log.file[..|log.file|] == log.file;
      HeaderReadsBack(f.generation, log.file);
    }
  }

  /** The last good offset of a replay from 0 is always accepted as a truncation point. */
  lemma GoodOffsetAccepted(file: seq<byte>, f: Format)
    requires ReplayFrom(file, 0).lastSequence < MAX_U64
    ensures ReplayFrom(file, 0).lastGood <= |file| && Recut(file, ReplayFrom(file, 0).lastGood, f).Ok?
  {
    hide ReplayFrom;
    TruncationFixedPoint(file);
  }

  /** A cut at a boundary keeps exactly the records before it. */
  lemma OneBoundary(ops: seq<Op>, k: nat, cut: nat)
    requires k <= |ops| && cut == Size(ops[..k])
    ensures k == Whole(ops, cut)
  {
    hide Size, Whole;
    var n := Whole(ops, cut);
    WholeBrackets(ops, cut);
    SizeMonotone(ops, k, n);
    if n < k { SizeMonotone(ops, n + 1, k); }
  }

  /** On a log the writer produced, the accepted truncation points are exactly the record boundaries. */
  lemma AcceptedCutsAreBoundaries(generation: nat, ops: seq<Op>, cut: nat, f: Format)
    requires GenerationFits(generation) && AllBounded(ops) && |ops| < MAX_U64 && !f.legacy
    requires 0 < cut <= |LogBytes(generation, ops)|
    ensures Recut(LogBytes(generation, ops), cut, f).Ok? <==> exists n :: 0 <= n <= |ops| && cut == BoundaryOf(ops[..n])
  {
    hide ReplayFrom, LogBytes, Bounded, Size, Whole, AllBounded;
    TornWrite(generation, ops, cut);
    if cut < HEADER_LENGTH {
      assert forall n :: 0 <= n <= |ops| ==> cut < BoundaryOf(ops[..n]);
    } else {
      var n := Whole(ops, cut - HEADER_LENGTH);
      forall k | 0 <= k <= |ops| && cut == BoundaryOf(ops[..k])
        ensures k == n
      {
        OneBoundary(ops, k, cut - HEADER_LENGTH);
      }
    }
  }

  lemma SizeMonotone(ops: seq<Op>, i: nat, j: nat)
    requires i <= |ops| && j <= |ops|
    ensures i < j ==> Size(ops[..i]) < Size(ops[..j])
    ensures i <= j ==> Size(ops[..i]) <= Size(ops[..j])
  {
    hide Size;
    if i < j {
      SizeAppend(ops[..i], ops[i..j]);
      SizePositive(ops[i..j]);
      assert ops[..i] + ops[i..j] == ops[..j];
    }
  }
}
