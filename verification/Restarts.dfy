/**
 * What a restart of the engine does to the log is what the log object does: opening the
 * file a crash has left, replaying it from the snapshot's offset and cutting off the rest.
 * The same for the rotation of a compaction.
 */
module Restarts {
  import opened Bytes
  import opened Crc
  import opened Record
  import opened Replay
  import opened ReplayLaws
  import opened ReplayLoop
  import opened Snapshot
  import opened Recovery
  import opened Histories
  import opened Engine
  import opened EngineCalls
  import opened EngineRestart
  import opened Opening
  import Refinement
  import Wal
  import GC = GroupCommit

  /** What an open makes of whatever a crash leaves of a log. */
  lemma OpenedImage(im: Image)
    requires GoodImage(im)
    ensures var f, k := Wal.Opened(im.bytes), Survivors(im);
            && k <= |im.records| && !f.legacy
            && ReplayFrom(im.bytes, 0).lastSequence < Wal.MAX_U64
            && (im.bytes == [] ==> f == Wal.Format(false, true, true, false, 1, 1))
            && (0 < |im.bytes| < HEADER_LENGTH ==> f.generation == 0)
            && (|im.bytes| >= HEADER_LENGTH ==>
                  && f.generation == im.generation && f.nextSequence == k + 1 && !f.headerPending && f.valid
                  && f.needsRecovery == (|im.bytes| != BoundaryOf(GC.Ops(im.records[..k]))))
  {
    hide ReplayFrom, LogBytes, AllBounded, Size, Whole, Wal.Opened;
    var ops, n := GC.Ops(im.records), |im.bytes|;
    assert im.bytes == LogBytes(im.generation, ops)[..n];
    OpenedCut(im.generation, ops, n);
    TornWrite(im.generation, ops, n);
    LogParts(im.generation, ops, n);
    if n >= HEADER_LENGTH { GC.OpsTake(im.records, Survivors(im)); } else { ShortLog(im.bytes); }
  }

  /** What recovery finds where the snapshot's offset leads, and what its cut makes of the log object's view. */
  lemma CutImage(s: Engine, im: Image, p: Snap)
    requires Paired(s, im, p)
    ensures var r, f, k := ReplayFrom(im.bytes, OffsetOf(p)), Wal.Opened(im.bytes), Survivors(im);
            && k <= |im.records| && r.lastGood <= |im.bytes|
            && (r.status == CleanEof ==> CutBack(im.bytes, OffsetOf(p)) == im.bytes)
            && (r.status != CleanEof ==>
                  CutBack(im.bytes, OffsetOf(p)) == im.bytes[..r.lastGood] && Wal.Recut(im.bytes, r.lastGood, f).Ok?)
            && (r.status != CleanEof && r.lastGood == 0 ==> f.generation < Wal.MAX_U64)
  {
    hide LogBytes, Survivors, BoundaryOf, Bounded, Covers, InOrder, Holds, Live, OffsetOf, ReplayFrom, Recover,
      ReplayedRecords, Wal.Opened;
    PairReplays(s, im, p);
    PairFile(s, im, p);
    OpenedImage(im);
    var k := Survivors(im);
    var ops := GC.Ops(im.records[..k]);
    LogIsLong(im.generation, ops);
    if |im.bytes| >= HEADER_LENGTH {
      GC.OpsTake(im.records, k);
      WholeLog(im.generation, ops);
    }
  }

  /** How much of the file is on stable storage when the process starts again: all of it after a power loss. */
  ghost function SyncedAtStart(s: Engine, loss: bool, im: Image): nat {
    if loss then |im.bytes| else s.log.synced
  }

  lemma StartsWithin(s: Engine, loss: bool, im: Image, p: Snap)
    requires GC.Inv(s.log) && MayLeave(s, loss, im, p)
    ensures SyncedAtStart(s, loss, im) <= |im.bytes|
  {
    hide GC.Pipeline, GC.Completions, GC.AcceptedBounded, GC.Contents, GC.EndOf, MayRemain, Placed;
  }

  /** Recovery's map is the replay over the snapshot's. */
  lemma ReplayIsRecovery(s: Engine, loss: bool, im: Image, p: Snap)
    requires CanCrash(s, loss, im, p)
    ensures OffsetOf(p) <= MAX_STREAM_OFFSET
    ensures DoCrash(s, loss, im, p).mem == ApplyAll(StoreOf(p), ReplayFrom(im.bytes, OffsetOf(p)).ops)
  {
    hide LoadOf, ReplayFrom, ApplyAll, MayLeave, Reopened, RecoveredSet, Settles;
  }

  /** What the log object is then: the machine that the engine goes on with. */
  lemma ReopenedIs(s: Engine, loss: bool, im: Image, p: Snap, log: Wal.WriteAheadLog)
    requires Paired(s, im, p) && GC.Inv(s.log)
    requires log.Valid() && log.format.Current() && !log.failed
    requires log.policy == s.log.policy && log.maxBatch == s.log.maxBatch
    requires var file := CutBack(im.bytes, OffsetOf(p));
             && log.file == file
             && log.synced == (if Settles(s, loss, im, p) then |file| else Least(s.log.synced, |file|))
             && log.format.generation == (if file == [] then 1 else im.generation)
    ensures Refinement.Represents(log, Reopened(s, loss, im, p))
  {
    hide LogBytes, BoundaryOf, Bounded, Covers, InOrder, Holds, Live, OffsetOf, ReplayFrom, Settles, CutBack,
      KeptRecords, GC.Inv, Wal.FormatOk, Wal.Stats.Balanced, IsTable, Survivors;
    PairFile(s, im, p);
    KeptAre(im);
    Refinement.SettledAgain(log);
    Wal.ReopenRebuilds(log);
    var ops := GC.Ops(im.records[..Survivors(im)]);
    if log.file == LogBytes(im.generation, ops) {
      LogIsLong(im.generation, ops);
      WholeLog(im.generation, ops);
    } else {
      Wal.NothingLeft(log.file);
    }
  }

  // ------------------------------------------------------------ on the objects

  /** Opening these bytes and truncating them after a replay from this offset goes through. */
  ghost predicate CanReopen(bytes: seq<byte>, offset: nat) {
    var r, f := ReplayFrom(bytes, offset), Wal.Opened(bytes);
    && offset <= MAX_STREAM_OFFSET && ReplayFrom(bytes, 0).lastSequence < Wal.MAX_U64
    && (r.status != CleanEof ==>
          && r.lastGood <= |bytes| && Wal.Recut(bytes, r.lastGood, f).Ok?
          && (r.lastGood == 0 ==> f.generation < Wal.MAX_U64))
  }

  /** The log object that this leaves. */
  ghost predicate IsReopened(log: Wal.WriteAheadLog, bytes: seq<byte>, synced: nat, offset: nat)
    reads log
  {
    var r := ReplayFrom(bytes, offset);
    && !log.failed && log.streamOpen
    && (r.status == CleanEof ==> log.file == bytes && log.synced == synced && log.format == Wal.Opened(bytes))
    && (r.status != CleanEof ==>
          && r.lastGood <= |bytes| && log.file == bytes[..r.lastGood]
          && Wal.Recut(bytes, r.lastGood, Wal.Opened(bytes)) == Ok(log.format)
          && log.synced == if log.policy != Wal.Buffered || r.lastGood < synced then r.lastGood else synced)
  }

  method Reopen(table: seq<bv32>, bytes: seq<byte>, synced: nat, policy: Wal.Policy, maxBatch: nat, offset: nat, store: Store)
    returns (log: Wal.WriteAheadLog, replayed: Store)
    requires IsTable(table) && 1 <= maxBatch <= 4096 && synced <= |bytes| && CanReopen(bytes, offset)
    ensures fresh(log) && log.Valid() && log.policy == policy && log.maxBatch == maxBatch
    ensures IsReopened(log, bytes, synced, offset)
    ensures replayed == ApplyAll(store, ReplayFrom(bytes, offset).ops)
  {
    hide ReplayFrom, ApplyAll, IsTable, ReportOf, Wal.Recut, Wal.Opened, Wal.Clean, Wal.NoStats,
      Wal.WriteAheadLog.Valid;
    log := new Wal.WriteAheadLog(bytes, synced, policy, maxBatch, table);
    var report;
    report, replayed := log.ReplayFromAndTruncate(offset, store, true, true);
  }

  /** For the files of a crash it goes through. */
  lemma CrashReopens(s: Engine, im: Image, p: Snap)
    requires Paired(s, im, p) && OffsetOf(p) <= MAX_STREAM_OFFSET
    ensures CanReopen(im.bytes, OffsetOf(p))
  {
    hide ReplayFrom, Wal.Recut, Wal.Opened, OffsetOf, CutBack, Covers, Holds, BoundaryOf, GoodImage, Survivors;
    CutImage(s, im, p);
    OpenedImage(im);
  }

  /** A scan that gets to the end of the file ends cleanly. */
  lemma {:induction false} EndIsClean(file: seq<byte>, portable: bool, c: Cursor)
    requires Scan(file, portable, c).end.pos >= |file|
    ensures Scan(file, portable, c).status == CleanEof
    decreases |file| - c.pos
  {
    hide ReadFrame;
    var s := ReadStep(file, portable, c);
    if s.Applied? { EndIsClean(file, portable, s.next); } else if c.pos >= |file| { AtEnd(file, portable, c); }
  }

  lemma CutIsShorter(file: seq<byte>, offset: nat)
    requires ReplayFrom(file, offset).status != CleanEof
    ensures ReplayFrom(file, offset).lastGood != |file|
  {
    hide Scan, FromLE, HeaderValid;
    var c := StartCursor(Portable(file), offset);
    if Scan(file, Portable(file), c).end.pos >= |file| { EndIsClean(file, Portable(file), c); }
  }

  lemma AsLeft(s: Engine, loss: bool, im: Image, p: Snap, log: Wal.WriteAheadLog)
    requires Paired(s, im, p) && (loss ==> s.log.policy != Wal.Buffered) && log.policy == s.log.policy
    requires SyncedAtStart(s, loss, im) <= |im.bytes|
    requires IsReopened(log, im.bytes, SyncedAtStart(s, loss, im), OffsetOf(p))
    ensures var file := CutBack(im.bytes, OffsetOf(p));
            && log.format.Current() && !log.failed && log.streamOpen && log.file == file
            && log.synced == (if Settles(s, loss, im, p) then |file| else Least(s.log.synced, |file|))
            && log.format.generation == (if file == [] then 1 else im.generation)
  {
    hide LogBytes, Survivors, BoundaryOf, Covers, InOrder, Holds, Live, OffsetOf, ReplayFrom, Recover, ReplayedRecords,
      Wal.Opened, CutBack, GoodImage;
    PairReplays(s, im, p);
    PairFile(s, im, p);
    OpenedImage(im);
    CutImage(s, im, p);
    LogIsLong(im.generation, GC.Ops(im.records[..Survivors(im)]));
    var r := ReplayFrom(im.bytes, OffsetOf(p));
    if r.status != CleanEof { CutIsShorter(im.bytes, OffsetOf(p)); }
    HeaderFirst(GC.Ops(im.records[..Survivors(im)]));
    assert |im.bytes| < HEADER_LENGTH ==> CutBack(im.bytes, OffsetOf(p)) == [];
    assert |im.bytes| >= HEADER_LENGTH ==> CutBack(im.bytes, OffsetOf(p)) != [];
  }

  /**
   * A restart, on the objects: open the log on the bytes the crash left, replay from the
   * snapshot's offset over the snapshot's map, and truncate. The map is the engine's memory
   * after the crash, and the log object is its log: file, synced length, generation, next
   * sequence and operations.
   */
  method RestartRefines(table: seq<bv32>, bytes: seq<byte>, synced: nat, policy: Wal.Policy, maxBatch: nat,
                        offset: nat, store: Store, ghost s: Engine, ghost loss: bool, ghost im: Image, ghost p: Snap)
    returns (log: Wal.WriteAheadLog, replayed: Store)
    requires IsTable(table) && Inv(s) && CanCrash(s, loss, im, p) && Aligned(im, p)
    requires policy == s.log.policy && maxBatch == s.log.maxBatch <= 4096
    requires bytes == im.bytes && synced == SyncedAtStart(s, loss, im) && offset == OffsetOf(p) && store == StoreOf(p)
    ensures fresh(log) && log.Valid() && log.format.Current() && log.streamOpen
    ensures Refinement.Represents(log, DoCrash(s, loss, im, p).log)
    ensures replayed == DoCrash(s, loss, im, p).mem
  {
    hide *;
    Prepared(s, loss, im, p);
    ReplayIsRecovery(s, loss, im, p);
    CrashReopens(s, im, p);
    log, replayed := Reopen(table, bytes, synced, policy, maxBatch, offset, store);
    AsLeft(s, loss, im, p, log);
    ReopenedIs(s, loss, im, p, log);
  }

  /** Rotating the log object, synced or not, is the engine's rotation of its log. */
  method RotateRefines(log: Wal.WriteAheadLog, sync: bool, ghost l: GC.Log) returns (done: bool)
    requires log.Valid() && Refinement.Represents(log, l) && log.format.generation < Wal.MAX_U64
    modifies log
    ensures log.Valid() && log.format.Current() && log.streamOpen && done == (log.policy == Wal.Buffered || sync)
    ensures Refinement.Represents(log, Rotated(l))
  {
    hide Wal.WriteAheadLog.Valid;
    done := log.Rotate(true, sync);
  }

  /** What is known about the files before the log is opened. */
  lemma Prepared(s: Engine, loss: bool, im: Image, p: Snap)
    requires Inv(s) && CanCrash(s, loss, im, p) && Aligned(im, p)
    ensures Paired(s, im, p) && GC.Inv(s.log) && s.log.maxBatch > 0
    ensures SyncedAtStart(s, loss, im) <= |im.bytes| && ReplayFrom(im.bytes, 0).lastSequence < Wal.MAX_U64
    ensures DoCrash(s, loss, im, p).log == Reopened(s, loss, im, p) && (loss ==> s.log.policy != Wal.Buffered)
  {
    hide GC.Inv, LogOk, Snapshots, Stale, Threads, Numbers, Queued, Account, Ordered, Memory, Past, Reopened, MayRemain, Placed,
      RecoveredSet, OffsetOf, StoreOf, Settles, Recover, ReplayFrom, GoodImage, Covers, Holds, EndsWhole, BoundaryOf;
    LeftArePaired(s, loss, im, p);
    BatchPositive(s.log);
    StartsWithin(s, loss, im, p);
    OpenedImage(im);
  }
}
