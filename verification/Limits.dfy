/**
 * Why the conditions of the engine are there: a run in which a restart goes ahead
 * although the snapshot's offset lies beyond the log, and loses an acknowledged write; a run
 * in which a write that a restart had found, and reads may have returned, is taken back; a
 * run after which recovery applies a request that nobody made, because a truncated log is
 * brought back and the offset falls inside one of its values; and what a save would record
 * on a log that ends inside a record.
 */
module Limits {
  import opened Bytes
  import opened Record
  import opened Replay
  import opened ReplayLaws
  import opened Snapshot
  import opened Recovery
  import opened Histories
  import opened Engine
  import opened EngineInv
  import opened EngineCalls
  import opened EngineRestart
  import opened Durability
  import opened Guarantees
  import opened Scenarios
  import opened OldLogs
  import opened Explanations
  import Wal
  import GC = GroupCommit

  // ------------------------------------------------------------ a write that dies with its process

  /** A Set small enough that its sizes are plain. */
  predicate Small(op: Op) {
    op.Set? && |op.key| == 1 && |op.value| <= 64
  }

  /** Its log and its size. */
  lemma SmallLog(op: Op)
    requires Small(op)
    ensures Bounded(op) && |LogBytes(1, [op])| == BoundaryOf([op]) == 50 + |op.value|
    ensures ReplayFrom(LogBytes(1, [op]), 0).ops == [op] && ReplayFrom(LogBytes(1, [op]), 0).status == CleanEof
  {
    hide LogBytes, ReplayFrom, LE;
    ValueInFrame(1, op.key, op.value);
    SameSize(op, op);
    WholeLog(1, [op]);
  }

  /** The frame is in the file, not synced, when the process dies; the restart finds it. */
  ghost predicate FoundAgain(s: Engine, op: Op, store: Store, m: Engine) {
    && NoLocks(m) && m.hash == s.hash && m.mem == Apply(store, op)
    && m.log == GC.Opened(Wal.Sync, 1, 1, LogBytes(1, [op]), 0, [Next(s, op)])
    && m.visible == s.visible && m.durable == s.durable && m.stale == s.stale && m.order == s.order + [Next(s, op)]
    && m.start == s.start && m.nextId == s.nextId + 1 && m.sure == s.sure && m.returned == s.returned
    && m.live == RecoveredSet(Written(s, op), Current(Written(s, op)), s.visible)
  }

  lemma WriteAndDie(s: Engine, op: Op, store: Store)
    requires AtRest(s) && Small(op) && Holds(s.visible.bytes, store, 0)
    ensures var m := Written(s, op);
            && Leads(s, WriteEvents(op), m)
            && Enabled(m, DeathEvent(m)) && Possible(m, DeathEvent(m))
            && FoundAgain(s, op, store, Step(m, DeathEvent(m)))
  {
    hide Leads, LogBytes, ReplayFrom, Bounded, Holds, RecoveredSet, Apply, ShardOf, Enabled, Step, Small;
    var m := Written(s, op);
    SmallLog(op);
    SmallFits(op);
    WriteRuns(s, op);
    DeathStep(m, store);
    ApplyOne(store, op);
  }

  lemma SmallFits(op: Op)
    requires Small(op)
    ensures 50 + |op.value| <= MAX_STREAM_OFFSET
  {
  }

  /** The same as one piece of a run. */
  lemma WriteAndDieRuns(s: Engine, op: Op, store: Store, e: Event, m: Engine)
    requires AtRest(s) && Small(op) && Holds(s.visible.bytes, store, 0)
    requires e == DeathEvent(Written(s, op)) && Possible(Written(s, op), e) && m == Step(Written(s, op), e)
    ensures Leads(s, WriteEvents(op) + [e], m) && FoundAgain(s, op, store, m)
  {
    hide Leads, LogBytes, Holds, Enabled, Step, Small, Possible, FoundAgain, WriteEvents, Written, DeathEvent, AtRest;
    WriteAndDie(s, op, store);
    Then(s, WriteEvents(op), Written(s, op), e);
  }

  // ------------------------------------------------------------ a restart that goes ahead unchecked

  const FIRST: Op := Set([1], [1])
  const SECOND: Op := Set([2], [2])
  const ENTRIES: seq<Entry> := [([1], [1])]

  /** The events before the power loss, and those after it. */
  function EventsBefore(s: Engine): seq<Event> {
    WriteEvents(FIRST)
    + [Crash(false, Image(LogBytes(1, [FIRST]), 1, [Next(s, FIRST)], 0), Snap(None, {}, 0))]
    + SaveEvents(ENTRIES)
  }

  function EventsAfter(): seq<Event> {
    WriteEvents(SECOND) + FinishEvents()
  }

  /** Power is lost: the log is gone, the snapshot is not. */
  function LossEvent(m: Engine): Event {
    Crash(true, Current(m).(bytes := []), m.visible)
  }

  /** The saved state: nothing is synced but the snapshot, whose offset is the end of the log. */
  ghost predicate AboutToLose(m: Engine) {
    && m.log.policy == Wal.Sync && m.log.maxBatch == 1 && m.log.synced == 0 && |m.log.file| == 51
    && Holds(m.visible.bytes, map[[1] := [1]], 51) && m.durable == {m.visible}
    && m.nextId == 1 && m.returned == {}
  }

  lemma StartsAtRest(s: Engine)
    requires Initial(s) && s.log.policy == Wal.Sync && s.log.maxBatch == 1
    ensures AtRest(s) && s.visible == Snap(None, {}, 0) && s.durable == {s.visible} && s.stale == {}
    ensures Holds(s.visible.bytes, map[], 0)
    ensures s.order == [] && s.start == 0 && s.nextId == 0 && s.returned == {}
  {
  }

  lemma BeforeRuns(s: Engine) returns (m: Engine)
    requires Initial(s) && s.log.policy == Wal.Sync && s.log.maxBatch == 1
    ensures Leads(s, EventsBefore(s), m) && AboutToLose(m)
  {
    hide Leads, Enabled, Step, WriteEvents, SaveEvents, Written, Saved, LogBytes, Bounded, Initial, Holds, Possible,
      AtRest, RecoveredSet;
    StartsAtRest(s);
    WriteAndDie(s, FIRST, map[]);
    WrittenIs(s, FIRST);
    var e := DeathEvent(Written(s, FIRST));
    var m1 := Step(Written(s, FIRST), e);
    WriteAndDieRuns(s, FIRST, map[], e, m1);
    FirstCanSave(m1);
    SaveRuns(m1, ENTRIES);
    m := Saved(m1, ENTRIES);
    Join(s, WriteEvents(FIRST) + [e], m1, SaveEvents(ENTRIES), m);
    SavedAbout(m1);
  }

  lemma WrittenIs(s: Engine, op: Op)
    requires AtRest(s)
    ensures Current(Written(s, op)) == Image(LogBytes(1, [op]), 1, [Next(s, op)], s.start)
    ensures Written(s, op).visible == s.visible
  {
    hide LogBytes;
  }

  lemma FirstCanSave(m: Engine)
    requires NoLocks(m) && m.log.file == LogBytes(1, [FIRST]) && m.mem == Apply(map[], FIRST)
    ensures CanSave(m, SaveSnapshot, ENTRIES)
  {
    hide LogBytes, ReplayFrom, Enumerates, BoundaryOf, Bounded;
    SmallLog(FIRST);
    OneEntry([1], [1]);
  }

  lemma SavedAbout(m1: Engine)
    requires m1.log == GC.Opened(Wal.Sync, 1, 1, LogBytes(1, [FIRST]), 0, m1.log.records)
    requires m1.nextId == 1 && m1.returned == {}
    ensures AboutToLose(Saved(m1, ENTRIES))
  {
    hide LogBytes, ReplayFrom, BoundaryOf, Bounded, Holds, SnapshotBytes;
    SmallLog(FIRST);
    OneEntry([1], [1]);
    SavedHolds(ENTRIES, map[[1] := [1]], 51);
  }

  lemma LossIsPossible(m: Engine)
    requires AboutToLose(m)
    ensures var e := LossEvent(m);
            && Possible(m, e) && !Aligned(e.image, e.snap) && OffsetOf(e.snap) == 51
            && Recover(e.snap.bytes, []) == Ok(map[[1] := [1]])
  {
    hide ReplayFrom, Holds, Recover, OffsetOf;
    OffsetHeld(m.visible, map[[1] := [1]], 51);
    EmptyFrom(51);
    RecoverHeld(m.visible.bytes, [], map[[1] := [1]], 51);
    ApplyNone(map[[1] := [1]]);
    assert m.log.file[..0] == [];
    assert m.visible == Placed(Current(m).(bytes := []), m.visible);
  }

  lemma EmptyFrom(offset: nat)
    ensures ReplayFrom([], offset).ops == [] && ReplayFrom([], offset).status == CleanEof
  {
  }

  lemma LossLeavesRest(m: Engine)
    requires AboutToLose(m) && Possible(m, LossEvent(m)) && OffsetOf(m.visible) == 51
    ensures var r := Step(m, LossEvent(m));
            AtRest(r) && r.visible == m.visible && r.nextId == 1 && r.returned == {}
  {
    hide ReplayFrom, LoadOf, OffsetOf, RecoveredSet, StoreOf, Recover, Holds, MayLeave;
    EmptyFrom(51);
    EmptyFrom(0);
  }

  lemma AfterRuns(r: Engine)
    requires AtRest(r)
    ensures Leads(r, EventsAfter(), Returned(r, SECOND))
  {
    hide Leads, WriteEvents, FinishEvents, Written, Returned, LogBytes, Bounded;
    SmallLog(SECOND);
    WriteRuns(r, SECOND);
    FinishRuns(r, SECOND);
    Join(r, WriteEvents(SECOND), Written(r, SECOND), FinishEvents(), Returned(r, SECOND));
  }

  /** What the run comes to: a write that was acknowledged and returned, and that recovery does not find. */
  ghost predicate WriteIsLost(m: Engine) {
    && m.returned == {1} && GC.Request(1, 0, SECOND) in m.sure && MayLeave(m, false, Current(m), m.visible)
    && Aligned(Current(m), m.visible) && Recover(m.visible.bytes, m.log.file) == Ok(map[[1] := [1]])
  }

  /**
   * What the restart check is for. From an empty store: Set(1) reaches the file but is not
   * synced, the process dies, the restarted store is saved, power is lost, and a restart goes
   * ahead although the snapshot's offset lies beyond the log. Then Set(2) is acknowledged and
   * returns, and the next recovery does not find it. Every other event satisfies every
   * condition.
   */
  lemma UncheckedRestartLosesWrite(s: Engine)
    requires Initial(s) && s.log.policy == Wal.Sync && s.log.maxBatch == 1
    ensures Runs(s, EventsBefore(s))
    ensures var m := AfterRun(s, EventsBefore(s));
            && Possible(m, LossEvent(m)) && !Aligned(LossEvent(m).image, LossEvent(m).snap)
            && Runs(Step(m, LossEvent(m)), EventsAfter())
            && WriteIsLost(AfterRun(Step(m, LossEvent(m)), EventsAfter()))
  {
    hide Enabled, Step, EventsBefore, EventsAfter, AboutToLose, Possible, Recover, LogBytes, OffsetOf, Runs, AfterRun,
      Initial, AtRest, WriteIsLost, Aligned;
    var m := BeforeRuns(s);
    LossIsPossible(m);
    LossLeavesRest(m);
    var r := Step(m, LossEvent(m));
    AfterRuns(r);
    SecondIsMissing(m, r);
  }

  lemma SecondIsMissing(m: Engine, r: Engine)
    requires AboutToLose(m) && AtRest(r) && r.visible == m.visible && r.nextId == 1 && r.returned == {}
    ensures WriteIsLost(Returned(r, SECOND))
  {
    hide LogBytes, ReplayFrom, Recover, Holds, BoundaryOf, Bounded, ShardOf, Apply, OffsetOf;
    SmallLog(SECOND);
    NothingBeyond(1, [SECOND], 51);
    RecoverHeld(m.visible.bytes, LogBytes(1, [SECOND]), map[[1] := [1]], 51);
    OffsetHeld(m.visible, map[[1] := [1]], 51);
    assert LogBytes(1, [SECOND])[..51] == LogBytes(1, [SECOND]);
    ApplyNone(map[[1] := [1]]);
  }

  // ------------------------------------------------------------ a write that is read and taken back

  /** The write reaches the file, the process dies, and the restart finds it. */
  function FoundEvents(s: Engine): seq<Event> {
    WriteEvents(FIRST) + [Crash(false, Image(LogBytes(1, [FIRST]), 1, [Next(s, FIRST)], 0), Snap(None, {}, 0))]
  }

  /**
   * What a restart has recovered, and reads may have returned, need not stay. From an empty
   * store: Set(1) reaches the file but is not synced, and the process dies. The restarted
   * store holds it, with no lock held. A power loss then leaves files that pass the restart
   * check, and the next restart finds nothing.
   */
  lemma ReadAndTakenBack(s: Engine)
    requires Initial(s) && s.log.policy == Wal.Sync && s.log.maxBatch == 1
    ensures Runs(s, FoundEvents(s))
    ensures var m := AfterRun(s, FoundEvents(s));
            && m.mem == map[[1] := [1]] && m.shards == map[]
            && Enabled(m, LossEvent(m)) && Recover(LossEvent(m).snap.bytes, LossEvent(m).image.bytes) == Ok(map[])
            && Step(m, LossEvent(m)).mem == map[]
  {
    hide Leads, Enabled, Step, WriteEvents, Written, LogBytes, Initial, Holds, Possible, AtRest, RecoveredSet,
      Recover;
    StartsAtRest(s);
    WriteAndDie(s, FIRST, map[]);
    WrittenIs(s, FIRST);
    var e := DeathEvent(Written(s, FIRST));
    var m := Step(Written(s, FIRST), e);
    WriteAndDieRuns(s, FIRST, map[], e, m);
    LeadsTo(s, FoundEvents(s), m);
    NothingIsLeft(m);
  }

  lemma LeadsTo(s: Engine, events: seq<Event>, m: Engine)
    requires Leads(s, events, m)
    ensures Runs(s, events) && AfterRun(s, events) == m
  {
    hide Runs, AfterRun;
  }

  lemma NothingIsLeft(m: Engine)
    requires m.log.policy == Wal.Sync && m.log.synced == 0 && m.visible == Snap(None, {}, 0) && m.durable == {m.visible}
    ensures Enabled(m, LossEvent(m)) && Step(m, LossEvent(m)).mem == map[]
    ensures Recover(LossEvent(m).snap.bytes, LossEvent(m).image.bytes) == Ok(map[])
  {
    hide ReplayFrom, RecoveredSet, ApplyAll;
    EmptyFrom(0);
    ApplyNone(map[]);
    assert m.log.file[..0] == [];
    assert m.visible == Placed(Current(m).(bytes := []), m.visible);
  }

  // ------------------------------------------------------------ a request that nobody made

  /** A Set that no call makes, a value that looks like its frame, and a Set whose log ends where that value begins. */
  const INNER: Op := Set([9], [9])
  const NESTED: Value := Frame(1, INNER)
  const OLD: Op := Set([1], NESTED)
  const NEWER: Op := Set([2], [])
  const OLD_ENTRIES: seq<Entry> := [([1], NESTED)]
  const NEWER_ENTRIES: seq<Entry> := [([1], NESTED), ([2], [])]

  /** The snapshot that the compaction publishes. */
  function OldSnap(s: Engine): Snap {
    Snap(Some(SnapshotBytes(OLD_ENTRIES, 0)), {Next(s, OLD)}, 0)
  }

  function OldImage(s: Engine): Image {
    Image(LogBytes(1, [OLD]), 1, [Next(s, OLD)], 0)
  }

  /**
   * The old Set reaches the log and the process dies; a compaction empties the log and the
   * process dies before the truncation is synced; the newer Set reaches the log and the
   * process dies; the store is saved.
   */
  function MisreadEvents(s: Engine): seq<Event> {
    WriteEvents(OLD) + [Crash(false, OldImage(s), Snap(None, {}, 0))]
    + CompactEvents(OLD_ENTRIES) + [Crash(false, Image([], 2, [], 1), OldSnap(s))]
    + (WriteEvents(NEWER) + [Crash(false, Image(LogBytes(1, [NEWER]), 1, [GC.Request(1, 0, NEWER)], 1), OldSnap(s))])
    + SaveEvents(NEWER_ENTRIES)
  }

  /** Power is lost, and the old log is back. */
  function MisreadLoss(s: Engine, m: Engine): Event {
    Crash(true, OldImage(s), Placed(OldImage(s), m.visible))
  }

  lemma NestedIs()
    ensures |NESTED| == 27 && Small(OLD) && Small(NEWER) && Bounded(INNER)
  {
    hide Frame, LE;
    ValueInFrame(1, [9], [9]);
  }

  lemma OldEntries()
    ensures Enumerates(OLD_ENTRIES, map[[1] := NESTED]) && AllEncodable(OLD_ENTRIES) && StoreFits(map[[1] := NESTED])
  {
    hide Frame;
    NestedIs();
    assert OLD_ENTRIES[1..] == [];
    assert MapOf(map[], OLD_ENTRIES) == MapOf(map[][[1] := NESTED], []);
  }

  lemma NewerEntries()
    ensures var store := map[[1] := NESTED, [2] := []];
            Enumerates(NEWER_ENTRIES, store) && AllEncodable(NEWER_ENTRIES) && StoreFits(store)
  {
    hide Frame;
    NestedIs();
    var one, store := map[[1] := NESTED], map[[1] := NESTED, [2] := []];
    assert NEWER_ENTRIES[1..] == [([2], [])] && NEWER_ENTRIES[1..][1..] == [];
    assert MapOf(map[], NEWER_ENTRIES) == MapOf(map[][[1] := NESTED], NEWER_ENTRIES[1..]);
    assert MapOf(one, [([2], [])]) == MapOf(one[[2] := []], []);
    assert store == one[[2] := []] && |store| == |one| + 1;
  }

  /** The old Set is found again, and is what memory and the history hold. */
  lemma OldFound(s: Engine, m: Engine)
    requires AtRest(s) && s.order == [] && s.visible == Snap(None, {}, 0) && s.start == 0
    requires FoundAgain(s, OLD, map[], m)
    ensures m.live == {Next(s, OLD)} && m.mem == map[[1] := NESTED] && m.order == [Next(s, OLD)]
    ensures Current(m) == OldImage(s)
  {
    hide LogBytes, ReplayFrom, Frame, BoundaryOf, Bounded;
    NestedIs();
    SmallLog(OLD);
    var w, r := Written(s, OLD), Next(s, OLD);
    WrittenIs(s, OLD);
    assert KeptRecords(Current(w)) == [r] by { assert [r][..1] == [r]; }
    assert ReplayedRecords(Current(w), s.visible) == [r] by { assert [r][0..] == [r]; }
    assert w.order == [r] && m.order == [r];
    OneRecovered(w.order, r);
  }

  lemma OneRecovered(order: seq<GC.Request>, r: GC.Request)
    requires order == [r]
    ensures Subset({}, order) && (forall i :: 0 <= i < |[r]| ==> [r][i] in order)
    ensures Replayed(order, {}, [r]) == {r}
  {
    assert [r][0] == r && r in order;
  }

  lemma OldCanBeCompacted(m: Engine)
    requires NoLocks(m) && m.log.file == LogBytes(1, [OLD]) && m.mem == map[[1] := NESTED]
    ensures CanSave(m, Compact, OLD_ENTRIES) && StoreFits(m.mem)
  {
    hide LogBytes, ReplayFrom, Enumerates, BoundaryOf, Bounded, Encodable, StoreFits, Frame;
    NestedIs();
    SmallLog(OLD);
    OldEntries();
  }

  /** After the compaction: the log is empty, and the old one may come back. */
  ghost predicate MayComeBack(s: Engine, m: Engine) {
    && m.log.policy == Wal.Sync && m.log.maxBatch == 1 && m.visible == OldSnap(s) && m.durable == {m.visible}
    && OldImage(s) in m.stale && m.order == [Next(s, OLD)] && m.start == 1 && m.nextId == 1
    && m.log.file == [] && m.log.records == [] && m.log.synced == 0
  }

  lemma CompactedIs(s: Engine, m: Engine)
    requires FoundAgain(s, OLD, map[], m) && s.nextId == 0
    requires m.live == {Next(s, OLD)} && m.order == [Next(s, OLD)] && Current(m) == OldImage(s)
    ensures MayComeBack(s, Compacted(m, OLD_ENTRIES)) && Compacted(m, OLD_ENTRIES).log.generation == 2
  {
    hide LogBytes, SnapshotBytes, FirstShards, Frame;
    assert m.log.file[..|m.log.file|] == m.log.file;
    assert Current(m).(bytes := m.log.file[..|m.log.file|]) in ImagesOf(m);
  }

  lemma OldSnapHolds(s: Engine)
    ensures Holds(OldSnap(s).bytes, map[[1] := NESTED], 0)
  {
    hide SnapshotBytes, Enumerates, Encodable, Frame, Holds, StoreFits;
    OldEntries();
    SavedHolds(OLD_ENTRIES, map[[1] := NESTED], 0);
  }

  /** The restart after the compaction finds an empty log. */
  lemma CompactedDies(s: Engine, m: Engine)
    requires MayComeBack(s, m)
    ensures Enabled(m, DeathEvent(m)) && Possible(m, DeathEvent(m))
    ensures var n := Step(m, DeathEvent(m));
            MayComeBack(s, n) && AtRest(n)
  {
    hide LogBytes, SnapshotBytes, Holds, ReplayFrom, RecoveredSet, Enabled, Step, Frame, Possible;
    OldSnapHolds(s);
    EmptyFrom(0);
    DeathStep(m, map[[1] := NESTED]);
  }

  /** The saved state: the offset is the end of the newer log. */
  ghost predicate AboutToMisread(s: Engine, m: Engine) {
    && m.log.policy == Wal.Sync && OldImage(s) in m.stale && m.durable == {m.visible}
    && Holds(m.visible.bytes, map[[1] := NESTED, [2] := []], 50)
    && m.order == [Next(s, OLD), GC.Request(1, 0, NEWER)]
  }

  lemma NewerIsSaved(s: Engine, n: Engine, m: Engine)
    requires MayComeBack(s, n) && AtRest(n) && FoundAgain(n, NEWER, map[[1] := NESTED], m)
    ensures CanSave(m, SaveSnapshot, NEWER_ENTRIES) && AboutToMisread(s, Saved(m, NEWER_ENTRIES))
  {
    hide LogBytes, ReplayFrom, BoundaryOf, Bounded, Holds, SnapshotBytes, Enumerates, Encodable, StoreFits, Frame,
      RecoveredSet;
    NestedIs();
    SmallLog(NEWER);
    NewerEntries();
    SavedHolds(NEWER_ENTRIES, map[[1] := NESTED, [2] := []], 50);
    assert m.mem == map[[1] := NESTED, [2] := []];
    assert [Next(s, OLD)] + [GC.Request(1, 0, NEWER)] == [Next(s, OLD), GC.Request(1, 0, NEWER)];
  }

  lemma MisreadRuns(s: Engine) returns (m: Engine)
    requires Initial(s) && s.log.policy == Wal.Sync && s.log.maxBatch == 1
    ensures Leads(s, MisreadEvents(s), m) && AboutToMisread(s, m)
  {
    hide Leads, Enabled, Step, Possible, WriteEvents, SaveEvents, CompactEvents, Written, Saved, Compacted, LogBytes,
      Initial, Holds, AtRest, FoundAgain, MayComeBack, AboutToMisread, SnapshotBytes, CanSave, StoreFits, Small, Frame;
    var m2 := OldRuns(s);
    CompactedDies(s, m2);
    EmptyImage(s, m2);
    var e2 := DeathEvent(m2);
    var m3 := Step(m2, e2);
    var es := WriteEvents(OLD) + [Crash(false, OldImage(s), Snap(None, {}, 0))] + CompactEvents(OLD_ENTRIES);
    Then(s, es, m2, e2);
    NestedIs();
    OldSnapHolds(s);
    BackFields(s, m3);
    WriteAndDie(m3, NEWER, map[[1] := NESTED]);
    WrittenIs(m3, NEWER);
    var e4 := DeathEvent(Written(m3, NEWER));
    var m4 := Step(Written(m3, NEWER), e4);
    WriteAndDieRuns(m3, NEWER, map[[1] := NESTED], e4, m4);
    Join(s, es + [e2], m3, WriteEvents(NEWER) + [e4], m4);
    NewerIsSaved(s, m3, m4);
    SaveRuns(m4, NEWER_ENTRIES);
    m := Saved(m4, NEWER_ENTRIES);
    Join(s, es + [e2] + (WriteEvents(NEWER) + [e4]), m4, SaveEvents(NEWER_ENTRIES), m);
  }

  lemma EmptyImage(s: Engine, m: Engine)
    requires MayComeBack(s, m) && m.log.generation == 2
    ensures DeathEvent(m) == Crash(false, Image([], 2, [], 1), OldSnap(s))
  {
    hide SnapshotBytes, LogBytes, Frame;
  }

  lemma BackFields(s: Engine, m: Engine)
    requires MayComeBack(s, m)
    ensures m.visible == OldSnap(s) && m.start == 1 && m.nextId == 1
  {
    hide SnapshotBytes, LogBytes, Frame;
  }

  /** The run up to the compaction. */
  lemma OldRuns(s: Engine) returns (m: Engine)
    requires Initial(s) && s.log.policy == Wal.Sync && s.log.maxBatch == 1
    ensures Leads(s, WriteEvents(OLD) + [Crash(false, OldImage(s), Snap(None, {}, 0))] + CompactEvents(OLD_ENTRIES), m)
    ensures MayComeBack(s, m) && m.log.generation == 2
  {
    hide Leads, Enabled, Step, Possible, WriteEvents, CompactEvents, Written, Compacted, LogBytes, Initial, Holds,
      AtRest, MayComeBack, SnapshotBytes, CanSave, StoreFits, Small, Frame, RecoveredSet;
    StartsAtRest(s);
    NestedIs();
    WriteAndDie(s, OLD, map[]);
    WrittenIs(s, OLD);
    var e := DeathEvent(Written(s, OLD));
    var m1 := Step(Written(s, OLD), e);
    WriteAndDieRuns(s, OLD, map[], e, m1);
    OldFound(s, m1);
    OldCanBeCompacted(m1);
    CompactRuns(m1, OLD_ENTRIES);
    m := Compacted(m1, OLD_ENTRIES);
    CompactedIs(s, m1);
    Join(s, WriteEvents(OLD) + [e], m1, CompactEvents(OLD_ENTRIES), m);
  }

  /**
   * Whatever is read from inside a record and leaves a key that nobody wrote is wrong: the map
   * recovered is the map of no set of requests of the history. By the main theorem the files
   * are then not clear.
   */
  lemma ForeignIsWrong(s: Engine, loss: bool, image: Image, p: Snap, k: Key, live: set<GC.Request>)
    requires Reachable(s) && MayLeave(s, loss, image, p)
    requires forall i :: 0 <= i < |s.order| ==> s.order[i].op.key != k
    requires k in ApplyAll(map[], ReplayFrom(image.bytes, OffsetOf(p)).ops)
    ensures Recover(p.bytes, image.bytes) != Ok(Live(s.order, live)) && !Clear(image, p)
  {
    hide Reachable, Inv, ReplayFrom, ApplyAll, Recover, OffsetOf, Live, MayLeave, Clear, GC.Inv, Threads, Numbers,
      Queued, Account, Ordered, Memory, LogOk, Snapshots, Stale, Past;
    ReachableInv(s);
    InvParts(s);
    ForeignKey(s, loss, image, p, k);
    NothingOn(s.order, live, k);
    if Clear(image, p) {
      var recovered, end := RecoveryRebuildsHistory(s, loss, image, p);
      NothingOn(s.order, recovered, k);
    }
  }

  lemma ForeignKey(s: Engine, loss: bool, image: Image, p: Snap, k: Key)
    requires Snapshots(s) && MayLeave(s, loss, image, p)
    requires k in ApplyAll(map[], ReplayFrom(image.bytes, OffsetOf(p)).ops)
    ensures Recover(p.bytes, image.bytes).Ok? && k in Recover(p.bytes, image.bytes).value
  {
    hide Snapshots, ReplayFrom, ApplyAll, Recover, OffsetOf, Live, MayLeave, Holds, SavedOk;
    var q := LeftSnap(s, loss, image, p);
    var store, ops := Live(s.order, p.saved), ReplayFrom(image.bytes, OffsetOf(p)).ops;
    RecoverHeld(p.bytes, image.bytes, store, OffsetOf(p));
    if !Touches(ops, k) { ApplyUntouched(map[], ops, k); }
    ApplyAgrees(store, map[], ops, k);
  }

  /** The recovered map: what was saved, and a key that nobody wrote. */
  const MISREAD_MAP: Store := map[[1] := NESTED, [2] := [], [9] := [9]]

  lemma MisreadReads(s: Engine, m: Engine)
    requires AboutToMisread(s, m)
    ensures var e := MisreadLoss(s, m);
            && Possible(m, e) && OffsetOf(e.snap) == 50 && |e.image.bytes| == 77
            && Recover(e.snap.bytes, e.image.bytes) == Ok(MISREAD_MAP)
  {
    hide LogBytes, Holds, Recover, ReplayFrom, OffsetOf, WholeRecords, Frame, FrameSize, Bounded, BoundaryOf,
      HeaderValid;
    var store, e, file := map[[1] := NESTED, [2] := []], MisreadLoss(s, m), LogBytes(1, [OLD]);
    NestedIs();
    SmallLog(OLD);
    OffsetHeld(m.visible, store, 50);
    PlacedSame(OldImage(s), m.visible);
    FrameIsThere(file);
    RecoverHeld(m.visible.bytes, file, store, 50);
    ApplyOne(store, INNER);
    assert Apply(store, INNER) == MISREAD_MAP;
  }

  lemma PlacedSame(image: Image, p: Snap)
    ensures Placed(image, p).bytes == p.bytes && OffsetOf(Placed(image, p)) == OffsetOf(p)
  {
    hide WholeRecords;
  }

  lemma FrameIsThere(file: seq<byte>)
    requires file == LogBytes(1, [OLD])
    ensures ReplayFrom(file, 50).ops == [INNER]
  {
    hide LogBytes, ReplayFrom, Frame, HeaderValid, Bounded;
    NestedIs();
    ValueInFrame(1, [9], [9]);
    ValueInLog(1, [], [1], NESTED, []);
    assert [] + [OLD] + [] == [OLD];
    assert file[50..77] == NESTED by { ValueBegins(); }
    FrameIsRead(file, 50, 1, INNER);
  }

  lemma ValueBegins()
    ensures ValueAt([], [1]) == 50
  {
  }

  /**
   * What the condition on a log brought back is for. A run from an empty store without a
   * failed write, all of whose events satisfy every condition, and a power loss that brings
   * back the truncated log under the snapshot of the log that followed it. The offset lies
   * within the old log, inside a value; and recovery gives a map that is the map of no set of
   * requests of the history: it applies a Set that no call made.
   */
  lemma ValueReadAsRequest(s: Engine)
    requires Initial(s) && s.log.policy == Wal.Sync && s.log.maxBatch == 1
    ensures Runs(s, MisreadEvents(s))
    ensures var m := AfterRun(s, MisreadEvents(s));
            var e := MisreadLoss(s, m);
            && Possible(m, e) && OffsetOf(e.snap) == 50 < 77 == |e.image.bytes|
            && Recover(e.snap.bytes, e.image.bytes) == Ok(MISREAD_MAP)
            && (forall live :: Live(m.order, live) != MISREAD_MAP)
  {
    hide Enabled, Step, MisreadEvents, Possible, Recover, LogBytes, OffsetOf, Runs, AfterRun, Initial, Frame, Live, Holds;
    var m := MisreadRuns(s);
    MisreadReads(s, m);
    forall live
      ensures Live(m.order, live) != MISREAD_MAP
    {
      NothingOn(m.order, live, [9]);
      assert [9] in MISREAD_MAP;
    }
  }

  // ------------------------------------------------------------ a save on a torn log

  /**
   * The end of a log that was written as far as it goes is 0 or a record boundary, and so fit
   * to be a snapshot's offset, if and only if the file replays cleanly. Otherwise it lies
   * beyond the last boundary, where the next recovery cuts the log.
   */
  lemma TornOffset(generation: nat, ops: seq<Op>, n: nat)
    requires GenerationFits(generation) && AllBounded(ops) && |ops| < U64_LIMIT && n <= |LogBytes(generation, ops)|
    ensures var r := ReplayFrom(LogBytes(generation, ops)[..n], 0);
            && (r.status == CleanEof <==> n == 0 || exists j :: 0 <= j <= |ops| && n == BoundaryOf(ops[..j]))
            && (r.status != CleanEof ==> r.lastGood < n)
  {
    hide ReplayFrom, LogBytes, Size, Whole, AllBounded;
    TornWrite(generation, ops, n);
    if n < HEADER_LENGTH {
      forall j | 0 <= j <= |ops|
        ensures n != BoundaryOf(ops[..j])
      {
        HeaderFirst(ops[..j]);
      }
    } else {
      var k := Whole(ops, n - HEADER_LENGTH);
      WholeBrackets(ops, n - HEADER_LENGTH);
      forall j | 0 <= j <= |ops| && n == BoundaryOf(ops[..j])
        ensures j == k
      {
        Wal.OneBoundary(ops, j, n - HEADER_LENGTH);
      }
    }
  }
}
