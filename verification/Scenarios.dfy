/**
 * Pieces of runs, event by event: one write, one save, one compaction up to its truncation,
 * and the death of the process. Larger runs are put together from them.
 */
module Scenarios {
  import opened Bytes
  import opened Record
  import opened Replay
  import opened ReplayLaws
  import opened Snapshot
  import opened Recovery
  import opened Engine
  import opened EngineInv
  import opened Durability
  import Wal
  import GC = GroupCommit

  // ------------------------------------------------------------ runs piece by piece

  /** The events, each of them enabled when its turn comes, lead from one state to the other. */
  ghost predicate Leads(s: Engine, events: seq<Event>, m: Engine) {
    Runs(s, events) && AfterRun(s, events) == m
  }

  lemma Stay(s: Engine)
    ensures Leads(s, [], s)
  {
  }

  lemma {:induction false} Join(s: Engine, a: seq<Event>, m: Engine, b: seq<Event>, n: Engine)
    requires Leads(s, a, m) && Leads(m, b, n)
    ensures Leads(s, a + b, n)
    decreases a
  {
    hide Enabled, Step;
    if a == [] {
      assert a + b == b;
    } else {
      assert (a + b)[0] == a[0] && (a + b)[1..] == a[1..] + b;
      EnabledIsPossible(s, a[0]);
      Join(Step(s, a[0]), a[1..], m, b, n);
    }
  }

  lemma Single(m: Engine, e: Event)
    requires Enabled(m, e)
    ensures Possible(m, e) && Leads(m, [e], Step(m, e))
  {
    hide Enabled, Step;
    EnabledIsPossible(m, e);
    Stay(Step(m, e));
    assert [e][0] == e && [e][1..] == [];
    assert Runs(m, [e]);
  }

  /** One more event. */
  lemma Then(s: Engine, a: seq<Event>, m: Engine, e: Event)
    requires Leads(s, a, m) && Enabled(m, e)
    ensures Leads(s, a + [e], Step(m, e))
  {
    hide Enabled, Step;
    Single(m, e);
    Join(s, a, m, [e], Step(m, e));
  }

  /** One more step of the administrative thread. */
  lemma Acts(s: Engine, a: seq<Event>, m: Engine, action: Action, n: Engine)
    requires Leads(s, a, m) && CanAct(m, 1, action) && DoAct(m, 1, action) == n
    ensures Leads(s, a + [Background(1, action)], n)
  {
    hide Leads, CanAct, DoAct;
    Then(s, a, m, Background(1, action));
  }

  /** One more step of the calling thread. */
  lemma Calls(s: Engine, a: seq<Event>, m: Engine, call: Call, n: Engine)
    requires Leads(s, a, m) && CanCall(m, 0, call) && DoCall(m, 0, call) == n
    ensures Leads(s, a + [Foreground(0, call)], n)
  {
    hide Leads, CanCall, DoCall;
    Then(s, a, m, Foreground(0, call));
  }

  // ------------------------------------------------------------ one write, step by step

  /** Nothing is going on: no call, no lock, the log at rest. */
  ghost predicate AtRest(s: Engine) {
    && s.threads == map[] && s.shards == map[] && s.adminLock == None && s.snapshotLock == None
    && s.log.policy == Wal.Sync && s.log.maxBatch == 1 && s.log.phase == GC.Phase.Idle && !s.log.failed
    && s.log.queue == [] && s.log.batch == [] && s.log.submitted == s.log.records && s.log.acked == |s.log.records| == 0
    && s.log.file == [] && s.log.synced == 0 && s.log.generation == 1
    && (forall id :: id in s.log.outcomes ==> id < s.nextId)
  }

  function Next(s: Engine, op: Op): GC.Request {
    GC.Request(s.nextId, 0, op)
  }

  ghost function Begun(s: Engine, op: Op): Engine {
    s.(threads := map[0 := Locked(Next(s, op))], shards := map[ShardOf(s, op.key) := 0], nextId := s.nextId + 1)
  }

  ghost function Submitted(s: Engine, op: Op): Engine {
    Begun(s, op).(threads := map[0 := Waiting(Next(s, op))],
                  log := s.log.(submitted := [Next(s, op)], queue := [Next(s, op)]))
  }

  ghost function Taken(s: Engine, op: Op): Engine {
    Submitted(s, op).(log := s.log.(submitted := [Next(s, op)], batch := [Next(s, op)], phase := GC.Taken))
  }

  /** The frame is numbered and all of it is in the file, nothing is synced. */
  ghost function Written(s: Engine, op: Op): Engine {
    var r := Next(s, op);
    Submitted(s, op).(log := s.log.(submitted := [r], batch := [r], records := [r], file := LogBytes(1, [op]), phase := GC.Writing([])),
                      order := s.order + [r])
  }

  ghost function Acknowledged(s: Engine, op: Op): Engine {
    var r := Next(s, op);
    Written(s, op).(log := s.log.(submitted := [r], records := [r], file := LogBytes(1, [op]), synced := |LogBytes(1, [op])|,
                                  acked := 1, outcomes := s.log.outcomes[r.id := true]),
                    sure := s.sure + {r}, stale := {})
  }

  ghost function Returned(s: Engine, op: Op): Engine {
    var r := Next(s, op);
    Acknowledged(s, op).(threads := map[0 := Resting], shards := map[], mem := Apply(s.mem, op), live := s.live + {r},
                         returned := s.returned + {r.id})
  }

  lemma BeginStep(s: Engine, op: Op)
    requires AtRest(s)
    ensures var e := Foreground(0, Begin(op));
            Enabled(s, e) && Step(s, e) == Begun(s, op)
  {
  }

  lemma SubmitStep(s: Engine, op: Op)
    requires AtRest(s) && Bounded(op)
    ensures var e := Foreground(0, Append);
            Enabled(Begun(s, op), e) && Step(Begun(s, op), e) == Submitted(s, op)
  {
    hide Bounded;
    var r := Next(s, op);
    assert GC.Fresh(s.log, r);
    assert s.log.submitted + [r] == [r] && s.log.queue + [r] == [r];
  }

  lemma TakeStep(s: Engine, op: Op)
    requires AtRest(s) && Bounded(op)
    ensures var e := Writer(GC.Take(1));
            Enabled(Submitted(s, op), e) && Step(Submitted(s, op), e) == Taken(s, op)
  {
    hide Bounded;
    var r := Next(s, op);
    assert [r][..1] == [r] && [r][1..] == [];
    OneIsABatch(r);
  }

  lemma OneIsABatch(r: GC.Request)
    requires Bounded(r.op)
    ensures GC.IsBatch([r], 1, 1)
  {
    hide Bounded;
    assert [r][..1] == [r] && GC.Ops([r]) == [r.op];
    GC.FrameSizeBounded(r.op);
    assert Size([r.op]) == FrameSize(r.op) + Size([]);
  }

  lemma WriteSteps(s: Engine, op: Op)
    requires AtRest(s) && |LogBytes(1, [op])| <= MAX_STREAM_OFFSET
    ensures Leads(Taken(s, op), [Writer(GC.Finalize)] + [Writer(GC.Write(|LogBytes(1, [op])|))], Written(s, op))
  {
    hide Leads, LogBytes, Wal.Emission;
    var r, log := Next(s, op), LogBytes(1, [op]);
    var m := Taken(s, op);
    FirstEmission(r);
    Stay(m);
    Then(m, [], m, Writer(GC.Finalize));
    assert [] + [Writer(GC.Finalize)] == [Writer(GC.Finalize)];
    var n := Step(m, Writer(GC.Finalize));
    assert s.log.records + [r] == [r];
    assert n.log.phase == GC.Writing(log) && n.log.file == [];
    LogHasBytes(op);
    assert log[..|log|] == log && log[|log|..] == [] && [] + log == log;
    Then(m, [Writer(GC.Finalize)], n, Writer(GC.Write(|log|)));
  }

  lemma FirstEmission(r: GC.Request)
    ensures Wal.Emission(true, 1, 1, GC.Ops([r])) == LogBytes(1, [r.op])
  {
    hide Header, Frames;
    assert GC.Ops([r]) == [r.op];
  }

  lemma LogHasBytes(op: Op)
    ensures |LogBytes(1, [op])| > 0
  {
    hide LogBytes, Size;
    LogParts(1, [op], 0);
  }

  /** Thread 0 submits the operation and the writer puts its frame into the file. */
  function WriteEvents(op: Op): seq<Event> {
    ([Foreground(0, Begin(op))] + [Foreground(0, Append)] + [Writer(GC.Take(1))])
    + ([Writer(GC.Finalize)] + [Writer(GC.Write(|LogBytes(1, [op])|))])
  }

  lemma WriteRuns(s: Engine, op: Op)
    requires AtRest(s) && Bounded(op) && |LogBytes(1, [op])| <= MAX_STREAM_OFFSET
    ensures Leads(s, WriteEvents(op), Written(s, op))
  {
    hide Leads, Bounded, LogBytes, Enabled, Step;
    Stay(s);
    BeginStep(s, op);
    Then(s, [], s, Foreground(0, Begin(op)));
    assert [] + [Foreground(0, Begin(op))] == [Foreground(0, Begin(op))];
    SubmitStep(s, op);
    Then(s, [Foreground(0, Begin(op))], Begun(s, op), Foreground(0, Append));
    TakeStep(s, op);
    Then(s, [Foreground(0, Begin(op))] + [Foreground(0, Append)], Submitted(s, op), Writer(GC.Take(1)));
    WriteSteps(s, op);
    Join(s, [Foreground(0, Begin(op))] + [Foreground(0, Append)] + [Writer(GC.Take(1))], Taken(s, op),
         [Writer(GC.Finalize)] + [Writer(GC.Write(|LogBytes(1, [op])|))], Written(s, op));
  }

  /** The writer syncs and acknowledges, and the call returns. */
  function FinishEvents(): seq<Event> {
    ([Writer(GC.Flush)] + [Writer(GC.Flush)] + [Writer(GC.Ack)])
    + ([Foreground(0, Wake)] + [Foreground(0, Mutate)] + [Foreground(0, Return)])
  }

  lemma AckSteps(s: Engine, op: Op)
    requires AtRest(s)
    ensures Leads(Written(s, op), [Writer(GC.Flush)] + [Writer(GC.Flush)] + [Writer(GC.Ack)], Acknowledged(s, op))
  {
    hide Leads, LogBytes, ShardOf;
    var r, m := Next(s, op), Written(s, op);
    var f, a := Writer(GC.Flush), Writer(GC.Ack);
    Stay(m);
    Then(m, [], m, f);
    assert [] + [f] == [f];
    var m1 := Step(m, f);
    Then(m, [f], m1, f);
    var m2 := Step(m1, f);
    Then(m, [f] + [f], m2, a);
    assert [r][1..] == [];
  }

  lemma ReturnSteps(s: Engine, op: Op)
    requires AtRest(s)
    ensures Leads(Acknowledged(s, op), [Foreground(0, Wake)] + [Foreground(0, Mutate)] + [Foreground(0, Return)], Returned(s, op))
  {
    hide Leads, LogBytes, Apply, ShardOf, Enabled, Step, CanWake, DoWake, DoMutate, DoReturn, Acknowledged, Returned;
    var m := Acknowledged(s, op);
    var m1, m2 := WokenUp(s, op), MutatedBy(s, op);
    Stay(m);
    WakeStep(s, op);
    Calls(m, [], m, Wake, m1);
    assert [] + [Foreground(0, Wake)] == [Foreground(0, Wake)];
    MutateStep(s, op);
    Calls(m, [Foreground(0, Wake)], m1, Mutate, m2);
    LastStep(s, op);
    Calls(m, [Foreground(0, Wake)] + [Foreground(0, Mutate)], m2, Return, Returned(s, op));
  }

  ghost function WokenUp(s: Engine, op: Op): Engine {
    Acknowledged(s, op).(threads := map[0 := Logged(Next(s, op))])
  }

  ghost function MutatedBy(s: Engine, op: Op): Engine {
    Acknowledged(s, op).(threads := map[0 := Stored(Next(s, op))], mem := Apply(s.mem, op),
                         live := s.live + {Next(s, op)})
  }

  lemma WakeStep(s: Engine, op: Op)
    requires AtRest(s)
    ensures CanWake(Acknowledged(s, op), 0) && DoWake(Acknowledged(s, op), 0) == WokenUp(s, op)
  {
    hide LogBytes, ShardOf;
  }

  lemma MutateStep(s: Engine, op: Op)
    requires AtRest(s)
    ensures PcOf(WokenUp(s, op), 0).Logged? && DoMutate(WokenUp(s, op), 0) == MutatedBy(s, op)
  {
    hide Acknowledged, Apply;
    NotInMemoryYet(s, op);
  }

  lemma NotInMemoryYet(s: Engine, op: Op)
    ensures Acknowledged(s, op).mem == s.mem && Acknowledged(s, op).live == s.live
  {
    hide LogBytes, ShardOf;
  }

  lemma LastStep(s: Engine, op: Op)
    requires AtRest(s)
    ensures PcOf(MutatedBy(s, op), 0).Stored? && DoReturn(MutatedBy(s, op), 0) == Returned(s, op)
  {
    hide Acknowledged, Apply, ShardOf;
    OneLockHeld(s, op);
    SameShard(s, MutatedBy(s, op), op.key);
    OneShard(ShardOf(s, op.key));
  }

  lemma OneLockHeld(s: Engine, op: Op)
    ensures var m := Acknowledged(s, op);
            m.hash == s.hash && m.shards == map[ShardOf(s, op.key) := 0] && m.returned == s.returned
  {
    hide LogBytes, ShardOf;
  }

  lemma SameShard(s: Engine, m: Engine, k: Key)
    requires m.hash == s.hash
    ensures ShardOf(m, k) == ShardOf(s, k)
  {
  }

  lemma OneShard(i: nat)
    ensures map[i := 0 as nat] - {i} == map[]
  {
  }

  lemma FinishRuns(s: Engine, op: Op)
    requires AtRest(s)
    ensures Leads(Written(s, op), FinishEvents(), Returned(s, op))
  {
    hide Leads;
    AckSteps(s, op);
    ReturnSteps(s, op);
    Join(Written(s, op), [Writer(GC.Flush)] + [Writer(GC.Flush)] + [Writer(GC.Ack)], Acknowledged(s, op),
         [Foreground(0, Wake)] + [Foreground(0, Mutate)] + [Foreground(0, Return)], Returned(s, op));
  }

  // ------------------------------------------------------------ one save or compaction

  /** Thread 1 starts the operation and takes all locks in order. */
  function LockEvents(kind: Kind, n: nat): seq<Event> {
    if n == 0 then [Background(1, Serialize(kind))] + [Background(1, LockAdmin)]
    else LockEvents(kind, n - 1) + [Background(1, LockShard)]
  }

  /** It copies and publishes. */
  function PublishEvents(order: seq<Entry>): seq<Event> {
    [Background(1, CopyAll)] + [Background(1, WriteTemp(order))] + [Background(1, SyncTemp)] + [Background(1, Rename)]
    + [Background(1, SyncDirectory)]
  }

  function FirstShards(n: nat): (m: map<nat, nat>)
    ensures n !in m && forall i :: i in m ==> i < n && m[i] == 1
  {
    if n == 0 then map[] else FirstShards(n - 1)[n - 1 := 1]
  }

  ghost predicate NoLocks(s: Engine) {
    s.threads == map[] && s.shards == map[] && s.adminLock == None && s.snapshotLock == None
  }

  ghost function LockedUpTo(s: Engine, kind: Kind, n: nat): Engine {
    s.(threads := map[1 := Admin(kind, Locking(n))], shards := FirstShards(n),
       adminLock := Some(1), snapshotLock := Some(1))
  }

  lemma {:induction false} LockRuns(s: Engine, kind: Kind, n: nat)
    requires NoLocks(s) && n <= SHARDS
    ensures Leads(s, LockEvents(kind, n), LockedUpTo(s, kind, n))
  {
    hide Leads, Enabled, Step, FirstShards;
    if n == 0 {
      var m1 := s.(threads := map[1 := Admin(kind, Serialized)], snapshotLock := Some(1));
      Stay(s);
      SerializeStep(s, kind, m1);
      Acts(s, [], s, Serialize(kind), m1);
      assert [] + [Background(1, Serialize(kind))] == [Background(1, Serialize(kind))];
      AdminStep(s, kind, m1);
      Acts(s, [Background(1, Serialize(kind))], m1, LockAdmin, LockedUpTo(s, kind, 0));
    } else {
      LockRuns(s, kind, n - 1);
      ShardStep(s, kind, n);
      Acts(s, LockEvents(kind, n - 1), LockedUpTo(s, kind, n - 1), LockShard, LockedUpTo(s, kind, n));
    }
  }

  lemma SerializeStep(s: Engine, kind: Kind, m1: Engine)
    requires NoLocks(s) && m1 == s.(threads := map[1 := Admin(kind, Serialized)], snapshotLock := Some(1))
    ensures CanSerialize(s, 1) && DoSerialize(s, 1, kind) == m1
  {
  }

  lemma AdminStep(s: Engine, kind: Kind, m1: Engine)
    requires NoLocks(s) && m1 == s.(threads := map[1 := Admin(kind, Serialized)], snapshotLock := Some(1))
    ensures CanLockAdmin(m1, 1) && DoLockAdmin(m1, 1) == LockedUpTo(s, kind, 0)
  {
  }

  lemma ShardStep(s: Engine, kind: Kind, n: nat)
    requires NoLocks(s) && 0 < n <= SHARDS
    ensures CanLockShard(LockedUpTo(s, kind, n - 1), 1)
    ensures DoLockShard(LockedUpTo(s, kind, n - 1), 1) == LockedUpTo(s, kind, n)
  {
  }

  /** It holds every lock and has reached this stage. */
  ghost function SaveAt(s: Engine, kind: Kind, stage: Stage): Engine {
    LockedUpTo(s, kind, SHARDS).(threads := map[1 := Admin(kind, stage)])
  }

  ghost predicate CanSave(s: Engine, kind: Kind, order: seq<Entry>) {
    && NoLocks(s) && kind != Checkpoint && EndsWhole(s.log.file)
    && Enumerates(order, s.mem) && AllEncodable(order) && |order| < U32_LIMIT
  }

  lemma CopyStep(s: Engine, kind: Kind, order: seq<Entry>)
    requires CanSave(s, kind, order)
    ensures var m := LockedUpTo(s, kind, SHARDS);
            && CouldCopy(m, 1) && PcOf(m, 1).Admin?
            && DoCopy(m, 1) == SaveAt(s, kind, Copied(CopyFor(s, kind)))
  {
    hide EndsWhole, Enumerates, Encodable, WholeRecords, FirstShards;
  }

  lemma TempStep(s: Engine, kind: Kind, order: seq<Entry>)
    requires CanSave(s, kind, order)
    ensures var c := CopyFor(s, kind);
            var m := SaveAt(s, kind, Copied(c));
            && CanWriteTemp(m, 1, order)
            && DoWriteTemp(m, 1, order) == SaveAt(s, kind, Stage.TempWritten(c, SnapshotBytes(order, c.offset)))
  {
    hide ReplayFrom, Enumerates, Encodable, WholeRecords, FirstShards, SnapshotBytes;
  }

  lemma SyncStep(s: Engine, kind: Kind, c: Copy, temp: seq<byte>)
    requires NoLocks(s)
    ensures var m := SaveAt(s, kind, Stage.TempWritten(c, temp));
            CanSyncTemp(m, 1) && DoSyncTemp(m, 1) == SaveAt(s, kind, Stage.TempSynced(c, temp))
  {
    hide FirstShards;
  }

  function SnapFor(c: Copy, temp: seq<byte>): Snap {
    Snap(Some(temp), c.saved, c.cover)
  }

  /** The state after the rename, before or after the directory is synced. */
  ghost function PublishedAt(s: Engine, kind: Kind, c: Copy, temp: seq<byte>, durable: set<Snap>, stage: Stage): Engine {
    SaveAt(s, kind, stage).(visible := SnapFor(c, temp), durable := durable)
  }

  lemma RenameStep(s: Engine, kind: Kind, c: Copy, temp: seq<byte>)
    requires NoLocks(s)
    ensures var m := SaveAt(s, kind, Stage.TempSynced(c, temp));
            && CanRename(m, 1)
            && DoRename(m, 1) == PublishedAt(s, kind, c, temp, s.durable + {SnapFor(c, temp)}, Stage.Renamed(c))
  {
    hide FirstShards;
  }

  lemma DirectoryStep(s: Engine, kind: Kind, c: Copy, temp: seq<byte>, durable: set<Snap>)
    requires NoLocks(s)
    ensures var m := PublishedAt(s, kind, c, temp, durable, Stage.Renamed(c));
            && CanSyncDirectory(m, 1)
            && DoSyncDirectory(m, 1) == PublishedAt(s, kind, c, temp, {SnapFor(c, temp)}, Published(c))
  {
    hide FirstShards;
  }

  /** The snapshot of this state is published and on stable storage. */
  ghost function PublishedBy(s: Engine, kind: Kind, order: seq<Entry>): Engine {
    var c := CopyFor(s, kind);
    var temp := SnapshotBytes(order, c.offset);
    PublishedAt(s, kind, c, temp, {SnapFor(c, temp)}, Published(c))
  }

  lemma PublishRuns(s: Engine, kind: Kind, order: seq<Entry>)
    requires CanSave(s, kind, order)
    ensures Leads(LockedUpTo(s, kind, SHARDS), PublishEvents(order), PublishedBy(s, kind, order))
  {
    hide Leads, Enabled, Step, ReplayFrom, Enumerates, Encodable, SnapshotBytes, WholeRecords, FirstShards, SaveAt,
      PublishedAt, LockedUpTo, CopyFor, DoCopy, DoWriteTemp, DoSyncTemp, DoRename, DoSyncDirectory, SnapFor,
      CouldCopy, CanWriteTemp, CanSyncTemp, CanRename, CanSyncDirectory;
    var m, c := LockedUpTo(s, kind, SHARDS), CopyFor(s, kind);
    var temp := SnapshotBytes(order, c.offset);
    var both := s.durable + {SnapFor(c, temp)};
    Stay(m);
    CopyStep(s, kind, order);
    Acts(m, [], m, CopyAll, SaveAt(s, kind, Copied(c)));
    assert [] + [Background(1, CopyAll)] == [Background(1, CopyAll)];
    var es := [Background(1, CopyAll)];
    TempStep(s, kind, order);
    Acts(m, es, SaveAt(s, kind, Copied(c)), WriteTemp(order), SaveAt(s, kind, Stage.TempWritten(c, temp)));
    es := es + [Background(1, WriteTemp(order))];
    SyncStep(s, kind, c, temp);
    Acts(m, es, SaveAt(s, kind, Stage.TempWritten(c, temp)), SyncTemp, SaveAt(s, kind, Stage.TempSynced(c, temp)));
    es := es + [Background(1, SyncTemp)];
    RenameStep(s, kind, c, temp);
    var renamed := PublishedAt(s, kind, c, temp, both, Stage.Renamed(c));
    Acts(m, es, SaveAt(s, kind, Stage.TempSynced(c, temp)), Rename, renamed);
    es := es + [Background(1, Rename)];
    DirectoryStep(s, kind, c, temp, both);
    Acts(m, es, renamed, SyncDirectory, PublishedBy(s, kind, order));
  }

  /** From no locks to the published snapshot. */
  lemma LockAndPublish(s: Engine, kind: Kind, order: seq<Entry>)
    requires CanSave(s, kind, order)
    ensures Leads(s, LockEvents(kind, SHARDS) + PublishEvents(order), PublishedBy(s, kind, order))
  {
    hide Leads, ReplayFrom, Enumerates, Encodable, LockedUpTo, LockEvents, PublishEvents, PublishedBy;
    LockRuns(s, kind, SHARDS);
    PublishRuns(s, kind, order);
    Join(s, LockEvents(kind, SHARDS), LockedUpTo(s, kind, SHARDS), PublishEvents(order), PublishedBy(s, kind, order));
  }

  /** A save ends there and gives the locks back. */
  function SaveEvents(order: seq<Entry>): seq<Event> {
    LockEvents(SaveSnapshot, SHARDS) + PublishEvents(order) + [Background(1, Finish)]
  }

  ghost function Saved(s: Engine, order: seq<Entry>): Engine {
    var snap := Snap(Some(SnapshotBytes(order, |s.log.file|)), s.live, WholeRecords(s.log.file));
    s.(threads := map[1 := Resting], visible := snap, durable := {snap})
  }

  lemma SaveRuns(s: Engine, order: seq<Entry>)
    requires CanSave(s, SaveSnapshot, order)
    ensures Leads(s, SaveEvents(order), Saved(s, order))
  {
    hide Leads, Enumerates, Encodable, LockEvents, PublishEvents, PublishedBy, Saved, ReplayFrom, DoFinish;
    LockAndPublish(s, SaveSnapshot, order);
    FinishStep(s, order);
    Acts(s, LockEvents(SaveSnapshot, SHARDS) + PublishEvents(order), PublishedBy(s, SaveSnapshot, order), Finish,
         Saved(s, order));
  }

  lemma FinishStep(s: Engine, order: seq<Entry>)
    requires NoLocks(s)
    ensures var m := PublishedBy(s, SaveSnapshot, order);
            PcOf(m, 1).Admin? && DoFinish(m, 1) == Saved(s, order)
  {
    hide FirstShards, SnapshotBytes, WholeRecords;
    NoneLeftLocked(SHARDS);
  }

  lemma NoneLeftLocked(n: nat)
    ensures WithoutOwner(FirstShards(n), 1) == map[]
  {
    hide FirstShards;
  }

  /** A compaction goes on to empty the log; the truncation is not synced yet. */
  function CompactEvents(order: seq<Entry>): seq<Event> {
    LockEvents(Compact, SHARDS) + PublishEvents(order) + [Background(1, Truncate)]
  }

  ghost function Compacted(s: Engine, order: seq<Entry>): Engine {
    var snap := Snap(Some(SnapshotBytes(order, 0)), s.live, 0);
    SaveAt(s, Compact, Truncated).(
      log := Rotated(s.log), visible := snap, durable := {snap},
      stale := if s.log.policy == Wal.Buffered then {} else s.stale + ImagesOf(s),
      start := |s.order|, base := s.mem, plain := true)
  }

  lemma CompactRuns(s: Engine, order: seq<Entry>)
    requires CanSave(s, Compact, order) && StoreFits(s.mem) && s.log.generation < Wal.MAX_U64
    ensures Leads(s, CompactEvents(order), Compacted(s, order))
  {
    hide Leads, Enumerates, Encodable, LockEvents, PublishEvents, PublishedBy, Compacted, ReplayFrom, DoTruncate,
      CanTruncate, StoreFits;
    LockAndPublish(s, Compact, order);
    TruncateStep(s, order);
    Acts(s, LockEvents(Compact, SHARDS) + PublishEvents(order), PublishedBy(s, Compact, order), Truncate,
         Compacted(s, order));
  }

  lemma TruncateStep(s: Engine, order: seq<Entry>)
    requires CanSave(s, Compact, order) && StoreFits(s.mem) && s.log.generation < Wal.MAX_U64
    ensures var m := PublishedBy(s, Compact, order);
            CanTruncate(m, 1) && DoTruncate(m, 1) == Compacted(s, order)
  {
    hide FirstShards, SnapshotBytes, WholeRecords, Enumerates, Encodable, ReplayFrom, LoadOf, ImagesOf, StoreFits;
    SavedLoads(order, s.mem);
    var m := PublishedBy(s, Compact, order);
    SameImages(s, m);
    assert m.visible == Snap(Some(SnapshotBytes(order, 0)), s.live, s.log.acked);
  }

  lemma SavedLoads(order: seq<Entry>, store: Store)
    requires Enumerates(order, store) && AllEncodable(order) && |order| < U32_LIMIT && StoreFits(store)
    ensures LoadPath(Some(SnapshotBytes(order, 0))) == Loaded(store, |store|, 0)
  {
    hide Enumerates, Encodable, EntryFits, LoadOf, SnapshotBytes;
    FitsInAnyOrder(order, store);
    LoadSaved(order, store, 0);
  }

  lemma SameImages(s: Engine, m: Engine)
    requires Current(m) == Current(s) && m.log == s.log
    ensures ImagesOf(m) == ImagesOf(s)
  {
  }

  // ------------------------------------------------------------ the death of the process

  function DeathEvent(s: Engine): Event {
    Crash(false, Current(s), s.visible)
  }

  /** A restart on a log that ends whole and a snapshot at offset 0. */
  lemma DeathStep(s: Engine, store: Store)
    requires Holds(s.visible.bytes, store, 0) && EndsWhole(s.log.file) && s.log.policy == Wal.Sync
    requires WholeRecords(s.log.file) == |s.log.records|
    ensures Enabled(s, DeathEvent(s)) && Possible(s, DeathEvent(s))
    ensures Restarts(s, store, Step(s, DeathEvent(s)))
  {
    hide ReplayFrom, LoadOf, RecoveredSet, StoreOf, ApplyAll, Holds, Recover, OffsetOf;
    OffsetHeld(s.visible, store, 0);
    RecoverHeld(s.visible.bytes, s.log.file, store, 0);
    assert s.log.records[..|s.log.records|] == s.log.records;
    assert s.log.file[..0] == [];
  }

  /** What such a restart leaves. */
  ghost predicate Restarts(s: Engine, store: Store, m: Engine) {
    && NoLocks(m) && m.hash == s.hash && m.mem == ApplyAll(store, ReplayFrom(s.log.file, 0).ops)
    && m.log == GC.Opened(Wal.Sync, s.log.maxBatch, if s.log.file == [] then 1 else s.log.generation, s.log.file,
                          Least(s.log.synced, |s.log.file|), s.log.records)
    && m.visible == s.visible && m.durable == s.durable && m.stale == s.stale && m.order == s.order
    && m.start == s.start && m.nextId == s.nextId && m.sure == s.sure && m.returned == s.returned
    && m.live == RecoveredSet(s, Current(s), s.visible)
  }
}
