/**
 * The storage engine as one transition system: foreground writers holding shard
 * locks across log submission, the log's writer, the checkpoint thread, explicit
 * saves and compactions, and crashes followed by recovery. Every event is one
 * action of one thread; any interleaving of enabled events is a run.
 */
module Engine {
  import opened Bytes
  import opened Record
  import opened Replay
  import opened Snapshot
  import opened Recovery
  import opened Histories
  import Wal
  import GC = GroupCommit

  const SHARDS: nat := 64

  /**
   * A published snapshot file; the requests in effect in the map it holds; and how many
   * records of the current log lie below its offset.
   */
  datatype Snap = Snap(bytes: Option<seq<byte>>, saved: set<GC.Request>, cover: nat)

  /** A log file as a crash may leave it; its records stand in the history from `start` on. */
  datatype Image = Image(bytes: seq<byte>, generation: nat, records: seq<GC.Request>, start: nat)

  datatype Kind = Checkpoint | SaveSnapshot | Compact

  /** What an administrative operation copied while it held every lock. */
  datatype Copy = Copy(store: Store, offset: nat, saved: set<GC.Request>, cover: nat)

  datatype Stage =
    | Serialized                                // holds the snapshot lock
    | Locking(n: nat)                           // and the admin lock and shards 0 to n-1
    | Copied(copy: Copy)                        // and everything; map and offset copied
    | Released(copy: Copy)                      // checkpoint only: shards and admin lock given back
    | TempWritten(copy: Copy, temp: seq<byte>)
    | TempSynced(copy: Copy, temp: seq<byte>)
    | Renamed(copy: Copy)
    | Published(copy: Copy)                     // the rename is on stable storage
    | Truncated                                 // compaction: log emptied, truncation not synced
    | Finished

  datatype Pc =
    | Resting
    | Locked(r: GC.Request)       // shard lock taken, nothing logged
    | Waiting(r: GC.Request)      // submitted to the log
    | Logged(r: GC.Request)       // the append returned
    | Stored(r: GC.Request)       // memory changed, lock still held
    | Refused(r: GC.Request)      // the append threw
    | Admin(kind: Kind, stage: Stage)

  datatype Engine = Engine(
    hash: Key -> nat,
    log: GC.Log,
    mem: Store,
    threads: map<nat, Pc>,
    shards: map<nat, nat>,          // shard to the thread that holds it exclusively
    adminLock: Option<nat>,
    snapshotLock: Option<nat>,
    visible: Snap,                  // the file at the snapshot path
    durable: set<Snap>,             // what a power loss may leave there
    stale: set<Image>,              // logs a power loss may bring back after an unsynced truncation
    // History: every request ever numbered, in that order; those in effect in memory; those
    // acknowledged; the place of the current log's first record; the map the current log
    // started from, and whether no write has failed since; calls that returned.
    order: seq<GC.Request>,
    live: set<GC.Request>,
    sure: set<GC.Request>,
    start: nat,
    base: Store,
    plain: bool,
    nextId: nat,
    returned: set<nat>
  )

  /** Steps of a foreground call. */
  datatype Call = Begin(op: Op) | Append | Wake | Mutate | Return

  /** Steps of a checkpoint, a save or a compaction. */
  datatype Action =
    | Serialize(kind: Kind)
    | LockAdmin
    | LockShard
    | CopyAll
    | Release
    | WriteTemp(order: seq<Entry>)
    | SyncTemp
    | Rename
    | SyncDirectory
    | Truncate
    | SyncTruncation
    | Finish

  datatype Event =
    | Foreground(t: nat, call: Call)
    | Writer(e: GC.Event)
    | Background(t: nat, action: Action)
    | Crash(loss: bool, image: Image, snap: Snap)   // of the process, or also of what was not synced

  function PcOf(s: Engine, t: nat): Pc {
    if t in s.threads then s.threads[t] else Resting
  }

  function ShardOf(s: Engine, k: Key): nat {
    s.hash(k) % SHARDS
  }

  predicate HasRequest(pc: Pc) {
    pc.Locked? || pc.Waiting? || pc.Logged? || pc.Stored? || pc.Refused?
  }

  /** The log file as it is. */
  function Current(s: Engine): Image {
    Image(s.log.file, s.log.generation, s.log.records, s.start)
  }

  /** The log files a power loss may leave behind, apart from stale ones. */
  predicate MayRemain(s: Engine, image: Image) {
    && s.log.synced <= |image.bytes| <= |s.log.file| && image == Current(s).(bytes := s.log.file[..|image.bytes|])
  }

  // ------------------------------------------------------------ foreground calls

  function At(s: Engine, t: nat, pc: Pc): Engine {
    s.(threads := s.threads[t := pc])
  }

  predicate CanBegin(s: Engine, t: nat, op: Op) {
    PcOf(s, t).Resting? && ShardOf(s, op.key) !in s.shards
  }

  /** A call takes the lock of its key's shard. */
  function DoBegin(s: Engine, t: nat, op: Op): Engine {
    At(s, t, Locked(GC.Request(s.nextId, t, op))).(
      shards := s.shards[ShardOf(s, op.key) := t], nextId := s.nextId + 1)
  }

  predicate CanAppend(s: Engine, t: nat) {
    PcOf(s, t).Locked? &&
    var r := PcOf(s, t).r;
    !Bounded(r.op) || (if s.log.failed then GC.Enabled(s.log, GC.Reject(r)) else GC.Enabled(s.log, GC.Submit(r)))
  }

  /** It submits its operation; an oversized one, or a log that has failed, throws at once. */
  function DoAppend(s: Engine, t: nat): Engine
    requires CanAppend(s, t)
  {
    var r := PcOf(s, t).r;
    if !Bounded(r.op) then At(s, t, Refused(r))
    else if s.log.failed then At(s, t, Refused(r)).(log := GC.Step(s.log, GC.Reject(r)))
    else At(s, t, Waiting(r)).(log := GC.Step(s.log, GC.Submit(r)))
  }

  predicate CanWake(s: Engine, t: nat) {
    PcOf(s, t).Waiting? && PcOf(s, t).r.id in s.log.outcomes
  }

  /** The append returns or throws once its request has completed. */
  function DoWake(s: Engine, t: nat): Engine
    requires CanWake(s, t)
  {
    var r := PcOf(s, t).r;
    At(s, t, if s.log.outcomes[r.id] then Logged(r) else Refused(r))
  }

  /** Memory changes only after the append returned. */
  function DoMutate(s: Engine, t: nat): Engine
    requires PcOf(s, t).Logged?
  {
    var r := PcOf(s, t).r;
    At(s, t, Stored(r)).(mem := Apply(s.mem, r.op), live := s.live + {r})
  }

  function DoReturn(s: Engine, t: nat): Engine
    requires PcOf(s, t).Stored? || PcOf(s, t).Refused?
  {
    var r := PcOf(s, t).r;
    At(s, t, Resting).(
      shards := s.shards - {ShardOf(s, r.op.key)},
      returned := if PcOf(s, t).Stored? then s.returned + {r.id} else s.returned)
  }

  /** One action of the log's writer. */
  predicate CanWrite(s: Engine, g: GC.Event) {
    !g.Submit? && !g.Reject? && GC.Enabled(s.log, g)
  }

  function DoWrite(s: Engine, g: GC.Event): Engine
    requires CanWrite(s, g)
  {
    s.(log := GC.Step(s.log, g),
       order := if g.Finalize? then s.order + s.log.batch else s.order,
       sure := if g.Ack? then s.sure + {s.log.batch[0]} else s.sure,
       stale := if g.Flush? && s.log.phase.Writing? && s.log.policy != Wal.Buffered then {} else s.stale,
       plain := s.plain && !g.Fail?)
  }

  // ------------------------------------------------------------ checkpoints, saves and compactions

  /** The thread runs an administrative operation and has reached this stage. */
  predicate Reached(s: Engine, t: nat, stage: Stage) {
    PcOf(s, t).Admin? && PcOf(s, t).stage == stage
  }

  function AtStage(s: Engine, t: nat, stage: Stage): Engine
    requires PcOf(s, t).Admin?
  {
    At(s, t, Admin(PcOf(s, t).kind, stage))
  }

  function WithoutOwner(shards: map<nat, nat>, t: nat): map<nat, nat> {
    map i | i in shards && shards[i] != t :: shards[i]
  }

  predicate CanSerialize(s: Engine, t: nat) {
    PcOf(s, t).Resting? && s.snapshotLock.None?
  }

  function DoSerialize(s: Engine, t: nat, kind: Kind): Engine {
    At(s, t, Admin(kind, Serialized)).(snapshotLock := Some(t))
  }

  predicate CanLockAdmin(s: Engine, t: nat) {
    Reached(s, t, Serialized) && s.adminLock.None?
  }

  function DoLockAdmin(s: Engine, t: nat): Engine
    requires CanLockAdmin(s, t)
  {
    AtStage(s, t, Locking(0)).(adminLock := Some(t))
  }

  predicate CanLockShard(s: Engine, t: nat) {
    PcOf(s, t).Admin? && PcOf(s, t).stage.Locking? && PcOf(s, t).stage.n < SHARDS && PcOf(s, t).stage.n !in s.shards
  }

  /** Shards are locked in ascending order. */
  function DoLockShard(s: Engine, t: nat): Engine
    requires CanLockShard(s, t)
  {
    var n := PcOf(s, t).stage.n;
    AtStage(s, t, Locking(n + 1)).(shards := s.shards[n := t])
  }

  /**
   * The map and the end of the log are copied while every shard is held. A save or checkpoint
   * that finds a log ending inside a record throws instead: a write failed part-way, and the
   * log's stream no longer gives an offset. `Limits.TornOffset` shows what it would give.
   */
  predicate CouldCopy(s: Engine, t: nat) {
    Reached(s, t, Locking(SHARDS)) && (PcOf(s, t).kind == Compact || EndsWhole(s.log.file))
  }

  predicate EndsWhole(file: seq<byte>) {
    file == [] || ReplayFrom(file, 0).status == CleanEof
  }

  function DoCopy(s: Engine, t: nat): Engine
    requires CouldCopy(s, t)
  {
    AtStage(s, t, Copied(CopyFor(s, PcOf(s, t).kind)))
  }

  /** Compaction saves at offset 0; the others with the present end of the log. */
  function CopyFor(s: Engine, kind: Kind): Copy {
    if kind == Compact then Copy(s.mem, 0, s.live, s.log.acked)
    else Copy(s.mem, |s.log.file|, s.live, WholeRecords(s.log.file))
  }

  /** How many records a log file holds. */
  function WholeRecords(file: seq<byte>): nat {
    |ReplayFrom(file, 0).ops|
  }

  predicate CanRelease(s: Engine, t: nat) {
    PcOf(s, t).Admin? && PcOf(s, t).kind == Checkpoint && PcOf(s, t).stage.Copied?
  }

  /** A checkpoint writes its snapshot after giving the foreground its locks back. */
  function DoRelease(s: Engine, t: nat): Engine
    requires CanRelease(s, t)
  {
    AtStage(s, t, Released(PcOf(s, t).stage.copy)).(shards := WithoutOwner(s.shards, t), adminLock := None)
  }

  predicate CanWriteTemp(s: Engine, t: nat, order: seq<Entry>) {
    && PcOf(s, t).Admin?
    && (if PcOf(s, t).kind == Checkpoint then PcOf(s, t).stage.Released? else PcOf(s, t).stage.Copied?)
    && Enumerates(order, PcOf(s, t).stage.copy.store) && AllEncodable(order) && |order| < U32_LIMIT
  }

  function DoWriteTemp(s: Engine, t: nat, order: seq<Entry>): Engine
    requires CanWriteTemp(s, t, order)
  {
    var copy := PcOf(s, t).stage.copy;
    AtStage(s, t, Stage.TempWritten(copy, SnapshotBytes(order, copy.offset)))
  }

  predicate CanSyncTemp(s: Engine, t: nat) {
    PcOf(s, t).Admin? && PcOf(s, t).stage.TempWritten?
  }

  function DoSyncTemp(s: Engine, t: nat): Engine
    requires CanSyncTemp(s, t)
  {
    AtStage(s, t, Stage.TempSynced(PcOf(s, t).stage.copy, PcOf(s, t).stage.temp))
  }

  predicate CanRename(s: Engine, t: nat) {
    PcOf(s, t).Admin? && PcOf(s, t).stage.TempSynced?
  }

  /** The rename is visible at once, but a power loss may undo it. */
  function DoRename(s: Engine, t: nat): Engine
    requires CanRename(s, t)
  {
    var copy := PcOf(s, t).stage.copy;
    var snap := Snap(Some(PcOf(s, t).stage.temp), copy.saved, copy.cover);
    AtStage(s, t, Stage.Renamed(copy)).(visible := snap, durable := s.durable + {snap})
  }

  predicate CanSyncDirectory(s: Engine, t: nat) {
    PcOf(s, t).Admin? && PcOf(s, t).stage.Renamed?
  }

  function DoSyncDirectory(s: Engine, t: nat): Engine
    requires CanSyncDirectory(s, t)
  {
    AtStage(s, t, Published(PcOf(s, t).stage.copy)).(durable := {s.visible})
  }

  /** Compaction goes on only after the published file has been read back and compared. */
  predicate CanTruncate(s: Engine, t: nat) {
    && PcOf(s, t).Admin? && PcOf(s, t).kind == Compact && PcOf(s, t).stage.Published?
    && LoadPath(s.visible.bytes) == Loaded(PcOf(s, t).stage.copy.store, |PcOf(s, t).stage.copy.store|, 0)
    && s.log.generation < Wal.MAX_U64
  }

  /** The log object and file after a rotation. */
  function Rotated(l: GC.Log): GC.Log {
    l.(generation := l.generation + 1, file := [], synced := 0, submitted := [], records := [], found := 0, acked := 0)
  }

  /** Every file the log could be found as if the truncation never reaches the disk. */
  function ImagesOf(s: Engine): set<Image> {
    set n | s.log.synced <= n <= |s.log.file| :: Current(s).(bytes := s.log.file[..n])
  }

  function DoTruncate(s: Engine, t: nat): Engine
    requires CanTruncate(s, t)
  {
    var snap := s.visible.(cover := 0);
    AtStage(s, t, Truncated).(
      log := Rotated(s.log), visible := snap, durable := {snap},
      stale := if s.log.policy == Wal.Buffered then {} else s.stale + ImagesOf(s),
      start := |s.order|, base := PcOf(s, t).stage.copy.store, plain := true)
  }

  predicate CanSyncTruncation(s: Engine, t: nat) {
    Reached(s, t, Truncated)
  }

  function DoSyncTruncation(s: Engine, t: nat): Engine
    requires CanSyncTruncation(s, t)
  {
    AtStage(s, t, Finished).(stale := if s.log.policy != Wal.Buffered then {} else s.stale)
  }

  /** The end of the operation, or an exception at any point before it: every lock is given back. */
  function DoFinish(s: Engine, t: nat): Engine {
    At(s, t, Resting).(
      shards := WithoutOwner(s.shards, t), snapshotLock := None,
      adminLock := if s.adminLock == Some(t) then None else s.adminLock)
  }

  // ------------------------------------------------------------ crashes

  /**
   * What a crash may leave. The process alone may die: both files stay as they are. Or, under
   * a policy that syncs, power is lost: any unsynced suffix of the log, an unsynced truncation
   * and an unsynced rename may be undone.
   */
  predicate MayLeave(s: Engine, loss: bool, image: Image, snap: Snap) {
    if loss then
      && s.log.policy != Wal.Buffered && (image in s.stale || MayRemain(s, image))
      && exists p :: p in s.durable && snap == Placed(image, p)
    else image == Current(s) && snap == s.visible
  }

  /** A snapshot, with the number of records that its offset leaves behind in this log. */
  function Placed(image: Image, snap: Snap): Snap {
    var n := OffsetOf(snap);
    if n == 0 then snap.(cover := 0)
    else if n <= |image.bytes| then snap.(cover := WholeRecords(image.bytes[..n]))
    else snap
  }

  predicate CanCrash(s: Engine, loss: bool, image: Image, snap: Snap) {
    MayLeave(s, loss, image, snap) && Recover(snap.bytes, image.bytes).Ok?
  }

  /** The offset recovery replays from. */
  function OffsetOf(snap: Snap): nat {
    if LoadPath(snap.bytes).Loaded? then LoadPath(snap.bytes).offset else 0
  }

  /**
   * The check a restart can make on the two files before it goes on: the snapshot's offset
   * lies within the log, where a record ends. `Recovery.RestartCheckIsExact` and
   * `Wal.AcceptedCutsAreBoundaries` show that nothing less will do.
   */
  predicate Aligned(image: Image, snap: Snap) {
    OffsetOf(snap) <= |image.bytes| && EndsWhole(image.bytes[..OffsetOf(snap)])
  }

  /** The log file recovery leaves: cut where replay stopped, unless it stopped cleanly. */
  function CutBack(bytes: seq<byte>, offset: nat): seq<byte> {
    var r := ReplayFrom(bytes, offset);
    if r.status == CleanEof || r.lastGood > |bytes| then bytes else bytes[..r.lastGood]
  }

  /** The requests whose frames a log file holds whole. */
  function KeptRecords(image: Image): seq<GC.Request> {
    var n := WholeRecords(image.bytes);
    if n <= |image.records| then image.records[..n] else image.records
  }

  /** The first record that a replay after this snapshot applies. */
  function From(snap: Snap): nat {
    if OffsetOf(snap) == 0 then 0 else snap.cover
  }

  function ReplayedRecords(image: Image, snap: Snap): seq<GC.Request> {
    var kept := KeptRecords(image);
    if From(snap) <= |kept| then kept[From(snap)..] else []
  }

  /** The requests in effect after recovery. */
  ghost function RecoveredSet(s: Engine, image: Image, snap: Snap): set<GC.Request> {
    var rs := ReplayedRecords(image, snap);
    if Subset(snap.saved, s.order) && (forall i :: 0 <= i < |rs| ==> rs[i] in s.order)
    then Replayed(s.order, snap.saved, rs) else {}
  }

  /** Recovery syncs the log when it cuts it, under a policy that syncs; a power loss leaves only what is safe. */
  predicate Settles(s: Engine, loss: bool, image: Image, snap: Snap) {
    loss || (CutBack(image.bytes, OffsetOf(snap)) != image.bytes && s.log.policy != Wal.Buffered)
  }

  function Least(a: nat, b: nat): nat { if a <= b then a else b }

  /** The log object that recovery opens. */
  function Reopened(s: Engine, loss: bool, image: Image, snap: Snap): GC.Log {
    var file := CutBack(image.bytes, OffsetOf(snap));
    GC.Opened(s.log.policy, s.log.maxBatch, if file == [] then 1 else image.generation, file,
              if Settles(s, loss, image, snap) then |file| else Least(s.log.synced, |file|), KeptRecords(image))
  }

  /** Reopening the log, loading the snapshot, and replaying with truncation. */
  ghost function DoCrash(s: Engine, loss: bool, image: Image, snap: Snap): Engine
    requires CanCrash(s, loss, image, snap)
  {
    var rebased := loss && OffsetOf(snap) == 0;
    s.(log := Reopened(s, loss, image, snap),
       mem := Recover(snap.bytes, image.bytes).value,
       threads := map[], shards := map[], adminLock := None, snapshotLock := None,
       visible := if rebased then snap.(cover := 0) else snap,
       durable := if rebased then {snap.(cover := 0)} else if loss then {snap} else s.durable,
       stale := if Settles(s, loss, image, snap) then {} else s.stale,
       live := RecoveredSet(s, image, snap), start := image.start,
       base := if rebased then StoreOf(snap) else s.base,
       plain := rebased || (s.plain && !(loss && image in s.stale)))
  }

  /** The map a snapshot contributes. */
  function StoreOf(snap: Snap): Store {
    if LoadPath(snap.bytes).Loaded? then LoadPath(snap.bytes).store else map[]
  }

  // ------------------------------------------------------------ the transition system

  predicate CanCall(s: Engine, t: nat, call: Call) {
    match call
    case Begin(op) => CanBegin(s, t, op)
    case Append => CanAppend(s, t)
    case Wake => CanWake(s, t)
    case Mutate => PcOf(s, t).Logged?
    case Return => PcOf(s, t).Stored? || PcOf(s, t).Refused?
  }

  function DoCall(s: Engine, t: nat, call: Call): Engine
    requires CanCall(s, t, call)
  {
    match call
    case Begin(op) => DoBegin(s, t, op)
    case Append => DoAppend(s, t)
    case Wake => DoWake(s, t)
    case Mutate => DoMutate(s, t)
    case Return => DoReturn(s, t)
  }

  predicate CanAct(s: Engine, t: nat, action: Action) {
    match action
    case Serialize(_) => CanSerialize(s, t)
    case LockAdmin => CanLockAdmin(s, t)
    case LockShard => CanLockShard(s, t)
    case CopyAll => CouldCopy(s, t)
    case Release => CanRelease(s, t)
    case WriteTemp(order) => CanWriteTemp(s, t, order)
    case SyncTemp => CanSyncTemp(s, t)
    case Rename => CanRename(s, t)
    case SyncDirectory => CanSyncDirectory(s, t)
    case Truncate => CanTruncate(s, t)
    case SyncTruncation => CanSyncTruncation(s, t)
    case Finish => PcOf(s, t).Admin?
  }

  function DoAct(s: Engine, t: nat, action: Action): Engine
    requires CanAct(s, t, action)
  {
    match action
    case Serialize(kind) => DoSerialize(s, t, kind)
    case LockAdmin => DoLockAdmin(s, t)
    case LockShard => DoLockShard(s, t)
    case CopyAll => DoCopy(s, t)
    case Release => DoRelease(s, t)
    case WriteTemp(order) => DoWriteTemp(s, t, order)
    case SyncTemp => DoSyncTemp(s, t)
    case Rename => DoRename(s, t)
    case SyncDirectory => DoSyncDirectory(s, t)
    case Truncate => DoTruncate(s, t)
    case SyncTruncation => DoSyncTruncation(s, t)
    case Finish => DoFinish(s, t)
  }

  /** The code may take this step. */
  predicate Possible(s: Engine, e: Event) {
    match e
    case Foreground(t, call) => CanCall(s, t, call)
    case Writer(g) => CanWrite(s, g)
    case Background(t, action) => CanAct(s, t, action)
    case Crash(loss, image, snap) => CanCrash(s, loss, image, snap)
  }

  /** And a restart goes on only after the check. */
  predicate Enabled(s: Engine, e: Event) {
    Possible(s, e) && (e.Crash? ==> Aligned(e.image, e.snap))
  }

  ghost function Step(s: Engine, e: Event): Engine
    requires Possible(s, e)
  {
    match e
    case Foreground(t, call) => DoCall(s, t, call)
    case Writer(g) => DoWrite(s, g)
    case Background(t, action) => DoAct(s, t, action)
    case Crash(loss, image, snap) => DoCrash(s, loss, image, snap)
  }

  // ------------------------------------------------------------ the invariant

  ghost predicate HoldsAll(s: Engine, t: nat) {
    s.adminLock == Some(t) && forall i :: 0 <= i < SHARDS ==> i in s.shards && s.shards[i] == t
  }

  /** The thread holds the shard of its request's key. */
  ghost predicate Owns(s: Engine, t: nat, r: GC.Request) {
    && r.tid == t && r.id < s.nextId
    && ShardOf(s, r.op.key) in s.shards && s.shards[ShardOf(s, r.op.key)] == t
  }

  ghost predicate NewTo(order: seq<GC.Request>, r: GC.Request) {
    forall i :: 0 <= i < |order| ==> order[i].id != r.id
  }

  /** What is known about a request from where its call stands. */
  ghost predicate RequestOk(s: Engine, t: nat, pc: Pc) {
    && HasRequest(pc) && Owns(s, t, pc.r) && s.log.found <= |s.log.submitted|
    && (pc.Locked? ==> GC.Fresh(s.log, pc.r) && NewTo(s.order, pc.r))
    && (pc.Waiting? ==> pc.r in s.log.submitted[s.log.found..] && pc.r !in s.live)
    && (pc.Logged? ==> pc.r in s.sure && pc.r !in s.live)
    && (pc.Stored? ==> pc.r in s.sure)
  }

  /** A copy is a map of the history that misses no acknowledged request but those the log holds past its offset. */
  ghost predicate CopyOk(s: Engine, c: Copy) {
    && Subset(c.saved, s.order) && c.store == Live(s.order, c.saved)
    && SavedOk(s, c.saved, c.offset, c.cover)
    && c.offset <= MAX_STREAM_OFFSET
  }

  /** The offset is 0 or the boundary after `cover` records, which the file holds; what was saved and what follows is enough. */
  ghost predicate SavedOk(s: Engine, saved: set<GC.Request>, offset: nat, cover: nat) {
    && (offset != 0 ==>
          && cover <= |s.log.records| && offset == GC.EndOf(s.log, cover) <= |s.log.file|
          && (!s.log.failed ==> cover <= s.log.acked))
    && s.log.acked <= |s.log.records|
    && (forall x :: x in s.sure ==> x in saved || x in s.log.records[if offset == 0 then 0 else cover..])
    && (forall i :: s.log.acked <= i < |s.log.records| ==> s.log.records[i] !in saved)
    && (s.stale != {} ==> s.sure <= saved)
  }

  ghost predicate HasCopy(stage: Stage) {
    stage.Copied? || stage.Released? || stage.TempWritten? || stage.TempSynced? || stage.Renamed? || stage.Published?
  }

  /** The stages in which every lock is held. */
  ghost predicate Exclusive(kind: Kind, stage: Stage) {
    stage.Copied? || (kind != Checkpoint && !stage.Serialized? && !stage.Locking? && !stage.Released?)
  }

  ghost predicate AdminOk(s: Engine, t: nat, kind: Kind, stage: Stage) {
    && s.snapshotLock == Some(t)
    && (stage.Locking? ==>
          && stage.n <= SHARDS && s.adminLock == Some(t)
          && forall i :: 0 <= i < stage.n ==> i in s.shards && s.shards[i] == t)
    && (Exclusive(kind, stage) ==> HoldsAll(s, t))
    && (HasCopy(stage) ==> CopyOk(s, stage.copy))
    && (HasCopy(stage) && Exclusive(kind, stage) ==> stage.copy.saved == s.live)
    && (HasCopy(stage) && kind == Compact ==> stage.copy.offset == 0)
    && (stage.TempWritten? || stage.TempSynced? ==> Holds(Some(stage.temp), stage.copy.store, stage.copy.offset))
    && (stage.Renamed? || stage.Published? ==>
          && s.visible.cover == stage.copy.cover && s.visible.saved == stage.copy.saved
          && Holds(s.visible.bytes, stage.copy.store, stage.copy.offset))
    && (stage.Published? ==> s.durable == {s.visible})
    && (stage.Truncated? || stage.Finished? ==> kind == Compact)
  }

  ghost predicate ThreadOk(s: Engine, t: nat) {
    var pc := PcOf(s, t);
    pc.Resting? || (if pc.Admin? then AdminOk(s, t, pc.kind, pc.stage) else RequestOk(s, t, pc))
  }

  ghost predicate Threads(s: Engine) {
    && (forall t :: t in s.threads ==> ThreadOk(s, t))
    && (forall t, u ::
          t in s.threads && u in s.threads && t != u && HasRequest(s.threads[t]) && HasRequest(s.threads[u]) ==>
            s.threads[t].r.id != s.threads[u].r.id)
  }

  /** Request numbers handed out so far; a request is numbered in the history once. */
  ghost predicate Numbers(s: Engine) {
    && (forall i :: 0 <= i < |s.log.submitted| ==> s.log.submitted[i].id < s.nextId)
    && (forall id :: id in s.log.outcomes ==> id < s.nextId)
    && (forall i :: 0 <= i < |s.order| ==> s.order[i].id < s.nextId && Bounded(s.order[i].op))
    && GC.Distinct(s.order)
    && (forall i :: |s.log.records| <= i < |s.log.submitted| ==> NewTo(s.order, s.log.submitted[i]))
  }

  /** A request in the queue or in the batch belongs to a call that is waiting for it. */
  ghost predicate Queued(s: Engine) {
    forall r :: r in s.log.batch || r in s.log.queue ==> PcOf(s, r.tid) == Waiting(r)
  }

  /** The call of this request is under way and has not changed memory. */
  ghost predicate Underway(s: Engine, r: GC.Request) {
    PcOf(s, r.tid) == Waiting(r) || PcOf(s, r.tid) == Logged(r)
  }

  /**
   * An acknowledged request is missing from memory only while its call is under way; one
   * that was numbered and not acknowledged is in memory never.
   */
  ghost predicate Account(s: Engine) {
    && Subset(s.live, s.order) && Subset(s.sure, s.order)
    && s.log.found <= s.log.acked <= |s.log.records|
    && (forall x :: x in s.sure && x !in s.live ==> Underway(s, x))
    && (forall i :: s.log.acked <= i < |s.log.records| ==> s.log.records[i] !in s.live && s.log.records[i] !in s.sure)
    && (forall i :: s.log.found <= i < s.log.acked ==> s.log.records[i] in s.sure)
  }

  /** No later request touches the shard of one whose call is still under way. */
  ghost predicate Ordered(s: Engine) {
    forall p, q :: 0 <= p < q < |s.order| && Underway(s, s.order[p]) ==>
      ShardOf(s, s.order[p].op.key) != ShardOf(s, s.order[q].op.key)
  }

  ghost predicate Memory(s: Engine) {
    s.mem == Live(s.order, s.live)
  }

  /** The bytes are the start of the log of these records. */
  ghost predicate GoodImage(im: Image) {
    && GenerationFits(im.generation) && AllBounded(GC.Ops(im.records)) && |im.records| < Wal.MAX_U64
    && im.bytes <= LogBytes(im.generation, GC.Ops(im.records))
  }

  /** No record of this log on the same key comes before the request. */
  ghost predicate Ahead(order: seq<GC.Request>, records: seq<GC.Request>, x: GC.Request) {
    && x in order
    && (forall i :: 0 <= i < |records| && records[i].op.key == x.op.key ==>
          records[i] in order && Place(order, x) < Place(order, records[i]))
  }

  /** The record is that of the request; or it is a later one on its key, in a log that does not hold the request. */
  ghost predicate Answers(order: seq<GC.Request>, records: seq<GC.Request>, i: nat, x: GC.Request) {
    && i < |records|
    && (records[i] == x
      || (x in order && x !in records && records[i] in order && records[i].op.key == x.op.key
        && Place(order, x) < Place(order, records[i])))
  }

  /** The request comes before this log on its key, or a record that answers for it is wholly in the file. */
  ghost predicate Covered(order: seq<GC.Request>, im: Image, x: GC.Request) {
    || Ahead(order, im.records, x)
    || (exists i :: Answers(order, im.records, i, x) && BoundaryOf(GC.Ops(im.records[..i + 1])) <= |im.bytes|)
  }

  ghost predicate Covers(s: Engine, im: Image) {
    forall x :: x in s.sure ==> Covered(s.order, im, x)
  }

  ghost predicate ImageOk(s: Engine, im: Image) {
    GoodImage(im) && im.start <= |s.order| && InOrder(s.order, im.records, im.start) && Covers(s, im)
  }

  /** How many bytes of the log the worst crash is sure to leave. */
  function Floor(s: Engine): nat {
    if s.log.policy == Wal.Buffered then |s.log.file| else Least(s.log.synced, |s.log.file|)
  }

  /** The worst that a crash can leave of the current log. */
  function AtFloor(s: Engine): Image {
    Current(s).(bytes := s.log.file[..Floor(s)])
  }

  /** Even that is good. */
  ghost predicate LogOk(s: Engine) {
    ImageOk(s, AtFloor(s)) && GoodImage(Current(s))
  }

  ghost predicate SnapOk(s: Engine, p: Snap) {
    && Subset(p.saved, s.order) && Holds(p.bytes, Live(s.order, p.saved), OffsetOf(p))
    && SavedOk(s, p.saved, OffsetOf(p), p.cover)
  }

  ghost predicate Snapshots(s: Engine) {
    s.visible in s.durable && forall p :: p in s.durable ==> SnapOk(s, p)
  }

  ghost predicate Stale(s: Engine) {
    && (s.stale != {} ==>
          s.log.policy != Wal.Buffered && s.log.synced == 0 && !s.log.phase.Synced? && !s.log.phase.Acking?)
    && (forall im :: im in s.stale ==> ImageOk(s, im) && |im.bytes| <= MAX_STREAM_OFFSET)
  }

  /** Every call that returned was acknowledged. */
  ghost predicate Past(s: Engine) {
    forall id :: id in s.returned ==> exists r :: r in s.sure && r.id == id
  }

  ghost predicate Inv(s: Engine) {
    && GC.Inv(s.log) && |s.log.file| <= MAX_STREAM_OFFSET
    && Threads(s) && Numbers(s) && Queued(s) && Account(s) && Ordered(s) && Memory(s) && LogOk(s)
    && Snapshots(s) && Stale(s) && Past(s)
  }
}
