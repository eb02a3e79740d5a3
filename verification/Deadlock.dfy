/**
 * The locking of the whole system: foreground calls, the checkpoint thread,
 * administrative operations and the log's writer, each as the list of lock
 * operations it performs. Whatever the interleaving, no state with an unfinished
 * operation is stuck, and started operations finish under every scheduler.
 */
module Deadlock {

  // Locks, numbered in the order in which every thread takes them.
  const SNAPSHOT: nat := 0
  const ADMIN: nat := 1
  const SHARDS: nat := 64
  const CHECKPOINT: nat := 66
  const QUEUE: nat := 67
  const IO: nat := 68

  function Shard(i: nat): nat { 2 + i }

  datatype Mode = Shared | Exclusive

  datatype Instr =
    | Acquire(lock: nat, mode: Mode)
    | Release(lock: nat)
    | Submit    // under the queue lock: push a request, or throw later if the log has failed
    | Await     // block until the request has completed
    | Do(task: Task)

  /** What an operation does between taking locks and giving them back. */
  datatype Task =
    | ReadShard(i: nat)     // look a key up in one shard
    | ChangeShard(i: nat)   // store or erase a key in one shard
    | ReadStore             // count or copy all shards
    | ChangeStore           // replace the contents of all shards
    | UseLog                // write to the log's file, ask for its end, rotate or clear it
    | UseSnapshot           // write, load or clear the snapshot file

  datatype Thread = Thread(held: map<nat, Mode>, todo: seq<Instr>, pending: bool)

  /** Where the log's writer is; it holds the I/O lock exactly while writing. */
  datatype Writer =
    | Idle
    | Taken(batch: seq<nat>)
    | Writing(batch: seq<nat>)
    | Completing(batch: seq<nat>)
    | Failing(batch: seq<nat>)
    | FailCompleting(batch: seq<nat>)
    | Stopped

  datatype State = State(threads: seq<Thread>, queue: seq<nat>, writer: Writer, failed: bool)

  // ------------------------------------------------------------ what each operation locks

  datatype Operation =
    | ReadKey(shard: nat)         // Get, Contains
    | WriteKey(shard: nat)        // Set, Delete
    | CountAll                    // Size
    | ReplaceAll                  // Clear, ReplayFromWal
    | SaveSnapshot
    | CompactPersistence
    | ClearPersistence
    | LoadSnapshot
    | BackgroundCheckpoint

  /** Where the store's writes go: no log, the log under its I/O lock, or through the queue to the log's writer. */
  datatype Route = NoLog | Direct | Grouped

  function LockAll(i: nat, mode: Mode): seq<Instr>
    decreases SHARDS - i
  {
    if i >= SHARDS then [] else [Acquire(Shard(i), mode)] + LockAll(i + 1, mode)
  }

  function UnlockAll(i: nat): seq<Instr>
    decreases SHARDS - i
  {
    if i >= SHARDS then [] else [Release(Shard(i))] + UnlockAll(i + 1)
  }

  function Briefly(lock: nat): seq<Instr> {
    [Acquire(lock, Exclusive), Release(lock)]
  }

  /** Work on the log's file under its I/O lock. */
  function UnderIo(): seq<Instr> {
    [Acquire(IO, Exclusive)] + ([Do(UseLog)] + [Release(IO)])
  }

  /** An append: through the queue and the writer with group commit, under the I/O lock otherwise. */
  function AppendToLog(route: Route): seq<Instr> {
    match route
    case NoLog => []
    case Direct => UnderIo()
    case Grouped => [Acquire(QUEUE, Exclusive)] + ([Submit] + ([Release(QUEUE)] + [Await]))
  }

  function LogWork(route: Route): seq<Instr> {
    if route == NoLog then [] else UnderIo()
  }

  /** Every shard in ascending order, the work, every shard back. */
  function WholeStore(work: seq<Instr>): seq<Instr> {
    LockAll(0, Exclusive) + (work + (UnlockAll(0) + [Release(ADMIN)]))
  }

  /** An administrative operation on the snapshot: a pending checkpoint is cancelled first. */
  function OnSnapshot(work: seq<Instr>, last: seq<Instr>): seq<Instr> {
    [Acquire(SNAPSHOT, Exclusive)] + (Briefly(CHECKPOINT) + ([Acquire(ADMIN, Exclusive)]
      + (WholeStore(work) + (last + [Release(SNAPSHOT)]))))
  }

  function Program(op: Operation, route: Route): seq<Instr> {
    match op
    case ReadKey(i) => [Acquire(Shard(i % SHARDS), Shared)] + ([Do(ReadShard(i % SHARDS))] + [Release(Shard(i % SHARDS))])
    case WriteKey(i) =>
      Briefly(CHECKPOINT) + ([Acquire(Shard(i % SHARDS), Exclusive)] + (AppendToLog(route)
        + ([Do(ChangeShard(i % SHARDS))] + (Briefly(CHECKPOINT) + [Release(Shard(i % SHARDS))]))))
    case CountAll => LockAll(0, Shared) + ([Do(ReadStore)] + UnlockAll(0))
    case ReplaceAll => [Acquire(ADMIN, Exclusive)] + WholeStore([Do(ReadStore)] + [Do(ChangeStore)])
    case SaveSnapshot => OnSnapshot(LogWork(route) + ([Do(ReadStore)] + [Do(UseSnapshot)]), [])
    case CompactPersistence => OnSnapshot([Do(ReadStore)] + ([Do(UseSnapshot)] + LogWork(route)), [])
    case ClearPersistence => OnSnapshot(LogWork(route) + [Do(UseSnapshot)], [])
    case LoadSnapshot => OnSnapshot([Do(UseSnapshot)] + [Do(ChangeStore)], [])
    case BackgroundCheckpoint =>
      // The snapshot is written after the shards have been given back.
      Briefly(CHECKPOINT) + (OnSnapshot([Do(ReadStore)] + LogWork(route), [Do(UseSnapshot)]) + Briefly(CHECKPOINT))
  }

  // ------------------------------------------------------------ the lock order

  predicate Below(held: map<nat, Mode>, lock: nat) {
    forall k :: k in held ==> k < lock
  }

  /**
   * The rest of a thread's work takes locks in ascending order, waits for the log only
   * while it holds no lock the writer needs, and ends with nothing held or awaited.
   */
  predicate Ordered(held: map<nat, Mode>, todo: seq<Instr>, pending: bool)
    decreases todo
  {
    if todo == [] then held == map[] && !pending
    else
      match todo[0]
      case Acquire(l, m) => l <= IO && Below(held, l) && Ordered(held[l := m], todo[1..], pending)
      case Release(l) => l in held && Ordered(held - {l}, todo[1..], pending)
      case Submit => QUEUE in held && !pending && Ordered(held, todo[1..], true)
      case Await => Below(held, CHECKPOINT) && Ordered(held, todo[1..], false)
      case Do(_) => Ordered(held, todo[1..], pending)
  }

  /** A request that completes early does no harm. */
  lemma {:induction false} OrderedCompleted(held: map<nat, Mode>, todo: seq<Instr>)
    requires Ordered(held, todo, true)
    ensures Ordered(held, todo, false)
    decreases todo
  {
    if todo != [] {
      match todo[0]
      case Acquire(l, m) => OrderedCompleted(held[l := m], todo[1..]);
      case Release(l) => OrderedCompleted(held - {l}, todo[1..]);
      case Do(_) => OrderedCompleted(held, todo[1..]);
      case _ =>
    }
  }

  predicate InOrder(held: map<nat, Mode>, i: Instr, rest: seq<Instr>, pending: bool) {
    match i
    case Acquire(l, m) => l <= IO && Below(held, l) && Ordered(held[l := m], rest, pending)
    case Release(l) => l in held && Ordered(held - {l}, rest, pending)
    case Submit => QUEUE in held && !pending && Ordered(held, rest, true)
    case Await => Below(held, CHECKPOINT) && Ordered(held, rest, false)
    case Do(_) => Ordered(held, rest, pending)
  }

  lemma OrderedStep(held: map<nat, Mode>, i: Instr, rest: seq<Instr>, pending: bool)
    requires InOrder(held, i, rest, pending)
    ensures Ordered(held, [i] + rest, pending)
  {
    assert ([i] + rest)[1..] == rest;
  }

  lemma OrderedBriefly(held: map<nat, Mode>, lock: nat, rest: seq<Instr>)
    requires lock <= IO && Below(held, lock) && Ordered(held, rest, false)
    ensures Ordered(held, Briefly(lock) + rest, false)
  {
    hide Ordered;
    var inside := held[lock := Exclusive];
    assert inside - {lock} == held;
    OrderedStep(inside, Release(lock), rest, false);
    OrderedStep(held, Acquire(lock, Exclusive), [Release(lock)] + rest, false);
    assert Briefly(lock) + rest == [Acquire(lock, Exclusive)] + ([Release(lock)] + rest);
  }

  /** What is held after taking shards `i` and up. */
  function WithShards(held: map<nat, Mode>, i: nat, mode: Mode): map<nat, Mode> {
    map k: nat | k < Shard(SHARDS) && (k in held || Shard(i) <= k) :: if Shard(i) <= k then mode else held[k]
  }

  lemma {:induction false} OrderedLockAll(held: map<nat, Mode>, i: nat, mode: Mode, rest: seq<Instr>)
    requires i <= SHARDS && Below(held, Shard(i)) && Ordered(WithShards(held, i, mode), rest, false)
    ensures Ordered(held, LockAll(i, mode) + rest, false)
    decreases SHARDS - i
  {
    hide Ordered;
    if i == SHARDS {
      assert WithShards(held, i, mode) == held;
      assert LockAll(i, mode) + rest == rest;
    } else {
      var more := held[Shard(i) := mode];
      assert WithShards(more, i + 1, mode) == WithShards(held, i, mode);
      OrderedLockAll(more, i + 1, mode, rest);
      OrderedStep(held, Acquire(Shard(i), mode), LockAll(i + 1, mode) + rest, false);
      assert LockAll(i, mode) + rest == [Acquire(Shard(i), mode)] + (LockAll(i + 1, mode) + rest);
    }
  }

  lemma {:induction false} OrderedUnlockAll(held: map<nat, Mode>, i: nat, mode: Mode, rest: seq<Instr>)
    requires i <= SHARDS && Below(held, Shard(0)) && Ordered(held, rest, false)
    ensures Ordered(WithShards(held, i, mode), UnlockAll(i) + rest, false)
    decreases SHARDS - i
  {
    hide Ordered;
    if i == SHARDS {
      assert WithShards(held, i, mode) == held;
      assert UnlockAll(i) + rest == rest;
    } else {
      assert WithShards(held, i, mode) - {Shard(i)} == WithShards(held, i + 1, mode);
      OrderedUnlockAll(held, i + 1, mode, rest);
      OrderedStep(WithShards(held, i, mode), Release(Shard(i)), UnlockAll(i + 1) + rest, false);
      assert UnlockAll(i) + rest == [Release(Shard(i))] + (UnlockAll(i + 1) + rest);
    }
  }

  lemma OrderedUnderIo(held: map<nat, Mode>, rest: seq<Instr>)
    requires Below(held, IO) && Ordered(held, rest, false)
    ensures Ordered(held, UnderIo() + rest, false)
  {
    hide Ordered, Below, UnderIo;
    var inside := held[IO := Exclusive];
    TakenAndGiven(held, IO);
    OrderedStep(inside, Release(IO), rest, false);
    OrderedStep(inside, Do(UseLog), [Release(IO)] + rest, false);
    OrderedStep(held, Acquire(IO, Exclusive), [Do(UseLog)] + ([Release(IO)] + rest), false);
    UnderIoThen(rest);
  }

  /** Taking a lock above all others and giving it back leaves what was held. */
  lemma TakenAndGiven(held: map<nat, Mode>, lock: nat)
    requires Below(held, lock)
    ensures held[lock := Exclusive] - {lock} == held
  {
  }

  lemma UnderIoThen(rest: seq<Instr>)
    ensures UnderIo() + rest == [Acquire(IO, Exclusive)] + ([Do(UseLog)] + ([Release(IO)] + rest))
  {
  }

  lemma OrderedLogWork(held: map<nat, Mode>, route: Route, rest: seq<Instr>)
    requires Below(held, IO) && Ordered(held, rest, false)
    ensures Ordered(held, LogWork(route) + rest, false)
  {
    hide Ordered;
    if route == NoLog {
      assert LogWork(route) + rest == rest;
    } else {
      OrderedUnderIo(held, rest);
    }
  }

  /** This work keeps the order, whatever follows, with these locks held. */
  ghost predicate Fits(held: map<nat, Mode>, work: seq<Instr>) {
    forall rest :: Ordered(held, rest, false) ==> Ordered(held, work + rest, false)
  }

  lemma FitsNothing(held: map<nat, Mode>)
    ensures Fits(held, [])
  {
    hide Ordered;
    forall rest | Ordered(held, rest, false)
      ensures Ordered(held, [] + rest, false)
    {
      assert [] + rest == rest;
    }
  }

  lemma FitsTask(held: map<nat, Mode>, task: Task)
    ensures Fits(held, [Do(task)])
  {
    hide Ordered;
    forall rest | Ordered(held, rest, false)
      ensures Ordered(held, [Do(task)] + rest, false)
    {
      OrderedStep(held, Do(task), rest, false);
    }
  }

  lemma FitsLogWork(held: map<nat, Mode>, route: Route)
    requires Below(held, IO)
    ensures Fits(held, LogWork(route))
  {
    hide Ordered, LogWork;
    forall rest | Ordered(held, rest, false)
      ensures Ordered(held, LogWork(route) + rest, false)
    {
      OrderedLogWork(held, route, rest);
    }
  }

  lemma FitsBoth(held: map<nat, Mode>, a: seq<Instr>, b: seq<Instr>)
    requires Fits(held, a) && Fits(held, b)
    ensures Fits(held, a + b)
  {
    hide Ordered;
    forall rest | Ordered(held, rest, false)
      ensures Ordered(held, (a + b) + rest, false)
    {
      assert (a + b) + rest == a + (b + rest);
    }
  }

  /** What is held during work on the whole store. */
  function HoldingAll(held: map<nat, Mode>): map<nat, Mode> {
    WithShards(held[ADMIN := Exclusive], 0, Exclusive)
  }

  /** The part under the admin lock, followed by work that is in order without it. */
  lemma OrderedWholeStore(held: map<nat, Mode>, work: seq<Instr>, rest: seq<Instr>)
    requires Below(held, ADMIN) && Ordered(held, rest, false) && Fits(HoldingAll(held), work)
    ensures Ordered(held, [Acquire(ADMIN, Exclusive)] + (WholeStore(work) + rest), false)
  {
    hide Ordered;
    var inside := held[ADMIN := Exclusive];
    assert inside - {ADMIN} == held;
    OrderedStep(inside, Release(ADMIN), rest, false);
    OrderedUnlockAll(inside, 0, Exclusive, [Release(ADMIN)] + rest);
    var tail := UnlockAll(0) + ([Release(ADMIN)] + rest);
    assert Ordered(HoldingAll(held), work + tail, false);
    OrderedLockAll(inside, 0, Exclusive, work + tail);
    OrderedStep(held, Acquire(ADMIN, Exclusive), LockAll(0, Exclusive) + (work + tail), false);
    Regroup(LockAll(0, Exclusive), work, UnlockAll(0), [Release(ADMIN)], rest);
  }

  lemma Regroup(a: seq<Instr>, b: seq<Instr>, c: seq<Instr>, d: seq<Instr>, e: seq<Instr>)
    ensures (a + (b + (c + d))) + e == a + (b + (c + (d + e)))
  {
  }

  lemma OrderedAppend(held: map<nat, Mode>, route: Route, rest: seq<Instr>)
    requires Below(held, CHECKPOINT) && Ordered(held, rest, false)
    ensures Ordered(held, AppendToLog(route) + rest, false)
  {
    hide Ordered, UnderIo;
    match route
    case NoLog => assert [] + rest == rest;
    case Direct => OrderedUnderIo(held, rest);
    case Grouped => OrderedGrouped(held, rest);
  }

  lemma OrderedGrouped(held: map<nat, Mode>, rest: seq<Instr>)
    requires Below(held, CHECKPOINT) && Ordered(held, rest, false)
    ensures Ordered(held, AppendToLog(Grouped) + rest, false)
  {
    hide Ordered, AppendToLog;
    var queued := held[QUEUE := Exclusive];
    TakenAndGiven(held, QUEUE);
    OrderedStep(held, Await, rest, true);
    OrderedStep(queued, Release(QUEUE), [Await] + rest, true);
    OrderedStep(queued, Submit, [Release(QUEUE)] + ([Await] + rest), false);
    OrderedStep(held, Acquire(QUEUE, Exclusive), [Submit] + ([Release(QUEUE)] + ([Await] + rest)), false);
    GroupedThen(rest);
  }

  lemma GroupedThen(rest: seq<Instr>)
    ensures AppendToLog(Grouped) + rest
            == [Acquire(QUEUE, Exclusive)] + ([Submit] + ([Release(QUEUE)] + ([Await] + rest)))
  {
  }

  lemma OrderedWrite(shard: nat, route: Route)
    requires shard < SHARDS
    ensures Ordered(map[], Program(WriteKey(shard), route), false)
  {
    hide Ordered, AppendToLog;
    var l := Shard(shard);
    var held := map[l := Exclusive];
    assert held - {l} == map[];
    OrderedEnd();
    OrderedStep(held, Release(l), [], false);
    assert [Release(l)] + [] == [Release(l)];
    OrderedBriefly(held, CHECKPOINT, [Release(l)]);
    var rest := Briefly(CHECKPOINT) + [Release(l)];
    OrderedStep(held, Do(ChangeShard(shard)), rest, false);
    var change := [Do(ChangeShard(shard))] + rest;
    OrderedAppend(held, route, change);
    OrderedStep(map[], Acquire(l, Exclusive), AppendToLog(route) + change, false);
    OrderedBriefly(map[], CHECKPOINT, [Acquire(l, Exclusive)] + (AppendToLog(route) + change));
  }

  lemma OrderedEnd()
    ensures Ordered(map[], [], false)
  {
  }

  lemma OrderedRead(shard: nat)
    requires shard < SHARDS
    ensures Ordered(map[], [Acquire(Shard(shard), Shared)] + ([Do(ReadShard(shard))] + [Release(Shard(shard))]), false)
  {
    hide Ordered;
    var l := Shard(shard);
    var held := map[l := Shared];
    assert held - {l} == map[];
    OrderedEnd();
    OrderedStep(held, Release(l), [], false);
    assert [Release(l)] + [] == [Release(l)];
    OrderedStep(held, Do(ReadShard(shard)), [Release(l)], false);
    OrderedStep(map[], Acquire(l, Shared), [Do(ReadShard(shard))] + [Release(l)], false);
  }

  lemma OrderedOnSnapshot(work: seq<Instr>, last: seq<Instr>, rest: seq<Instr>)
    requires Ordered(map[], rest, false)
    requires Fits(HoldingAll(map[SNAPSHOT := Exclusive]), work) && Fits(map[SNAPSHOT := Exclusive], last)
    ensures Ordered(map[], OnSnapshot(work, last) + rest, false)
  {
    hide Ordered, WholeStore, HoldingAll, Fits;
    var held := map[SNAPSHOT := Exclusive];
    assert held - {SNAPSHOT} == map[];
    OrderedStep(held, Release(SNAPSHOT), rest, false);
    var tail := last + ([Release(SNAPSHOT)] + rest);
    Fitted(held, last, [Release(SNAPSHOT)] + rest);
    OrderedWholeStore(held, work, tail);
    var inner := [Acquire(ADMIN, Exclusive)] + (WholeStore(work) + tail);
    OrderedBriefly(held, CHECKPOINT, inner);
    OrderedStep(map[], Acquire(SNAPSHOT, Exclusive), Briefly(CHECKPOINT) + inner, false);
    RegroupSnapshot([Acquire(SNAPSHOT, Exclusive)], Briefly(CHECKPOINT), [Acquire(ADMIN, Exclusive)], WholeStore(work),
                    last, [Release(SNAPSHOT)], rest);
  }

  lemma Fitted(held: map<nat, Mode>, work: seq<Instr>, rest: seq<Instr>)
    requires Fits(held, work) && Ordered(held, rest, false)
    ensures Ordered(held, work + rest, false)
  {
    hide Ordered;
  }

  lemma RegroupSnapshot(a: seq<Instr>, b: seq<Instr>, c: seq<Instr>, d: seq<Instr>, e: seq<Instr>, f: seq<Instr>,
                        g: seq<Instr>)
    ensures (a + (b + (c + (d + (e + f))))) + g == a + (b + (c + (d + (e + (f + g)))))
  {
    assert (d + (e + f)) + g == d + (e + (f + g));
    assert (c + (d + (e + f))) + g == c + ((d + (e + f)) + g);
    assert (b + (c + (d + (e + f)))) + g == b + ((c + (d + (e + f))) + g);
  }

  /** The work that each operation on the snapshot does with every lock held keeps the order. */
  lemma WorkFits(route: Route)
    ensures var all := HoldingAll(map[SNAPSHOT := Exclusive]);
            && Fits(all, LogWork(route) + ([Do(ReadStore)] + [Do(UseSnapshot)]))
            && Fits(all, [Do(ReadStore)] + ([Do(UseSnapshot)] + LogWork(route)))
            && Fits(all, LogWork(route) + [Do(UseSnapshot)])
            && Fits(all, [Do(UseSnapshot)] + [Do(ChangeStore)])
            && Fits(all, [Do(ReadStore)] + LogWork(route))
  {
    hide Fits, LogWork;
    var all := HoldingAll(map[SNAPSHOT := Exclusive]);
    FitsLogWork(all, route);
    FitsTask(all, ReadStore);
    FitsTask(all, UseSnapshot);
    FitsTask(all, ChangeStore);
    FitsBoth(all, [Do(ReadStore)], [Do(UseSnapshot)]);
    FitsBoth(all, LogWork(route), [Do(ReadStore)] + [Do(UseSnapshot)]);
    FitsBoth(all, [Do(UseSnapshot)], LogWork(route));
    FitsBoth(all, [Do(ReadStore)], [Do(UseSnapshot)] + LogWork(route));
    FitsBoth(all, LogWork(route), [Do(UseSnapshot)]);
    FitsBoth(all, [Do(UseSnapshot)], [Do(ChangeStore)]);
    FitsBoth(all, [Do(ReadStore)], LogWork(route));
  }

  /** Every operation of the store keeps the lock order. */
  lemma OperationsAreOrdered(op: Operation, route: Route)
    ensures Ordered(map[], Program(op, route), false)
  {
    hide Ordered, WholeStore, OnSnapshot, Fits, HoldingAll, LogWork;
    OrderedEnd();
    WorkFits(route);
    match op
    case ReadKey(i) => OrderedRead(i % SHARDS);
    case WriteKey(i) => OrderedWrite(i % SHARDS, route);
    case CountAll => OrderedCount();
    case ReplaceAll =>
      FitsTask(HoldingAll(map[]), ReadStore);
      FitsTask(HoldingAll(map[]), ChangeStore);
      FitsBoth(HoldingAll(map[]), [Do(ReadStore)], [Do(ChangeStore)]);
      var work := [Do(ReadStore)] + [Do(ChangeStore)];
      OrderedWholeStore(map[], work, []);
      assert WholeStore(work) + [] == WholeStore(work);
    case SaveSnapshot => OrderedAdmin(LogWork(route) + ([Do(ReadStore)] + [Do(UseSnapshot)]));
    case CompactPersistence => OrderedAdmin([Do(ReadStore)] + ([Do(UseSnapshot)] + LogWork(route)));
    case ClearPersistence => OrderedAdmin(LogWork(route) + [Do(UseSnapshot)]);
    case LoadSnapshot => OrderedAdmin([Do(UseSnapshot)] + [Do(ChangeStore)]);
    case BackgroundCheckpoint => OrderedCheckpoint(route);
  }

  lemma OrderedCount()
    ensures Ordered(map[], LockAll(0, Shared) + ([Do(ReadStore)] + UnlockAll(0)), false)
  {
    hide Ordered;
    OrderedEnd();
    OrderedUnlockAll(map[], 0, Shared, []);
    assert UnlockAll(0) + [] == UnlockAll(0);
    OrderedStep(WithShards(map[], 0, Shared), Do(ReadStore), UnlockAll(0), false);
    OrderedLockAll(map[], 0, Shared, [Do(ReadStore)] + UnlockAll(0));
  }

  lemma OrderedAdmin(work: seq<Instr>)
    requires Fits(HoldingAll(map[SNAPSHOT := Exclusive]), work)
    ensures Ordered(map[], OnSnapshot(work, []), false)
  {
    hide Ordered, OnSnapshot, Fits, HoldingAll, LogWork;
    FitsNothing(map[SNAPSHOT := Exclusive]);
    OrderedEnd();
    OrderedOnSnapshot(work, [], []);
    assert OnSnapshot(work, []) + [] == OnSnapshot(work, []);
  }

  lemma OrderedCheckpoint(route: Route)
    ensures Ordered(map[], Program(BackgroundCheckpoint, route), false)
  {
    hide Ordered, OnSnapshot, Fits, HoldingAll, LogWork;
    OrderedEnd();
    OrderedBriefly(map[], CHECKPOINT, []);
    assert Briefly(CHECKPOINT) + [] == Briefly(CHECKPOINT);
    WorkFits(route);
    FitsTask(map[SNAPSHOT := Exclusive], UseSnapshot);
    var work := [Do(ReadStore)] + LogWork(route);
    OrderedOnSnapshot(work, [Do(UseSnapshot)], Briefly(CHECKPOINT));
    OrderedBriefly(map[], CHECKPOINT, OnSnapshot(work, [Do(UseSnapshot)]) + Briefly(CHECKPOINT));
  }
}
