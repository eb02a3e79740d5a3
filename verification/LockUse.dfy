/**
 * What the locks are for: which of them an operation holds at each point of its work, in
 * every state of every run, and what can therefore never happen at the same time.
 */
module LockUse {
  import opened Deadlock
  import opened LockProgress

  // ------------------------------------------------------------ what must be held

  predicate IsShard(lock: nat) { Shard(0) <= lock < Shard(SHARDS) }

  function AllShards(mode: Mode): map<nat, Mode> {
    map l: nat | l < Shard(SHARDS) && IsShard(l) :: mode
  }

  /** The locks of work on the whole store, and of work on the snapshot as well. */
  function StoreLocks(): map<nat, Mode> { AllShards(Exclusive)[ADMIN := Exclusive] }

  function SnapshotLocks(): map<nat, Mode> { StoreLocks()[SNAPSHOT := Exclusive] }

  /** The thread is at its work, waits for the log, or is about to turn to the log's file. */
  predicate Working(i: Instr) {
    i.Do? || i.Submit? || i.Await? || i == Acquire(IO, Exclusive)
  }

  /**
   * What an operation must hold at its work. A write holds its shard from before the log
   * until memory has changed; a checkpoint writes its file with the snapshot lock alone.
   */
  function Needs(op: Operation, i: Instr): map<nat, Mode> {
    if !Working(i) then map[]
    else
      match op
      case ReadKey(k) => map[Shard(k % SHARDS) := Shared]
      case WriteKey(k) => map[Shard(k % SHARDS) := Exclusive]
      case CountAll => AllShards(Shared)
      case ReplaceAll => StoreLocks()
      case BackgroundCheckpoint => if i == Do(UseSnapshot) then map[SNAPSHOT := Exclusive] else SnapshotLocks()
      case _ => SnapshotLocks()
  }

  /** What each task needs, whoever performs it. */
  function Protects(i: Instr): map<nat, Mode> {
    match i
    case Do(ReadShard(k)) => map[Shard(k) := Shared]
    case Do(ChangeShard(k)) => map[Shard(k) := Exclusive]
    case Do(ReadStore) => AllShards(Shared)
    case Do(ChangeStore) => StoreLocks()
    case Do(UseLog) => map[IO := Exclusive]
    case Do(UseSnapshot) => map[SNAPSHOT := Exclusive]
    case Submit => map[QUEUE := Exclusive]
    case _ => map[]
  }

  /** Everything needed is held, exclusively where that is needed. */
  predicate Grants(held: map<nat, Mode>, needs: map<nat, Mode>) {
    forall l :: l in needs ==> l in held && (needs[l] == Exclusive ==> held[l] == Exclusive)
  }

  function HeldAfter(held: map<nat, Mode>, i: Instr): map<nat, Mode> {
    match i
    case Acquire(l, m) => held[l := m]
    case Release(l) => held - {l}
    case _ => held
  }

  /** The rest of the work holds what it needs at every point. */
  predicate Guarded(op: Operation, held: map<nat, Mode>, todo: seq<Instr>)
    decreases todo
  {
    todo == []
    || (&& Grants(held, Needs(op, todo[0])) && Grants(held, Protects(todo[0]))
        && Guarded(op, HeldAfter(held, todo[0]), todo[1..]))
  }

  function HeldAll(held: map<nat, Mode>, todo: seq<Instr>): map<nat, Mode>
    decreases todo
  {
    if todo == [] then held else HeldAll(HeldAfter(held, todo[0]), todo[1..])
  }

  // ------------------------------------------------------------ putting pieces together

  lemma {:induction false} Both(op: Operation, held: map<nat, Mode>, a: seq<Instr>, b: seq<Instr>)
    requires Guarded(op, held, a) && Guarded(op, HeldAll(held, a), b)
    ensures Guarded(op, held, a + b) && HeldAll(held, a + b) == HeldAll(HeldAll(held, a), b)
    decreases a
  {
    hide Grants, Needs, Protects, HeldAfter;
    if a == [] {
      assert a + b == b;
    } else {
      assert (a + b)[0] == a[0] && (a + b)[1..] == a[1..] + b;
      Both(op, HeldAfter(held, a[0]), a[1..], b);
    }
  }

  lemma One(op: Operation, held: map<nat, Mode>, i: Instr)
    requires Grants(held, Needs(op, i)) && Grants(held, Protects(i))
    ensures Guarded(op, held, [i]) && HeldAll(held, [i]) == HeldAfter(held, i)
  {
    hide Grants, Needs, Protects, HeldAfter;
    assert [i][1..] == [];
    var after := HeldAfter(held, i);
    assert Guarded(op, after, []) && HeldAll(after, []) == after;
  }

  /** A lock that is not the log's, or an unlocking, needs nothing. */
  lemma Free1(op: Operation, held: map<nat, Mode>, i: Instr)
    requires i.Release? || (i.Acquire? && i.lock != IO)
    ensures Guarded(op, held, [i]) && HeldAll(held, [i]) == HeldAfter(held, i)
  {
    hide HeldAfter;
    One(op, held, i);
  }

  lemma Brief(op: Operation, held: map<nat, Mode>, lock: nat)
    requires lock !in held && lock != IO
    ensures Guarded(op, held, Briefly(lock)) && HeldAll(held, Briefly(lock)) == held
  {
    hide Guarded, HeldAll;
    var inside := held[lock := Exclusive];
    Free1(op, held, Acquire(lock, Exclusive));
    Free1(op, inside, Release(lock));
    assert inside - {lock} == held;
    Both(op, held, [Acquire(lock, Exclusive)], [Release(lock)]);
    assert Briefly(lock) == [Acquire(lock, Exclusive)] + [Release(lock)];
  }

  lemma {:induction false} Lock(op: Operation, held: map<nat, Mode>, i: nat, mode: Mode)
    requires i <= SHARDS && Below(held, Shard(i))
    ensures Guarded(op, held, LockAll(i, mode)) && HeldAll(held, LockAll(i, mode)) == WithShards(held, i, mode)
    decreases SHARDS - i
  {
    hide Guarded, HeldAll;
    if i == SHARDS {
      assert WithShards(held, i, mode) == held;
      Nothing(op, held);
    } else {
      var more := held[Shard(i) := mode];
      Free1(op, held, Acquire(Shard(i), mode));
      Lock(op, more, i + 1, mode);
      assert WithShards(more, i + 1, mode) == WithShards(held, i, mode);
      Both(op, held, [Acquire(Shard(i), mode)], LockAll(i + 1, mode));
    }
  }

  lemma {:induction false} Unlock(op: Operation, held: map<nat, Mode>, i: nat, mode: Mode)
    requires i <= SHARDS && Below(held, Shard(0))
    ensures Guarded(op, WithShards(held, i, mode), UnlockAll(i)) && HeldAll(WithShards(held, i, mode), UnlockAll(i)) == held
    decreases SHARDS - i
  {
    hide Guarded, HeldAll;
    if i == SHARDS {
      assert WithShards(held, i, mode) == held;
      Nothing(op, held);
    } else {
      var all := WithShards(held, i, mode);
      assert all - {Shard(i)} == WithShards(held, i + 1, mode);
      Free1(op, all, Release(Shard(i)));
      Unlock(op, held, i + 1, mode);
      Both(op, all, [Release(Shard(i))], UnlockAll(i + 1));
    }
  }

  lemma Nothing(op: Operation, held: map<nat, Mode>)
    ensures Guarded(op, held, []) && HeldAll(held, []) == held
  {
  }

  /** Work that leaves the locks as they are. */
  ghost predicate Inside(op: Operation, held: map<nat, Mode>, work: seq<Instr>) {
    Guarded(op, held, work) && HeldAll(held, work) == held
  }

  lemma InsideBoth(op: Operation, held: map<nat, Mode>, a: seq<Instr>, b: seq<Instr>)
    requires Inside(op, held, a) && Inside(op, held, b)
    ensures Inside(op, held, a + b)
  {
    hide Guarded, HeldAll;
    Both(op, held, a, b);
  }

  lemma InsideTask(op: Operation, held: map<nat, Mode>, task: Task)
    requires Grants(held, Needs(op, Do(task))) && Grants(held, Protects(Do(task)))
    ensures Inside(op, held, [Do(task)])
  {
    hide Guarded, HeldAll, Grants, Needs, Protects;
    One(op, held, Do(task));
  }

  lemma InsideIo(op: Operation, held: map<nat, Mode>)
    requires IO !in held && Grants(held, Needs(op, Do(UseLog))) && Grants(held, Needs(op, Acquire(IO, Exclusive)))
    ensures Inside(op, held, UnderIo())
  {
    hide Guarded, HeldAll, Needs;
    var inside := held[IO := Exclusive];
    assert inside - {IO} == held;
    One(op, held, Acquire(IO, Exclusive));
    One(op, inside, Do(UseLog));
    Free1(op, inside, Release(IO));
    Both(op, inside, [Do(UseLog)], [Release(IO)]);
    Both(op, held, [Acquire(IO, Exclusive)], [Do(UseLog)] + [Release(IO)]);
  }

  lemma InsideLogWork(op: Operation, held: map<nat, Mode>, route: Route)
    requires IO !in held && Grants(held, Needs(op, Do(UseLog))) && Grants(held, Needs(op, Acquire(IO, Exclusive)))
    ensures Inside(op, held, LogWork(route))
  {
    hide Guarded, HeldAll, Needs, Grants;
    if route == NoLog { Nothing(op, held); } else { InsideIo(op, held); }
  }

  lemma InsideAppend(k: nat, held: map<nat, Mode>, route: Route)
    requires held == map[Shard(k % SHARDS) := Exclusive]
    ensures Inside(WriteKey(k), held, AppendToLog(route))
  {
    hide Guarded, HeldAll;
    var op := WriteKey(k);
    match route
    case NoLog => Nothing(op, held);
    case Direct => InsideIo(op, held);
    case Grouped =>
      var queued := held[QUEUE := Exclusive];
      assert queued - {QUEUE} == held;
      Free1(op, held, Acquire(QUEUE, Exclusive));
      One(op, queued, Submit);
      Free1(op, queued, Release(QUEUE));
      One(op, held, Await);
      Both(op, queued, [Release(QUEUE)], [Await]);
      Both(op, queued, [Submit], [Release(QUEUE)] + [Await]);
      Both(op, held, [Acquire(QUEUE, Exclusive)], [Submit] + ([Release(QUEUE)] + [Await]));
  }

  // ------------------------------------------------------------ the operations

  lemma GuardedRead(k: nat, route: Route)
    ensures Guarded(ReadKey(k), map[], Program(ReadKey(k), route))
  {
    hide Guarded, HeldAll;
    var op, l := ReadKey(k), Shard(k % SHARDS);
    var held := map[l := Shared];
    Free1(op, map[], Acquire(l, Shared));
    assert map[][l := Shared] == held;
    InsideTask(op, held, ReadShard(k % SHARDS));
    Free1(op, held, Release(l));
    Both(op, held, [Do(ReadShard(k % SHARDS))], [Release(l)]);
    Both(op, map[], [Acquire(l, Shared)], [Do(ReadShard(k % SHARDS))] + [Release(l)]);
  }

  lemma GuardedWrite(k: nat, route: Route)
    ensures Guarded(WriteKey(k), map[], Program(WriteKey(k), route))
  {
    hide Guarded, HeldAll, AppendToLog, Briefly;
    var op, l := WriteKey(k), Shard(k % SHARDS);
    var held := map[l := Exclusive];
    var change := [Do(ChangeShard(k % SHARDS))];
    Free1(op, map[], Acquire(l, Exclusive));
    assert map[][l := Exclusive] == held;
    InsideAppend(k, held, route);
    InsideTask(op, held, ChangeShard(k % SHARDS));
    Brief(op, held, CHECKPOINT);
    Free1(op, held, Release(l));
    Both(op, held, Briefly(CHECKPOINT), [Release(l)]);
    Both(op, held, change, Briefly(CHECKPOINT) + [Release(l)]);
    Both(op, held, AppendToLog(route), change + (Briefly(CHECKPOINT) + [Release(l)]));
    Both(op, map[], [Acquire(l, Exclusive)], AppendToLog(route) + (change + (Briefly(CHECKPOINT) + [Release(l)])));
    Brief(op, map[], CHECKPOINT);
    Both(op, map[], Briefly(CHECKPOINT),
         [Acquire(l, Exclusive)] + (AppendToLog(route) + (change + (Briefly(CHECKPOINT) + [Release(l)]))));
  }

  lemma GuardedCount(route: Route)
    ensures Guarded(CountAll, map[], Program(CountAll, route))
  {
    hide Guarded, HeldAll, LockAll, UnlockAll;
    var all := WithShards(map[], 0, Shared);
    Lock(CountAll, map[], 0, Shared);
    InsideTask(CountAll, all, ReadStore);
    Unlock(CountAll, map[], 0, Shared);
    Both(CountAll, all, [Do(ReadStore)], UnlockAll(0));
    Both(CountAll, map[], LockAll(0, Shared), [Do(ReadStore)] + UnlockAll(0));
  }

  /** From the admin lock to its release. */
  lemma GuardedStore(op: Operation, held: map<nat, Mode>, work: seq<Instr>)
    requires Below(held, ADMIN) && Inside(op, HoldingAll(held), work)
    ensures Inside(op, held, [Acquire(ADMIN, Exclusive)] + WholeStore(work))
  {
    hide Guarded, HeldAll, LockAll, UnlockAll;
    var inside := held[ADMIN := Exclusive];
    assert inside - {ADMIN} == held;
    var all := HoldingAll(held);
    Free1(op, held, Acquire(ADMIN, Exclusive));
    Lock(op, inside, 0, Exclusive);
    Unlock(op, inside, 0, Exclusive);
    Free1(op, inside, Release(ADMIN));
    Both(op, all, UnlockAll(0), [Release(ADMIN)]);
    Both(op, all, work, UnlockAll(0) + [Release(ADMIN)]);
    Both(op, inside, LockAll(0, Exclusive), work + (UnlockAll(0) + [Release(ADMIN)]));
    Both(op, held, [Acquire(ADMIN, Exclusive)], WholeStore(work));
  }

  lemma GuardedOnSnapshot(op: Operation, work: seq<Instr>, last: seq<Instr>)
    requires Inside(op, HoldingAll(map[SNAPSHOT := Exclusive]), work) && Inside(op, map[SNAPSHOT := Exclusive], last)
    ensures Inside(op, map[], OnSnapshot(work, last))
  {
    hide Guarded, HeldAll, WholeStore, HoldingAll, Briefly;
    var held := map[SNAPSHOT := Exclusive];
    assert held - {SNAPSHOT} == map[] && map[][SNAPSHOT := Exclusive] == held;
    Free1(op, map[], Acquire(SNAPSHOT, Exclusive));
    Brief(op, held, CHECKPOINT);
    GuardedStore(op, held, work);
    Free1(op, held, Release(SNAPSHOT));
    Both(op, held, last, [Release(SNAPSHOT)]);
    var store := [Acquire(ADMIN, Exclusive)] + WholeStore(work);
    Both(op, held, store, last + [Release(SNAPSHOT)]);
    Both(op, held, Briefly(CHECKPOINT), store + (last + [Release(SNAPSHOT)]));
    Both(op, map[], [Acquire(SNAPSHOT, Exclusive)], Briefly(CHECKPOINT) + (store + (last + [Release(SNAPSHOT)])));
    assert store + (last + [Release(SNAPSHOT)])
        == [Acquire(ADMIN, Exclusive)] + (WholeStore(work) + (last + [Release(SNAPSHOT)]));
  }

  predicate OnSnapshotFile(op: Operation) {
    op.SaveSnapshot? || op.CompactPersistence? || op.ClearPersistence? || op.LoadSnapshot?
  }

  /** With every lock held, every task may be done. */
  lemma AllGranted(op: Operation, i: Instr)
    requires OnSnapshotFile(op) || op.BackgroundCheckpoint?
    ensures var all := HoldingAll(map[SNAPSHOT := Exclusive]);
            Grants(all, Needs(op, i)) && IO !in all && Grants(all, SnapshotLocks())
  {
  }

  lemma InsideTasks(op: Operation, route: Route)
    requires OnSnapshotFile(op) || op.BackgroundCheckpoint?
    ensures var all := HoldingAll(map[SNAPSHOT := Exclusive]);
            && Inside(op, all, [Do(ReadStore)]) && Inside(op, all, [Do(ChangeStore)]) && Inside(op, all, [Do(UseSnapshot)])
            && Inside(op, all, LogWork(route))
  {
    hide Guarded, HeldAll, HoldingAll, Needs, LogWork, Inside, Grants;
    var all := HoldingAll(map[SNAPSHOT := Exclusive]);
    AllowedTask(op, ReadStore);
    AllowedTask(op, ChangeStore);
    AllowedTask(op, UseSnapshot);
    AllGranted(op, Do(UseLog));
    AllGranted(op, Acquire(IO, Exclusive));
    InsideLogWork(op, all, route);
  }

  lemma AllowedTask(op: Operation, task: Task)
    requires (OnSnapshotFile(op) || op.BackgroundCheckpoint?) && (task.ReadStore? || task.ChangeStore? || task.UseSnapshot?)
    ensures Inside(op, HoldingAll(map[SNAPSHOT := Exclusive]), [Do(task)])
  {
    hide Guarded, HeldAll, HoldingAll, Needs, Inside;
    AllGranted(op, Do(task));
    InsideTask(op, HoldingAll(map[SNAPSHOT := Exclusive]), task);
  }

  lemma GuardedAdmin(op: Operation, route: Route)
    requires OnSnapshotFile(op)
    ensures Guarded(op, map[], Program(op, route))
  {
    hide Guarded, HeldAll, HoldingAll, LogWork, Inside, OnSnapshot;
    var all := HoldingAll(map[SNAPSHOT := Exclusive]);
    InsideTasks(op, route);
    InsideNothing(op, map[SNAPSHOT := Exclusive]);
    var read, file, change, log := [Do(ReadStore)], [Do(UseSnapshot)], [Do(ChangeStore)], LogWork(route);
    InsideBoth(op, all, read, file);
    InsideBoth(op, all, log, read + file);
    InsideBoth(op, all, file, log);
    InsideBoth(op, all, read, file + log);
    InsideBoth(op, all, log, file);
    InsideBoth(op, all, file, change);
    match op
    case SaveSnapshot => GuardedOnSnapshot(op, log + (read + file), []);
      InsideGuarded(op, map[], OnSnapshot(log + (read + file), []));
    case CompactPersistence => GuardedOnSnapshot(op, read + (file + log), []);
      InsideGuarded(op, map[], OnSnapshot(read + (file + log), []));
    case ClearPersistence => GuardedOnSnapshot(op, log + file, []);
      InsideGuarded(op, map[], OnSnapshot(log + file, []));
    case LoadSnapshot => GuardedOnSnapshot(op, file + change, []);
      InsideGuarded(op, map[], OnSnapshot(file + change, []));
  }

  lemma InsideNothing(op: Operation, held: map<nat, Mode>)
    ensures Inside(op, held, [])
  {
  }

  lemma InsideGuarded(op: Operation, held: map<nat, Mode>, work: seq<Instr>)
    requires Inside(op, held, work)
    ensures Guarded(op, held, work) && HeldAll(held, work) == held
  {
  }

  lemma GuardedCheckpoint(route: Route)
    ensures Guarded(BackgroundCheckpoint, map[], Program(BackgroundCheckpoint, route))
  {
    hide Guarded, HeldAll, HoldingAll, LogWork, OnSnapshot, Briefly;
    var op, held := BackgroundCheckpoint, map[SNAPSHOT := Exclusive];
    InsideTasks(op, route);
    InsideBoth(op, HoldingAll(held), [Do(ReadStore)], LogWork(route));
    InsideTask(op, held, UseSnapshot);
    var middle := OnSnapshot([Do(ReadStore)] + LogWork(route), [Do(UseSnapshot)]);
    GuardedOnSnapshot(op, [Do(ReadStore)] + LogWork(route), [Do(UseSnapshot)]);
    Brief(op, map[], CHECKPOINT);
    Both(op, map[], middle, Briefly(CHECKPOINT));
    Both(op, map[], Briefly(CHECKPOINT), middle + Briefly(CHECKPOINT));
  }

  lemma GuardedReplace(route: Route)
    ensures Guarded(ReplaceAll, map[], Program(ReplaceAll, route))
  {
    hide Guarded, HeldAll, WholeStore;
    var all := HoldingAll(map[]);
    InsideTask(ReplaceAll, all, ReadStore);
    InsideTask(ReplaceAll, all, ChangeStore);
    InsideBoth(ReplaceAll, all, [Do(ReadStore)], [Do(ChangeStore)]);
    GuardedStore(ReplaceAll, map[], [Do(ReadStore)] + [Do(ChangeStore)]);
  }

  /** Every operation holds what it needs at every point of its work. */
  lemma OperationsAreGuarded(op: Operation, route: Route)
    ensures Guarded(op, map[], Program(op, route))
  {
    hide Guarded, Program;
    match op
    case ReadKey(k) => GuardedRead(k, route);
    case WriteKey(k) => GuardedWrite(k, route);
    case CountAll => GuardedCount(route);
    case ReplaceAll => GuardedReplace(route);
    case BackgroundCheckpoint => GuardedCheckpoint(route);
    case _ => GuardedAdmin(op, route);
  }

  // ------------------------------------------------------------ every operation does its work

  /** What a program does besides locking: tasks, and the wait for the log. */
  function Acts(todo: seq<Instr>): seq<Instr>
    decreases todo
  {
    if todo == [] then []
    else if todo[0].Do? || todo[0].Submit? || todo[0].Await? then [todo[0]] + Acts(todo[1..])
    else Acts(todo[1..])
  }

  lemma {:induction false} ActsBoth(a: seq<Instr>, b: seq<Instr>)
    ensures Acts(a + b) == Acts(a) + Acts(b)
    decreases a
  {
    if a == [] {
      assert a + b == b;
    } else {
      assert (a + b)[0] == a[0] && (a + b)[1..] == a[1..] + b;
      ActsBoth(a[1..], b);
      assert ([a[0]] + Acts(a[1..])) + Acts(b) == [a[0]] + (Acts(a[1..]) + Acts(b));
    }
  }

  lemma {:induction false} ActsLock(i: nat, mode: Mode)
    ensures Acts(LockAll(i, mode)) == [] && Acts(UnlockAll(i)) == []
    decreases SHARDS - i
  {
    if i < SHARDS {
      ActsLock(i + 1, mode);
      ActsBoth([Acquire(Shard(i), mode)], LockAll(i + 1, mode));
      ActsBoth([Release(Shard(i))], UnlockAll(i + 1));
    }
  }

  lemma ActsOne(i: Instr)
    ensures Acts([i]) == if i.Do? || i.Submit? || i.Await? then [i] else []
  {
    assert [i][1..] == [];
  }

  function LogActs(route: Route): seq<Instr> { if route == NoLog then [] else [Do(UseLog)] }

  /** The log comes before memory for a write, the snapshot before the log's end for a compaction, after it for a save. */
  function Duty(op: Operation, route: Route): seq<Instr> {
    match op
    case ReadKey(k) => [Do(ReadShard(k % SHARDS))]
    case WriteKey(k) => (if route == Grouped then [Submit, Await] else LogActs(route)) + [Do(ChangeShard(k % SHARDS))]
    case CountAll => [Do(ReadStore)]
    case ReplaceAll => [Do(ReadStore), Do(ChangeStore)]
    case SaveSnapshot => LogActs(route) + [Do(ReadStore), Do(UseSnapshot)]
    case CompactPersistence => [Do(ReadStore), Do(UseSnapshot)] + LogActs(route)
    case ClearPersistence => LogActs(route) + [Do(UseSnapshot)]
    case LoadSnapshot => [Do(UseSnapshot), Do(ChangeStore)]
    case BackgroundCheckpoint => [Do(ReadStore)] + LogActs(route) + [Do(UseSnapshot)]
  }

  lemma ActsUnderIo()
    ensures Acts(UnderIo()) == [Do(UseLog)]
  {
    ActsOne(Acquire(IO, Exclusive));
    ActsOne(Do(UseLog));
    ActsOne(Release(IO));
    ActsBoth([Do(UseLog)], [Release(IO)]);
    ActsBoth([Acquire(IO, Exclusive)], [Do(UseLog)] + [Release(IO)]);
  }

  lemma ActsLogWork(route: Route)
    ensures Acts(LogWork(route)) == LogActs(route)
  {
    ActsUnderIo();
  }

  lemma ActsBrief(lock: nat)
    ensures Acts(Briefly(lock)) == []
  {
    ActsOne(Acquire(lock, Exclusive));
    ActsOne(Release(lock));
    ActsBoth([Acquire(lock, Exclusive)], [Release(lock)]);
    assert Briefly(lock) == [Acquire(lock, Exclusive)] + [Release(lock)];
  }

  lemma ActsAppend(route: Route)
    ensures Acts(AppendToLog(route)) == if route == Grouped then [Submit, Await] else LogActs(route)
  {
    hide Acts;
    NoActs();
    ActsUnderIo();
    if route == Grouped {
      ActsOne(Acquire(QUEUE, Exclusive));
      ActsOne(Submit);
      ActsOne(Release(QUEUE));
      ActsOne(Await);
      ActsBoth([Release(QUEUE)], [Await]);
      ActsBoth([Submit], [Release(QUEUE)] + [Await]);
      ActsBoth([Acquire(QUEUE, Exclusive)], [Submit] + ([Release(QUEUE)] + [Await]));
    }
  }

  lemma NoActs()
    ensures Acts([]) == []
  {
  }

  lemma ActsStore(work: seq<Instr>)
    ensures Acts([Acquire(ADMIN, Exclusive)] + WholeStore(work)) == Acts(work)
  {
    hide Acts, LockAll, UnlockAll;
    ActsLock(0, Exclusive);
    ActsOne(Acquire(ADMIN, Exclusive));
    ActsOne(Release(ADMIN));
    ActsBoth(UnlockAll(0), [Release(ADMIN)]);
    ActsBoth(work, UnlockAll(0) + [Release(ADMIN)]);
    ActsBoth(LockAll(0, Exclusive), work + (UnlockAll(0) + [Release(ADMIN)]));
    ActsBoth([Acquire(ADMIN, Exclusive)], WholeStore(work));
    assert Acts(work) + [] == Acts(work);
  }

  lemma ActsOnSnapshot(work: seq<Instr>, last: seq<Instr>)
    ensures Acts(OnSnapshot(work, last)) == Acts(work) + Acts(last)
  {
    hide Acts, WholeStore, Briefly;
    ActsStore(work);
    ActsBrief(CHECKPOINT);
    ActsOne(Acquire(SNAPSHOT, Exclusive));
    ActsOne(Release(SNAPSHOT));
    var store := [Acquire(ADMIN, Exclusive)] + WholeStore(work);
    ActsBoth(last, [Release(SNAPSHOT)]);
    ActsBoth(store, last + [Release(SNAPSHOT)]);
    ActsBoth(Briefly(CHECKPOINT), store + (last + [Release(SNAPSHOT)]));
    ActsBoth([Acquire(SNAPSHOT, Exclusive)], Briefly(CHECKPOINT) + (store + (last + [Release(SNAPSHOT)])));
    assert store + (last + [Release(SNAPSHOT)])
        == [Acquire(ADMIN, Exclusive)] + (WholeStore(work) + (last + [Release(SNAPSHOT)]));
  }

  lemma ActsTwo(a: Instr, b: Instr)
    requires a.Do? && b.Do?
    ensures Acts([a] + [b]) == [a, b]
  {
    ActsOne(a);
    ActsOne(b);
    ActsBoth([a], [b]);
  }

  lemma ActsWrite(k: nat, route: Route)
    ensures Acts(Program(WriteKey(k), route)) == Duty(WriteKey(k), route)
  {
    hide Acts, AppendToLog, Briefly;
    var l, change := Shard(k % SHARDS), [Do(ChangeShard(k % SHARDS))];
    ActsBrief(CHECKPOINT);
    ActsAppend(route);
    ActsOne(Release(l));
    ActsOne(Acquire(l, Exclusive));
    ActsOne(change[0]);
    ActsBoth(Briefly(CHECKPOINT), [Release(l)]);
    ActsBoth(change, Briefly(CHECKPOINT) + [Release(l)]);
    ActsBoth(AppendToLog(route), change + (Briefly(CHECKPOINT) + [Release(l)]));
    ActsBoth([Acquire(l, Exclusive)], AppendToLog(route) + (change + (Briefly(CHECKPOINT) + [Release(l)])));
    ActsBoth(Briefly(CHECKPOINT),
             [Acquire(l, Exclusive)] + (AppendToLog(route) + (change + (Briefly(CHECKPOINT) + [Release(l)]))));
  }

  lemma ActsRead(k: nat)
    ensures Acts(Program(ReadKey(k), NoLog)) == Duty(ReadKey(k), NoLog)
  {
    hide Acts;
    var l, look := Shard(k % SHARDS), [Do(ReadShard(k % SHARDS))];
    ActsOne(Acquire(l, Shared));
    ActsOne(look[0]);
    ActsOne(Release(l));
    ActsBoth(look, [Release(l)]);
    ActsBoth([Acquire(l, Shared)], look + [Release(l)]);
  }

  lemma ActsAdmin(op: Operation, route: Route)
    requires !op.ReadKey? && !op.WriteKey?
    ensures Acts(Program(op, route)) == Duty(op, route)
  {
    hide Acts, OnSnapshot, WholeStore, LogWork, LockAll, UnlockAll, Briefly;
    var read, file, change, log := [Do(ReadStore)], [Do(UseSnapshot)], [Do(ChangeStore)], LogWork(route);
    ActsOne(read[0]);
    ActsOne(file[0]);
    ActsLogWork(route);
    ActsLock(0, Shared);
    NoActs();
    match op
    case CountAll =>
      ActsBoth(read, UnlockAll(0));
      ActsBoth(LockAll(0, Shared), read + UnlockAll(0));
    case ReplaceAll =>
      ActsTwo(read[0], change[0]);
      ActsStore(read + change);
    case SaveSnapshot =>
      ActsTwo(read[0], file[0]);
      ActsBoth(log, read + file);
      ActsOnSnapshot(log + (read + file), []);
    case CompactPersistence =>
      ActsBoth(file, log);
      ActsBoth(read, file + log);
      ActsOnSnapshot(read + (file + log), []);
      assert read + (file + LogActs(route)) == [Do(ReadStore), Do(UseSnapshot)] + LogActs(route);
    case ClearPersistence =>
      ActsBoth(log, file);
      ActsOnSnapshot(log + file, []);
    case LoadSnapshot =>
      ActsTwo(file[0], change[0]);
      ActsOnSnapshot(file + change, []);
    case BackgroundCheckpoint =>
      ActsBrief(CHECKPOINT);
      ActsBoth(read, log);
      ActsOnSnapshot(read + log, file);
      ActsBoth(OnSnapshot(read + log, file), Briefly(CHECKPOINT));
      ActsBoth(Briefly(CHECKPOINT), OnSnapshot(read + log, file) + Briefly(CHECKPOINT));
  }

  /** Every operation does its work, in this order. */
  lemma OperationsDoTheirWork(op: Operation, route: Route)
    ensures Acts(Program(op, route)) == Duty(op, route)
  {
    hide Acts;
    match op
    case ReadKey(k) => ActsRead(k);
    case WriteKey(k) => ActsWrite(k, route);
    case _ => ActsAdmin(op, route);
  }

  // ------------------------------------------------------------ every state of every run

  /** Each thread's latest operation holds what it needs, now and until it ends. */
  ghost predicate AllGuarded(s: State, ops: seq<Operation>) {
    |ops| == |s.threads| && forall t :: 0 <= t < |ops| ==> Guarded(ops[t], s.threads[t].held, s.threads[t].todo)
  }

  /** Which operation each thread started last. */
  function OpsAfter(ops: seq<Operation>, events: seq<Event>): seq<Operation>
    decreases events
  {
    if events == [] then ops
    else OpsAfter(if events[0].Start? && events[0].t < |ops| then ops[events[0].t := events[0].op] else ops, events[1..])
  }

  lemma StepGuarded(s: State, e: Event, ops: seq<Operation>)
    requires AllGuarded(s, ops) && Enabled(s, e)
    ensures AllGuarded(Step(s, e), if e.Start? then ops[e.t := e.op] else ops)
  {
    hide Guarded, Program, CanAcquire, Free;
    match e
    case Start(t, op, route) => OperationsAreGuarded(op, route);
    case Run(t) => RunGuarded(ops[t], s, t);
    case Throw(t) => Nothing(ops[t], map[]);
    case _ =>
  }

  lemma RunGuarded(op: Operation, s: State, t: nat)
    requires t < |s.threads| && s.threads[t].todo != [] && Guarded(op, s.threads[t].held, s.threads[t].todo)
    ensures var m := DoRun(s, t).threads[t];
            Guarded(op, m.held, m.todo)
  {
  }

  lemma {:induction false} RunsGuarded(s: State, events: seq<Event>, ops: seq<Operation>)
    requires AllGuarded(s, ops) && Runs(s, events)
    ensures AllGuarded(AfterRun(s, events), OpsAfter(ops, events))
    decreases events
  {
    hide AllGuarded, Enabled, Step;
    if events != [] {
      StepGuarded(s, events[0], ops);
      StartInRange(s, events[0], ops);
      RunsGuarded(Step(s, events[0]), events[1..], if events[0].Start? then ops[events[0].t := events[0].op] else ops);
    }
  }

  lemma StartInRange(s: State, e: Event, ops: seq<Operation>)
    requires AllGuarded(s, ops) && Enabled(s, e)
    ensures e.Start? ==> e.t < |ops|
  {
    hide Guarded, CanRun, Free;
  }

  /** What thread `t` does next, if it is not at rest. */
  predicate AtWork(s: State, t: nat) {
    t < |s.threads| && s.threads[t].todo != [] && Working(s.threads[t].todo[0])
  }

  /**
   * In every state of every run, whatever the interleaving: a thread at its work holds the
   * locks that its operation and its task need.
   */
  lemma HeldAtWork(start: State, events: seq<Event>, ops: seq<Operation>, t: nat)
    requires Initial(start) && Runs(start, events) && |ops| == |start.threads|
    requires AtWork(AfterRun(start, events), t)
    ensures var s, op := AfterRun(start, events), OpsAfter(ops, events);
            && t < |op| && Grants(s.threads[t].held, Needs(op[t], s.threads[t].todo[0]))
            && Grants(s.threads[t].held, Protects(s.threads[t].todo[0]))
  {
    hide Needs, Protects, Grants, Runs, AfterRun, OpsAfter;
    assert AllGuarded(start, ops);
    RunsGuarded(start, events, ops);
  }

  /** Working on this operation may change the shard, or may look at it. */
  predicate MayChange(op: Operation, i: Instr, k: nat) {
    match op
    case ReadKey(_) => false
    case WriteKey(j) => j % SHARDS == k
    case CountAll => false
    case BackgroundCheckpoint => i != Do(UseSnapshot)
    case _ => true
  }

  predicate MayLook(op: Operation, i: Instr, k: nat) {
    MayChange(op, i, k) || op.CountAll? || (op.ReadKey? && op.shard % SHARDS == k)
  }

  predicate OnFile(op: Operation) {
    OnSnapshotFile(op) || op.BackgroundCheckpoint?
  }

  /**
   * So no two threads are ever at their work together if one is writing a key and the other
   * reads or writes one of the same shard, counts, replaces, copies or saves the store; if
   * both work on the whole store; or if both work with the snapshot file.
   */
  lemma NeverTogether(start: State, events: seq<Event>, ops: seq<Operation>, t: nat, u: nat, k: nat)
    requires Initial(start) && Runs(start, events) && |ops| == |start.threads| && t != u && k < SHARDS
    requires AtWork(AfterRun(start, events), t) && AtWork(AfterRun(start, events), u)
    ensures var s, op := AfterRun(start, events), OpsAfter(ops, events);
            && t < |op| && u < |op|
            && !(MayChange(op[t], s.threads[t].todo[0], k) && MayLook(op[u], s.threads[u].todo[0], k))
            && !(OnFile(op[t]) && OnFile(op[u]))
  {
    hide Runs, AfterRun, OpsAfter, Protects, Excludes, Needs, Working;
    HeldAtWork(start, events, ops, t);
    HeldAtWork(start, events, ops, u);
    LocksExclude(start, events);
    var s, op := AfterRun(start, events), OpsAfter(ops, events);
    var a, b := s.threads[t].todo[0], s.threads[u].todo[0];
    if MayChange(op[t], a, k) && MayLook(op[u], b, k) {
      ChangeNeeds(op[t], a, k);
      LookNeeds(op[u], b, k);
      OneHolder(s, t, u, Shard(k));
    }
    if OnFile(op[t]) && OnFile(op[u]) {
      FileNeeds(op[t], a);
      FileNeeds(op[u], b);
      OneHolder(s, t, u, SNAPSHOT);
    }
  }

  lemma ChangeNeeds(op: Operation, i: Instr, k: nat)
    requires MayChange(op, i, k) && Working(i) && k < SHARDS
    ensures Shard(k) in Needs(op, i) && Needs(op, i)[Shard(k)] == Exclusive
  {
    assert IsShard(Shard(k));
  }

  lemma LookNeeds(op: Operation, i: Instr, k: nat)
    requires MayLook(op, i, k) && Working(i) && k < SHARDS
    ensures Shard(k) in Needs(op, i)
  {
    assert IsShard(Shard(k));
  }

  lemma FileNeeds(op: Operation, i: Instr)
    requires OnFile(op) && Working(i)
    ensures SNAPSHOT in Needs(op, i) && Needs(op, i)[SNAPSHOT] == Exclusive
  {
  }

  lemma OneHolder(s: State, t: nat, u: nat, l: nat)
    requires Excludes(s) && t < |s.threads| && u < |s.threads| && t != u
    requires l in s.threads[t].held && s.threads[t].held[l] == Exclusive
    ensures l !in s.threads[u].held
  {
  }

  // ------------------------------------------------------------ the owners of the shards

  /** The thread holds the shard exclusively. */
  predicate Owns(s: State, t: nat, i: nat) {
    t < |s.threads| && Shard(i) in s.threads[t].held && s.threads[t].held[Shard(i)] == Exclusive
  }

  /** Shard to the thread that holds it exclusively, as the storage engine's state has it. */
  ghost predicate Owners(s: State, owners: map<nat, nat>) {
    && (forall i :: i in owners ==> i < SHARDS && Owns(s, owners[i], i))
    && (forall t, i :: 0 <= i < SHARDS && Owns(s, t, i) ==> i in owners)
  }

  /** How the storage engine's steps treat its map of owners. */
  function OwnersAfter(owners: map<nat, nat>, t: nat, next: Instr): map<nat, nat> {
    match next
    case Acquire(l, m) => if IsShard(l) && m == Exclusive then owners[l - Shard(0) := t] else owners
    case Release(l) =>
      if IsShard(l) && l - Shard(0) in owners && owners[l - Shard(0)] == t then owners - {l - Shard(0)} else owners
    case _ => owners
  }

  /**
   * Taking a shard exclusively is possible only while it has no owner, and gives it one;
   * giving it back takes the owner away; nothing else a thread does changes the owners, taking
   * and giving back other locks, or a shard in shared mode, included.
   */
  lemma OwnersStep(s: State, t: nat, owners: map<nat, nat>)
    requires Excludes(s) && ThreadsOrdered(s) && CanRun(s, t) && Owners(s, owners)
    ensures Owners(DoRun(s, t), OwnersAfter(owners, t, s.threads[t].todo[0]))
    ensures forall i: nat :: s.threads[t].todo[0] == Acquire(Shard(i), Exclusive) && i < SHARDS ==> i !in owners
  {
    hide Owners, Excludes, CanAcquire, DoRun, ThreadsOrdered;
    var next := s.threads[t].todo[0];
    if next.Acquire? { NotHeldYet(s, t); }
    if next.Acquire? && IsShard(next.lock) && next.mode == Exclusive {
      OwnerTakes(s, t, owners, next.lock - Shard(0));
    } else if next.Release? && OwnersAfter(owners, t, next) != owners {
      OwnerGives(s, t, owners, next.lock - Shard(0));
    } else {
      OwnersStay(s, t, owners);
    }
  }

  /** Locks are taken in ascending order, so none is taken twice. */
  lemma NotHeldYet(s: State, t: nat)
    requires ThreadsOrdered(s) && t < |s.threads| && s.threads[t].todo != [] && s.threads[t].todo[0].Acquire?
    ensures s.threads[t].todo[0].lock !in s.threads[t].held
  {
    var th := s.threads[t];
    assert Ordered(th.held, th.todo, th.pending);
  }

  /** What a step of one thread leaves of everybody's locks. */
  lemma OthersStay(s: State, t: nat, u: nat, j: nat)
    requires t < |s.threads| && s.threads[t].todo != []
    ensures u != t ==> (Owns(DoRun(s, t), u, j) <==> Owns(s, u, j))
    ensures s.threads[t].todo[0].Acquire? && s.threads[t].todo[0].lock != Shard(j) ==>
              (Owns(DoRun(s, t), t, j) <==> Owns(s, t, j))
    ensures s.threads[t].todo[0].Release? && s.threads[t].todo[0].lock != Shard(j) ==>
              (Owns(DoRun(s, t), t, j) <==> Owns(s, t, j))
    ensures !s.threads[t].todo[0].Acquire? && !s.threads[t].todo[0].Release? ==>
              (Owns(DoRun(s, t), t, j) <==> Owns(s, t, j))
  {
  }

  lemma OwnerTakes(s: State, t: nat, owners: map<nat, nat>, i: nat)
    requires CanRun(s, t) && Owners(s, owners) && i < SHARDS
    requires s.threads[t].todo[0] == Acquire(Shard(i), Exclusive) && Shard(i) !in s.threads[t].held
    ensures i !in owners && Owners(DoRun(s, t), owners[i := t])
  {
    hide DoRun;
    var m := DoRun(s, t);
    assert forall u :: !Owns(s, u, i);
    Taken(s, t, i);
    forall u, j
      ensures j != i ==> (Owns(m, u, j) <==> Owns(s, u, j))
    {
      OthersStay(s, t, u, j);
    }
  }

  lemma Taken(s: State, t: nat, i: nat)
    requires t < |s.threads| && s.threads[t].todo != [] && s.threads[t].todo[0] == Acquire(Shard(i), Exclusive)
    ensures Owns(DoRun(s, t), t, i)
  {
  }

  lemma OwnerGives(s: State, t: nat, owners: map<nat, nat>, i: nat)
    requires Excludes(s) && CanRun(s, t) && Owners(s, owners) && i in owners && owners[i] == t
    requires s.threads[t].todo[0] == Release(Shard(i))
    ensures Owners(DoRun(s, t), owners - {i})
  {
    hide DoRun, Excludes;
    var m := DoRun(s, t);
    forall u
      ensures !Owns(m, u, i)
    {
      OthersStay(s, t, u, i);
      if u == t { Given(s, t, i); } else if Owns(s, u, i) { OneHolder(s, t, u, Shard(i)); }
    }
    forall u, j
      ensures j != i ==> (Owns(m, u, j) <==> Owns(s, u, j))
    {
      OthersStay(s, t, u, j);
    }
  }

  lemma Given(s: State, t: nat, i: nat)
    requires t < |s.threads| && s.threads[t].todo != [] && s.threads[t].todo[0] == Release(Shard(i))
    ensures !Owns(DoRun(s, t), t, i)
  {
  }

  lemma OwnersStay(s: State, t: nat, owners: map<nat, nat>)
    requires Excludes(s) && CanRun(s, t) && Owners(s, owners)
    requires var next := s.threads[t].todo[0];
             && (next.Acquire? ==> next.lock !in s.threads[t].held && (!IsShard(next.lock) || next.mode == Shared))
             && (next.Release? && IsShard(next.lock) && next.lock - Shard(0) in owners ==> owners[next.lock - Shard(0)] != t)
    ensures Owners(DoRun(s, t), owners)
  {
    hide DoRun, CanAcquire, Excludes;
    forall u, j | 0 <= j < SHARDS
      ensures Owns(DoRun(s, t), u, j) <==> Owns(s, u, j)
    {
      OthersStay(s, t, u, j);
      if u == t { OwnStays(s, t, owners, j); }
    }
  }

  /** A lock that the thread does not hold exclusively, before or after. */
  lemma OwnStays(s: State, t: nat, owners: map<nat, nat>, j: nat)
    requires Excludes(s) && CanRun(s, t) && Owners(s, owners) && j < SHARDS
    requires var next := s.threads[t].todo[0];
             && (next.Acquire? ==> next.lock !in s.threads[t].held && (!IsShard(next.lock) || next.mode == Shared))
             && (next.Release? && next.lock == Shard(j) && j in owners ==> owners[j] != t)
    ensures Owns(DoRun(s, t), t, j) <==> Owns(s, t, j)
  {
    hide CanAcquire, Excludes;
    if Owns(s, t, j) && owners[j] != t { OneHolder(s, t, owners[j], Shard(j)); }
  }
}
