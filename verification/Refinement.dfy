/**
 * The objects do what the step systems say: sixty-four shard maps hold the engine's one
 * map, and what the log object does with one batch is a run of the group-commit machine.
 */
module Refinement {
  import opened Bytes
  import opened Crc
  import opened Record
  import opened Replay
  import opened ReplayLaws
  import opened Recovery
  import opened Engine
  import opened EngineInv
  import opened EngineCalls
  import opened Durability
  import opened ShardedStore
  import Wal
  import GC = GroupCommit

  // ------------------------------------------------------------ shards and the one map

  /** The shards hold the engine's memory. */
  ghost predicate Simulates(parts: seq<Store>, s: Engine) {
    |parts| == SHARD_COUNT && Partitioned(parts, s.hash) && Merged(parts) == s.mem
  }

  /** A map spread over the shards. */
  function Distributed(store: Store, hash: Key -> nat): (parts: seq<Store>)
    ensures |parts| == SHARD_COUNT
  {
    seq(SHARD_COUNT, i => map k | k in store && ShardIndex(hash, k) == i :: store[k])
  }

  lemma DistributedHolds(store: Store, hash: Key -> nat)
    ensures Partitioned(Distributed(store, hash), hash) && Merged(Distributed(store, hash)) == store
  {
    hide Merged, ShardIndex;
    var parts := Distributed(store, hash);
    forall k
      ensures AgreeOn(Merged(parts), store, k)
    {
      MergedAt(parts, hash, k);
    }
    AgreeEverywhere(Merged(parts), store);
  }

  /** What an event does to the shards: a call changes one of them, a restart fills them all, nothing else touches them. */
  ghost function Sharded(parts: seq<Store>, s: Engine, e: Event): seq<Store>
    requires Possible(s, e) && |parts| == SHARD_COUNT
  {
    if e.Foreground? && e.call.Mutate? then
      var op := PcOf(s, e.t).r.op;
      parts[ShardIndex(s.hash, op.key) := Apply(parts[ShardIndex(s.hash, op.key)], op)]
    else if e.Crash? then Distributed(Recover(e.snap.bytes, e.image.bytes).value, s.hash)
    else parts
  }

  ghost function ShardedAfter(parts: seq<Store>, s: Engine, events: seq<Event>): seq<Store>
    requires Runs(s, events) && |parts| == SHARD_COUNT
    decreases events
  {
    if events == [] then parts else ShardedAfter(Sharded(parts, s, events[0]), Step(s, events[0]), events[1..])
  }

  /**
   * Every step on the shards is the step on the one map; and while the store runs, only the
   * shard that the calling thread has locked is changed.
   */
  lemma StepSimulated(parts: seq<Store>, s: Engine, e: Event)
    requires Inv(s) && Enabled(s, e) && Simulates(parts, s)
    ensures Simulates(Sharded(parts, s, e), Step(s, e))
    ensures forall i :: 0 <= i < SHARD_COUNT && Sharded(parts, s, e)[i] != parts[i] && e.Foreground? ==>
              i in s.shards && s.shards[i] == e.t
  {
    hide Inv, Merged, Partitioned, Apply, CanAct, DoAct, CanWrite, DoWrite, Recover, RecoveredSet, Reopened, Settles,
      StoreOf, OffsetOf, MayLeave, Distributed, ShardIndex, HasRequest, Aligned, CanAppend, DoAppend, SameLog,
      OthersKeepLocks, Exclusive;
    match e
    case Foreground(t, call) =>
      if call.Mutate? {
        MergedUpdate(parts, s.hash, PcOf(s, t).r.op);
        LockedShard(s, t);
      } else if call.Append? {
        AppendMove(s, t);
        AppendKeepsMemory(s, t);
      }
    case Writer(g) => WriterKeepsMemory(s, g);
    case Background(t, action) => ActMoves(s, t, action);
    case Crash(_, image, snap) => DistributedHolds(Recover(snap.bytes, image.bytes).value, s.hash);
  }

  lemma LockedShard(s: Engine, t: nat)
    requires Inv(s) && PcOf(s, t).Logged?
    ensures var i := ShardIndex(s.hash, PcOf(s, t).r.op.key);
            i in s.shards && s.shards[i] == t
  {
    hide GC.Inv, Numbers, Queued, Account, Ordered, Memory, LogOk, Snapshots, Stale, Past, AdminOk;
    assert ThreadOk(s, t);
  }

  lemma AppendKeepsMemory(s: Engine, t: nat)
    requires CanAppend(s, t)
    ensures DoAppend(s, t).mem == s.mem && DoAppend(s, t).hash == s.hash
  {
    hide CanAppend, DoAppend, OthersKeepLocks, SameLog, Exclusive;
    AppendMove(s, t);
  }

  lemma WriterKeepsMemory(s: Engine, g: GC.Event)
    requires CanWrite(s, g)
    ensures DoWrite(s, g).mem == s.mem && DoWrite(s, g).hash == s.hash
  {
    hide GC.Enabled, GC.Step;
  }

  /** Over every run the 64 shards together are the engine's memory, and each key is found in its own shard. */
  lemma {:induction false} RunSimulated(parts: seq<Store>, s: Engine, events: seq<Event>, k: Key)
    requires Inv(s) && Runs(s, events) && Simulates(parts, s)
    ensures var after := ShardedAfter(parts, s, events);
            && Simulates(after, AfterRun(s, events))
            && AgreeOn(after[ShardIndex(s.hash, k)], AfterRun(s, events).mem, k)
    decreases events
  {
    hide Inv, Merged, Enabled, Step, Sharded, Partitioned;
    if events == [] {
      MergedAt(parts, s.hash, k);
    } else {
      EnabledIsPossible(s, events[0]);
      StepInv(s, events[0]);
      StepSimulated(parts, s, events[0]);
      SameHash(s, events[0]);
      RunSimulated(Sharded(parts, s, events[0]), Step(s, events[0]), events[1..], k);
    }
  }

  lemma SameHash(s: Engine, e: Event)
    requires Possible(s, e)
    ensures Step(s, e).hash == s.hash
  {
    hide CanAct, DoAct, CanWrite, DoWrite, Recover, RecoveredSet, Reopened, Settles, StoreOf, OffsetOf, MayLeave,
      HasRequest, CanAppend, DoAppend, Apply;
    match e
    case Foreground(t, call) => if call.Append? { AppendKeepsMemory(s, t); }
    case Writer(g) => WriterKeepsMemory(s, g);
    case Background(t, action) => ActMoves(s, t, action);
    case Crash(_, _, _) =>
  }

  // ------------------------------------------------------------ one batch

  /** The log object is the machine at rest. */
  ghost predicate Represents(log: Wal.WriteAheadLog, l: GC.Log)
    reads log
  {
    && log.policy == l.policy && log.maxBatch == l.maxBatch && log.file == l.file && log.synced == l.synced
    && log.format.generation == l.generation && log.format.nextSequence == |l.records| + 1
    && log.format.headerPending == (l.file == []) && log.ops == GC.Ops(l.records)
    && log.failed == l.failed && l.phase.Idle?
  }

  /** The writer acknowledges every request of its batch. */
  function Acks(n: nat): (es: seq<GC.Event>)
    ensures |es| == n
  {
    if n == 0 then [] else [GC.Ack] + Acks(n - 1)
  }

  /** What the writer does with a whole queue: take it, number it, write it, flush or sync, acknowledge each. */
  function BatchEvents(policy: Wal.Policy, n: nat, size: nat): seq<GC.Event> {
    [GC.Take(n)] + ([GC.Finalize] + ([GC.Write(size)]
      + ((if policy == Wal.Buffered then [GC.Flush] else [GC.Flush] + [GC.Flush]) + Acks(n))))
  }

  lemma RunOne(l: GC.Log, e: GC.Event, rest: seq<GC.Event>)
    requires GC.Enabled(l, e) && GC.Runs(GC.Step(l, e), rest)
    ensures GC.Runs(l, [e] + rest) && GC.AfterRun(l, [e] + rest) == GC.AfterRun(GC.Step(l, e), rest)
  {
    hide GC.Enabled, GC.Step;
    assert ([e] + rest)[0] == e && ([e] + rest)[1..] == rest;
  }

  /** The machine after every request in the batch has been acknowledged. */
  ghost predicate AllAcked(l: GC.Log, m: GC.Log) {
    && m.file == l.file && m.synced == l.synced && m.records == l.records && m.generation == l.generation
    && m.policy == l.policy && m.maxBatch == l.maxBatch
    && m.acked == l.acked + |l.batch| && m.phase.Idle? && m.failed == l.failed && m.queue == l.queue
    && (forall i :: 0 <= i < |l.batch| ==> l.batch[i].id in m.outcomes && m.outcomes[l.batch[i].id])
    && (forall id :: id in l.outcomes && l.outcomes[id] ==> id in m.outcomes && m.outcomes[id])
  }

  lemma {:induction false} AckAll(l: GC.Log)
    requires l.phase.Acking? && l.batch != []
    ensures GC.Runs(l, Acks(|l.batch|)) && AllAcked(l, GC.AfterRun(l, Acks(|l.batch|)))
    decreases |l.batch|
  {
    var m := GC.Step(l, GC.Ack);
    if |l.batch| == 1 {
      assert Acks(0) == [];
      RunOne(l, GC.Ack, []);
    } else {
      AckAll(m);
      RunOne(l, GC.Ack, Acks(|m.batch|));
      assert forall i :: 0 < i < |l.batch| ==> l.batch[i] == m.batch[i - 1];
    }
  }

  /** The bytes the writer puts out for the whole queue. */
  ghost function Output(l: GC.Log): seq<byte> {
    Wal.Emission(l.file == [], l.generation, |l.records| + 1, GC.Ops(l.queue))
  }

  /** The batch numbered and wholly written. */
  ghost function Written(l: GC.Log): GC.Log {
    l.(batch := l.queue, queue := [], records := l.records + l.queue,
       file := l.file + Output(l), phase := GC.Writing([]))
  }

  /** The run that takes the queue and writes it, followed by the given events. */
  ghost function ThroughWrite(l: GC.Log, rest: seq<GC.Event>): seq<GC.Event> {
    [GC.Take(|l.queue|)] + ([GC.Finalize] + ([GC.Write(|Output(l)|)] + rest))
  }

  /** The whole queue is one batch, and the file is not too long for it. */
  ghost predicate CanTake(l: GC.Log) {
    && GC.Inv(l) && l.phase.Idle? && !l.failed && GC.IsBatch(l.queue, l.maxBatch, |l.queue|)
    && |l.file| + |Output(l)| <= MAX_STREAM_OFFSET
  }

  /** And there are sequences left for it. */
  ghost predicate CanCommit(l: GC.Log) {
    CanTake(l) && |l.records| + |l.queue| < Wal.MAX_U64
  }

  lemma WriteAll(l: GC.Log, rest: seq<GC.Event>)
    requires CanCommit(l) && GC.Runs(Written(l), rest)
    ensures GC.Runs(l, ThroughWrite(l, rest))
    ensures GC.AfterRun(l, ThroughWrite(l, rest)) == GC.AfterRun(Written(l), rest)
  {
    hide GC.Inv, Wal.Emission, GC.FrameBytes;
    var e := Output(l);
    EmissionHasBytes(l);
    var l1 := GC.Step(l, GC.Take(|l.queue|));
    assert l.queue[..|l.queue|] == l.queue && l.queue[|l.queue|..] == [];
    var l2 := GC.Step(l1, GC.Finalize);
    assert l2.phase == GC.Writing(e);
    assert e[..|e|] == e && e[|e|..] == [];
    assert GC.Step(l2, GC.Write(|e|)) == Written(l);
    RunOne(l2, GC.Write(|e|), rest);
    RunOne(l1, GC.Finalize, [GC.Write(|e|)] + rest);
    RunOne(l, GC.Take(|l.queue|), [GC.Finalize] + ([GC.Write(|e|)] + rest));
  }

  lemma EmissionHasBytes(l: GC.Log)
    requires l.queue != []
    ensures |Output(l)| > 0
  {
    hide Header, Frames;
    FramesSize(GC.Ops(l.queue), |l.records| + 1);
    SizePositive(GC.Ops(l.queue));
  }

  lemma FlushAll(l: GC.Log)
    requires l.phase == GC.Writing([]) && l.batch != []
    ensures var es := (if l.policy == Wal.Buffered then [GC.Flush] else [GC.Flush] + [GC.Flush]) + Acks(|l.batch|);
            && GC.Runs(l, es)
            && AllAcked(l.(synced := if l.policy == Wal.Buffered then l.synced else |l.file|), GC.AfterRun(l, es))
  {
    hide Acks, GC.Runs, GC.AfterRun;
    var l1 := GC.Step(l, GC.Flush);
    if l.policy == Wal.Buffered {
      AckAll(l1);
      RunOne(l, GC.Flush, Acks(|l.batch|));
    } else {
      var l2 := GC.Step(l1, GC.Flush);
      AckAll(l2);
      RunOne(l1, GC.Flush, Acks(|l.batch|));
      RunOne(l, GC.Flush, [GC.Flush] + Acks(|l.batch|));
      assert [GC.Flush] + ([GC.Flush] + Acks(|l.batch|)) == ([GC.Flush] + [GC.Flush]) + Acks(|l.batch|);
    }
  }

  /** What a successful batch leaves. */
  ghost predicate Succeeded(l: GC.Log, m: GC.Log) {
    && m.file == l.file + Output(l) && m.synced == (if l.policy == Wal.Buffered then l.synced else |m.file|)
    && m.records == l.records + l.queue && m.generation == l.generation && m.policy == l.policy
    && m.maxBatch == l.maxBatch && m.phase.Idle? && !m.failed && m.queue == []
    && (forall i :: 0 <= i < |l.queue| ==> l.queue[i].id in m.outcomes && m.outcomes[l.queue[i].id])
  }

  lemma SuccessRuns(l: GC.Log)
    requires CanCommit(l)
    ensures var es := BatchEvents(l.policy, |l.queue|, |Output(l)|);
            GC.Runs(l, es) && Succeeded(l, GC.AfterRun(l, es))
  {
    hide GC.Inv, Wal.Emission, GC.IsBatch, Acks, GC.Runs, GC.AfterRun;
    QueueNotEmpty(l);
    var w := Written(l);
    FlushAll(w);
    var rest := (if l.policy == Wal.Buffered then [GC.Flush] else [GC.Flush] + [GC.Flush]) + Acks(|l.queue|);
    WriteAll(l, rest);
  }

  /** What a failing batch does: some of its bytes, perhaps none, reach the file; it is synced or not; and it fails. */
  function FailingEvents(n: nat, written: nat, synced: bool): seq<GC.Event> {
    [GC.Take(n)] + ([GC.Finalize] + WritingEvents(written, synced))
  }

  function WritingEvents(written: nat, synced: bool): seq<GC.Event> {
    if written == 0 then [GC.Fail] else [GC.Write(written)] + (if synced then [GC.Flush] + [GC.Fail] else [GC.Fail])
  }

  /** Every request of the batch is still to be completed, with the error. */
  ghost predicate Unfinished(l: GC.Log, m: GC.Log) {
    m.failed && m.acked == l.acked && m.phase.Failing? && m.batch == l.queue && m.queue == [] && m.outcomes == l.outcomes
  }

  /** What a failed batch leaves. */
  ghost predicate Failed(l: GC.Log, written: nat, synced: bool, m: GC.Log)
    requires written <= |Output(l)|
  {
    && m.file == l.file + Output(l)[..written] && m.synced == (if synced then |m.file| else l.synced)
    && m.generation == l.generation && Unfinished(l, m)
  }

  lemma FailureRuns(l: GC.Log, written: nat, synced: bool)
    requires CanCommit(l) && written <= |Output(l)|
    requires synced ==> written == |Output(l)| && l.policy != Wal.Buffered
    ensures var es := FailingEvents(|l.queue|, written, synced);
            GC.Runs(l, es) && Failed(l, written, synced, GC.AfterRun(l, es))
  {
    hide GC.Inv, Wal.Emission, GC.IsBatch, GC.Runs, GC.AfterRun;
    QueueNotEmpty(l);
    EmissionHasBytes(l);
    assert l.queue[..|l.queue|] == l.queue && l.queue[|l.queue|..] == [] && l.queue + [] == l.queue;
    var l1 := GC.Step(l, GC.Take(|l.queue|));
    var l2 := GC.Step(l1, GC.Finalize);
    if written == 0 {
      RunLast(l2);
      assert l.file + Output(l)[..0] == l.file;
    } else {
      var l3 := GC.Step(l2, GC.Write(written));
      if synced {
        RunLast(GC.Step(l3, GC.Flush));
        RunOne(l3, GC.Flush, [GC.Fail]);
        RunOne(l2, GC.Write(written), [GC.Flush] + [GC.Fail]);
      } else {
        RunLast(l3);
        RunOne(l2, GC.Write(written), [GC.Fail]);
      }
    }
    RunOne(l1, GC.Finalize, WritingEvents(written, synced));
    RunOne(l, GC.Take(|l.queue|), [GC.Finalize] + WritingEvents(written, synced));
  }

  /** With no sequences left the batch fails before anything is written. */
  lemma ExhaustedRuns(l: GC.Log)
    requires CanTake(l)
    ensures var es := [GC.Take(|l.queue|)] + [GC.Fail];
            GC.Runs(l, es) && Failed(l, 0, false, GC.AfterRun(l, es))
  {
    hide GC.Inv, Wal.Emission, GC.IsBatch, GC.Runs, GC.AfterRun;
    QueueNotEmpty(l);
    assert l.queue[..|l.queue|] == l.queue && l.queue[|l.queue|..] == [] && l.queue + [] == l.queue;
    var l1 := GC.Step(l, GC.Take(|l.queue|));
    RunLast(l1);
    RunOne(l, GC.Take(|l.queue|), [GC.Fail]);
    assert l.file + Output(l)[..0] == l.file;
  }

  lemma RunLast(l: GC.Log)
    requires GC.Enabled(l, GC.Fail)
    ensures GC.Runs(l, [GC.Fail]) && GC.AfterRun(l, [GC.Fail]) == GC.Step(l, GC.Fail)
  {
    RunOne(l, GC.Fail, []);
    assert [GC.Fail] + [] == [GC.Fail];
  }

  lemma QueueNotEmpty(l: GC.Log)
    requires GC.IsBatch(l.queue, l.maxBatch, |l.queue|)
    ensures 1 <= |l.queue| <= l.maxBatch
  {
  }

  lemma QueueBounded(l: GC.Log)
    requires GC.Inv(l) && l.phase.Idle? && !l.failed
    ensures AllBounded(GC.Ops(l.queue))
  {
    hide Bounded, LogBytes, BoundaryOf, GC.Contents, GC.Durable, GC.Completions;
    forall i | 0 <= i < |l.queue|
      ensures Bounded(l.queue[i].op)
    {
      assert l.queue == l.submitted[|l.records|..];
      assert l.queue[i] == l.submitted[|l.records| + i];
    }
  }

  /**
   * Committing a batch on the log object is a run of the machine, whatever the device does:
   * take, number, write, flush or sync, acknowledge each; or a run that fails after any part
   * of that. File, synced length, generation and failure agree at its end. After a success
   * the object is the machine again, and every request of the batch has completed without
   * error; after a failure each is still to be completed with the error.
   */
  method CommitRefines(log: Wal.WriteAheadLog, batch: seq<Op>, io: Wal.Io, ghost l: GC.Log)
    returns (ok: bool, ghost es: seq<GC.Event>)
    requires log.Valid() && log.format.Current() && Represents(log, l) && CanTake(l) && batch == GC.Ops(l.queue)
    modifies log
    ensures log.Valid() && GC.Runs(l, es)
    ensures var m := GC.AfterRun(l, es);
            && log.file == m.file && log.synced == m.synced && log.format.generation == m.generation
            && ok == !log.failed == !m.failed
            && (ok ==> Represents(log, m) && Succeeded(l, m))
            && (!ok ==> log.ops == GC.Ops(l.records) && Unfinished(l, m))
  {
    hide GC.Inv, GC.IsBatch, GC.Runs, GC.AfterRun, Wal.Emission, Wal.FormatOk, Wal.Grown, Wal.Completes, Bounded,
      IsTable, LogBytes, Output, Unfinished, CanTake, Wal.Stats.Balanced;
    TakenBatch(l);
    OutputIs(l, log.format.headerPending, log.format.nextSequence, batch);
    ok := log.Commit(batch, io);
    ghost var synced := log.streamOpen && |l.records| + |l.queue| < Wal.MAX_U64 && Wal.Synced(log.policy, io);
    WhenOk(log.policy, io, |Output(l)|);
    es := RunFor(l, ok, log.file, log.synced, synced);
    if ok { SettledAgain(log); }
  }

  lemma WhenOk(policy: Wal.Policy, io: Wal.Io, size: nat)
    ensures Wal.Completes(policy, io, size) && policy != Wal.Buffered ==> Wal.Synced(policy, io)
  {
  }

  lemma TakenBatch(l: GC.Log)
    requires CanTake(l)
    ensures 1 <= |l.queue| <= l.maxBatch && AllBounded(GC.Ops(l.queue)) && !l.failed
  {
    hide GC.Inv, GC.IsBatch, Bounded, Output;
    QueueNotEmpty(l);
    QueueBounded(l);
  }

  /** What a call that puts out `e` may leave behind. */
  ghost predicate Left(l: GC.Log, e: seq<byte>, ok: bool, after: seq<byte>, synced: nat, flushed: bool) {
    && Wal.Grown(l.file, e, after) && synced == (if flushed then |after| else l.synced)
    && (ok ==> |l.records| + |l.queue| < Wal.MAX_U64 && after == l.file + e && flushed == (l.policy != Wal.Buffered))
    && (|l.records| + |l.queue| >= Wal.MAX_U64 ==> after == l.file && !flushed)
    && (flushed ==> after == l.file + e && l.policy != Wal.Buffered)
  }

  ghost predicate Leaves(l: GC.Log, ok: bool, after: seq<byte>, synced: nat, m: GC.Log) {
    && m.file == after && m.synced == synced && m.generation == l.generation && m.failed == !ok
    && (ok ==> Succeeded(l, m) && GC.Ops(m.records) == GC.Ops(l.records) + GC.Ops(l.queue))
    && (!ok ==> Unfinished(l, m))
  }

  /** The run for what the call left behind. */
  lemma RunFor(l: GC.Log, ok: bool, after: seq<byte>, synced: nat, flushed: bool) returns (es: seq<GC.Event>)
    requires CanTake(l) && Left(l, Output(l), ok, after, synced, flushed)
    ensures GC.Runs(l, es) && Leaves(l, ok, after, synced, GC.AfterRun(l, es))
  {
    hide GC.Inv, GC.IsBatch, GC.Runs, GC.AfterRun, BatchEvents, FailingEvents, Output;
    if ok {
      es := BatchEvents(l.policy, |l.queue|, |Output(l)|);
      SuccessRuns(l);
      GC.OpsAppend(l.records, l.queue);
    } else if |l.records| + |l.queue| < Wal.MAX_U64 {
      es := FailingEvents(|l.queue|, |after| - |l.file|, flushed);
      FailureRuns(l, |after| - |l.file|, flushed);
    } else {
      es := [GC.Take(|l.queue|)] + [GC.Fail];
      ExhaustedRuns(l);
    }
  }

  lemma OutputIs(l: GC.Log, headerPending: bool, first: nat, batch: seq<Op>)
    requires headerPending == (l.file == []) && first == |l.records| + 1 && batch == GC.Ops(l.queue)
    ensures Output(l) == Wal.Emission(headerPending, l.generation, first, batch)
  {
    hide Wal.Emission;
  }

  /** A log object that has not failed knows where it stands. */
  lemma SettledAgain(log: Wal.WriteAheadLog)
    requires log.Valid() && log.format.Current() && !log.failed
    ensures log.format.nextSequence == |log.ops| + 1 && log.format.headerPending == (log.file == [])
  {
    hide LogBytes, Bounded, Wal.Stats.Balanced, IsTable;
    LogIsLong(log.format.generation, log.ops);
  }
}
