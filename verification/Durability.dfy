/**
 * What every run of the engine guarantees: from the empty store, through any
 * interleaving of calls, checkpoints, saves, compactions, log failures and crashes.
 */
module Durability {
  import opened Record
  import opened Replay
  import opened Snapshot
  import opened Recovery
  import opened Histories
  import opened Engine
  import opened EngineInv
  import opened EngineCalls
  import opened EngineWriter
  import opened EngineRestart
  import GC = GroupCommit

  // ------------------------------------------------------------ every step

  lemma CallInv(s: Engine, t: nat, call: Call)
    requires Inv(s) && CanCall(s, t, call)
    ensures Inv(DoCall(s, t, call))
  {
    hide Inv, CanBegin, CanAppend, CanWake, DoBegin, DoAppend, DoWake, DoMutate, DoReturn;
    match call
    case Begin(op) => BeginInv(s, t, op);
    case Append => AppendInv(s, t);
    case Wake => WakeInv(s, t);
    case Mutate => MutateInv(s, t);
    case Return => ReturnInv(s, t);
  }

  lemma ActInv(s: Engine, t: nat, action: Action)
    requires Inv(s) && CanAct(s, t, action)
    ensures Inv(DoAct(s, t, action))
  {
    hide Inv, CanSerialize, CanLockAdmin, CanLockShard, CanRelease, CanWriteTemp, CanSyncTemp, CanRename,
         CanSyncDirectory, CanTruncate, CanSyncTruncation, DoSerialize, DoLockAdmin, DoLockShard, DoCopy, DoRelease,
         DoWriteTemp, DoSyncTemp, DoRename, DoSyncDirectory, DoTruncate, DoSyncTruncation, DoFinish;
    match action
    case Serialize(kind) => SerializeInv(s, t, kind);
    case LockAdmin => LockAdminInv(s, t);
    case LockShard => LockShardInv(s, t);
    case CopyAll => CopyAllInv(s, t);
    case Release => ReleaseInv(s, t);
    case WriteTemp(order) => WriteTempInv(s, t, order);
    case SyncTemp => SyncTempInv(s, t);
    case Rename => RenameInv(s, t);
    case SyncDirectory => SyncDirectoryInv(s, t);
    case Truncate => TruncateInv(s, t);
    case SyncTruncation => SyncTruncationInv(s, t);
    case Finish => FinishInv(s, t);
  }

  lemma StepInv(s: Engine, e: Event)
    requires Inv(s) && Enabled(s, e)
    ensures Inv(Step(s, e))
  {
    hide Inv, Aligned, CanCall, CanWrite, CanCrash, DoCall, DoWrite, DoAct, DoCrash;
    match e
    case Foreground(t, call) => CallInv(s, t, call);
    case Writer(g) => WriterInv(s, g);
    case Background(t, action) => ActInv(s, t, action);
    case Crash(loss, image, snap) => CrashInv(s, loss, image, snap);
  }

  // ------------------------------------------------------------ runs

  /** A store on an empty disk. */
  ghost predicate Initial(s: Engine) {
    && s.log.maxBatch > 0 && s.log == GC.Opened(s.log.policy, s.log.maxBatch, 1, [], 0, [])
    && s == Engine(s.hash, s.log, map[], map[], map[], None, None, Snap(None, {}, 0), {Snap(None, {}, 0)}, {},
                   [], {}, {}, 0, map[], true, 0, {})
  }

  lemma InitialInv(s: Engine)
    requires Initial(s)
    ensures Inv(s)
  {
    hide LogBytes, GC.Inv, Bounded, BoundaryOf;
    GC.OpenedInv(s.log.policy, s.log.maxBatch, 1, [], 0, []);
    assert GC.Ops([]) == [];
  }

  ghost predicate Runs(s: Engine, events: seq<Event>)
    decreases events
  {
    events == [] || (Enabled(s, events[0]) && Runs(Step(s, events[0]), events[1..]))
  }

  ghost function AfterRun(s: Engine, events: seq<Event>): Engine
    requires Runs(s, events)
    decreases events
  {
    if events == [] then s else AfterRun(Step(s, events[0]), events[1..])
  }

  lemma {:induction false} RunInv(s: Engine, events: seq<Event>)
    requires Inv(s) && Runs(s, events)
    ensures Inv(AfterRun(s, events))
    decreases events
  {
    hide Inv, Enabled, Step;
    if events != [] {
      EnabledIsPossible(s, events[0]);
      StepInv(s, events[0]);
      RunInv(Step(s, events[0]), events[1..]);
    }
  }

  // ------------------------------------------------------------ the order of effects

  /** The requests in effect: those in memory, and those acknowledged whose call has not changed memory yet. */
  ghost function Effects(s: Engine): set<GC.Request> {
    s.live + s.sure
  }

  /** The one map that all calls act on. */
  ghost function Abstract(s: Engine): Store {
    Live(s.order, Effects(s))
  }

  /** The event is an acknowledgement. */
  predicate IsAck(e: Event) {
    e.Writer? && e.e.Ack?
  }

  /**
   * Exactly one kind of event changes the abstract map while the store runs: the
   * acknowledgement of a request, which applies that one request. A crash takes no
   * acknowledged request away. The history is only ever extended.
   */
  lemma EffectsStep(s: Engine, e: Event)
    requires Inv(s) && Enabled(s, e)
    ensures s.order <= Step(s, e).order && s.sure <= Step(s, e).sure && s.nextId <= Step(s, e).nextId
    ensures IsAck(e) ==> s.log.batch != [] && Step(s, e).sure == s.sure + {s.log.batch[0]}
                         && Abstract(Step(s, e)) == Apply(Abstract(s), s.log.batch[0].op)
    ensures !IsAck(e) ==> Step(s, e).sure == s.sure
    ensures !IsAck(e) && !e.Crash? ==> Abstract(Step(s, e)) == Abstract(s)
    ensures e.Crash? ==> s.sure <= Step(s, e).live
  {
    hide Inv, Apply, Abstract, Aligned, CanCall, CanWrite, CanAct, CanCrash, DoCall, DoWrite, DoAct, DoCrash;
    match e
    case Foreground(t, call) => CallEffects(s, t, call);
    case Writer(g) => WriterEffects(s, g);
    case Background(t, action) => ActEffects(s, t, action);
    case Crash(loss, image, snap) => CrashEffects(s, loss, image, snap);
  }

  lemma CallEffects(s: Engine, t: nat, call: Call)
    requires Inv(s) && CanCall(s, t, call)
    ensures var m := DoCall(s, t, call);
            m.order == s.order && m.sure == s.sure && Abstract(m) == Abstract(s) && s.nextId <= m.nextId
  {
    hide Inv, Apply, CanAppend, DoAppend, OthersKeepLocks, Live, SameLog, Exclusive;
    if call.Append? {
      AppendMove(s, t);
    } else if call.Mutate? {
      LoggedIsSure(s, t);
      assert Effects(DoMutate(s, t)) == Effects(s);
    }
  }

  lemma LoggedIsSure(s: Engine, t: nat)
    requires Inv(s) && PcOf(s, t).Logged?
    ensures PcOf(s, t).r in s.sure
  {
    hide GC.Inv, Numbers, Queued, Account, Ordered, Memory, LogOk, Snapshots, Stale, Past, AdminOk, GC.Fresh;
    assert ThreadOk(s, t);
  }

  lemma WriterEffects(s: Engine, g: GC.Event)
    requires Inv(s) && CanWrite(s, g)
    ensures var m := DoWrite(s, g);
            && s.order <= m.order && s.sure <= m.sure && m.nextId == s.nextId
            && (g.Ack? ==> s.log.batch != [] && m.sure == s.sure + {s.log.batch[0]}
                           && Abstract(m) == Apply(Abstract(s), s.log.batch[0].op))
            && (!g.Ack? ==> m.sure == s.sure && Abstract(m) == Abstract(s))
  {
    hide Inv, GC.Inv, GC.Enabled, GC.Step, Apply, Live, Advance, Threads, Numbers, Queued, Account, Ordered,
      Memory, LogOk, Snapshots, Stale, Past;
    InvParts(s);
    WriteMoves(s, g);
    var m := DoWrite(s, g);
    if g.Ack? {
      AckEffects(s);
    } else {
      AllInHistory(s);
      HistoryKept(s, m, Effects(s));
    }
  }

  lemma AllInHistory(s: Engine)
    requires Account(s)
    ensures Subset(Effects(s), s.order)
  {
  }

  /** The acknowledged request takes effect last on its key: its call still holds the shard. */
  lemma AckEffects(s: Engine)
    requires Inv(s) && CanWrite(s, GC.Ack)
    ensures s.log.batch != []
    ensures Live(s.order, Effects(s) + {s.log.batch[0]}) == Apply(Live(s.order, Effects(s)), s.log.batch[0].op)
    ensures DoWrite(s, GC.Ack).order == s.order && DoWrite(s, GC.Ack).live == s.live
    ensures Effects(DoWrite(s, GC.Ack)) == Effects(s) + {s.log.batch[0]}
  {
    hide Inv, GC.Inv, Apply, Live, Threads, Bounded, GC.Distinct, LogOk, Snapshots, Stale, Past, Memory, GC.EndOf,
      InOrder;
    InvParts(s);
    StepAck(s.log);
    LogInOrder(s);
    var r := s.log.batch[0];
    assert r in s.log.batch && Underway(s, r);
    RecordInOrder(s, s.log.acked);
    var p := Place(s.order, r);
    LiveInsert(s.order, Effects(s), p);
  }

  lemma RecordInOrder(s: Engine, i: nat)
    requires InOrder(s.order, s.log.records, s.start) && i < |s.log.records|
    ensures s.log.records[i] in s.order
  {
  }

  lemma ActEffects(s: Engine, t: nat, action: Action)
    requires CanAct(s, t, action)
    ensures var m := DoAct(s, t, action);
            m.order == s.order && m.sure == s.sure && Abstract(m) == Abstract(s) && m.nextId == s.nextId
  {
    hide CanAct, DoAct, Live, HasRequest;
    ActMoves(s, t, action);
  }

  lemma CrashEffects(s: Engine, loss: bool, im: Image, p: Snap)
    requires Inv(s) && CanCrash(s, loss, im, p) && Aligned(im, p)
    ensures var m := DoCrash(s, loss, im, p);
            && m.order == s.order && m.sure == s.sure && m.nextId == s.nextId
            && m.live == RecoveredSet(s, im, p) && s.sure <= m.live
  {
    hide Inv, GC.Inv, Threads, Numbers, Queued, Account, Ordered, Memory, LogOk, Snapshots, Stale, Past, Paired,
      MayLeave, Recover, RecoveredSet, Reopened, Settles, StoreOf, OffsetOf, Aligned;
    InvParts(s);
    LeftArePaired(s, loss, im, p);
    SureSurvive(s, im, p);
  }

  lemma {:induction false} EffectsRun(s: Engine, events: seq<Event>)
    requires Inv(s) && Runs(s, events)
    ensures s.order <= AfterRun(s, events).order && s.sure <= AfterRun(s, events).sure
            && s.nextId <= AfterRun(s, events).nextId
    decreases events
  {
    hide Inv, Enabled, Step;
    if events != [] {
      EnabledIsPossible(s, events[0]);
      StepInv(s, events[0]);
      EffectsStep(s, events[0]);
      EffectsRun(Step(s, events[0]), events[1..]);
    }
  }

  lemma EnabledIsPossible(s: Engine, e: Event)
    requires Enabled(s, e)
    ensures Possible(s, e)
  {
    hide Possible;
  }
}
