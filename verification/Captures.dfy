/**
 * What a checkpoint, save or compaction copies. While no write has failed since the
 * current log was started, memory is the replay of the log over one map, and every
 * snapshot is the replay of the records it covers.
 */
module Captures {
  import opened Record
  import opened Replay
  import opened Snapshot
  import opened Recovery
  import opened Histories
  import opened Engine
  import opened EngineInv
  import opened EngineCalls
  import opened EngineWriter
  import opened EngineRestart
  import opened Durability
  import opened Guarantees
  import Wal
  import GC = GroupCommit

  /** The map after the first `n` records of the current log. */
  ghost function MapAt(s: Engine, n: nat): Store
    requires n <= |s.log.records|
  {
    ApplyAll(s.base, GC.Ops(s.log.records[..n]))
  }

  ghost predicate SavedAt(s: Engine, store: Store, cover: nat) {
    cover <= s.log.acked <= |s.log.records| && store == MapAt(s, cover)
  }

  ghost predicate CopiesAt(s: Engine) {
    forall t :: t in s.threads && s.threads[t].Admin? && HasCopy(s.threads[t].stage) ==>
      SavedAt(s, s.threads[t].stage.copy.store, s.threads[t].stage.copy.cover)
  }

  ghost predicate SnapsAt(s: Engine) {
    forall p :: p in s.durable ==> SavedAt(s, StoreOf(p), p.cover)
  }

  ghost predicate Plain(s: Engine) {
    s.plain ==>
      && SavedAt(s, Abstract(s), s.log.acked) && CopiesAt(s) && SnapsAt(s)
      && (s.log.failed ==> s.log.records == [] && s.log.file == [])
  }

  // ------------------------------------------------------------ steps that leave the log's records alone

  lemma SavedSame(s: Engine, m: Engine, store: Store, cover: nat)
    requires SavedAt(s, store, cover) && m.base == s.base && m.log.records == s.log.records
             && m.log.acked == s.log.acked
    ensures SavedAt(m, store, cover)
  {
    hide ApplyAll;
  }

  /** Nothing that matters here changed but, perhaps, the stage of one thread. */
  lemma PlainSame(s: Engine, m: Engine, t: nat, pc: Pc)
    requires Plain(s) && m.plain == s.plain && m.base == s.base && Abstract(m) == Abstract(s)
    requires m.log.records == s.log.records && m.log.acked == s.log.acked && m.log.failed == s.log.failed
             && m.log.file == s.log.file
    requires m.threads == s.threads[t := pc]
    requires pc.Admin? && HasCopy(pc.stage) ==>
               s.plain ==> SavedAt(s, pc.stage.copy.store, pc.stage.copy.cover)
    requires s.plain ==> SnapsAt(m)
    ensures Plain(m)
  {
    hide SavedAt, Abstract, StoreOf;
    if s.plain {
      SavedSame(s, m, Abstract(s), s.log.acked);
      forall u | u in m.threads && m.threads[u].Admin? && HasCopy(m.threads[u].stage)
        ensures SavedAt(m, m.threads[u].stage.copy.store, m.threads[u].stage.copy.cover)
      {
        SavedSame(s, m, m.threads[u].stage.copy.store, m.threads[u].stage.copy.cover);
      }
    }
  }

  lemma SnapsSame(s: Engine, m: Engine)
    requires SnapsAt(s) && m.durable <= s.durable && m.base == s.base
    requires m.log.records == s.log.records && m.log.acked == s.log.acked
    ensures SnapsAt(m)
  {
    hide SavedAt, StoreOf;
    forall p | p in m.durable
      ensures SavedAt(m, StoreOf(p), p.cover)
    {
      SavedSame(s, m, StoreOf(p), p.cover);
    }
  }

  lemma CallPlain(s: Engine, t: nat, call: Call)
    requires Inv(s) && Plain(s) && CanCall(s, t, call)
    ensures Plain(DoCall(s, t, call))
  {
    hide Inv, Plain, Abstract, CanCall, DoCall, SnapsAt;
    var m := DoCall(s, t, call);
    CallEffects(s, t, call);
    CallFrame(s, t, call);
    if s.plain {
      PlainParts(s);
      SnapsSame(s, m);
    }
    PlainSame(s, m, t, PcOf(m, t));
  }

  lemma PlainParts(s: Engine)
    requires Plain(s) && s.plain
    ensures SavedAt(s, Abstract(s), s.log.acked) && CopiesAt(s) && SnapsAt(s)
    ensures s.log.failed ==> s.log.records == [] && s.log.file == []
  {
  }

  lemma CallFrame(s: Engine, t: nat, call: Call)
    requires CanCall(s, t, call)
    ensures var m := DoCall(s, t, call);
            && m.plain == s.plain && m.base == s.base && m.durable == s.durable && SameLog(s.log, m.log)
            && m.threads == s.threads[t := PcOf(m, t)] && !PcOf(m, t).Admin?
  {
    hide Apply, CanAppend, DoAppend, OthersKeepLocks, Exclusive;
    if call.Append? { AppendMove(s, t); }
  }

  // ------------------------------------------------------------ the writer

  lemma SavedGrown(s: Engine, m: Engine, store: Store, cover: nat)
    requires WriterMove(s, m) && SavedAt(s, store, cover)
    ensures SavedAt(m, store, cover)
  {
    hide ApplyAll, GC.EndOf;
    assert m.log.records[..cover] == s.log.records[..cover];
  }

  /** One more acknowledged record is one more operation on the map. */
  lemma SavedOneMore(s: Engine, m: Engine, store: Store)
    requires WriterMove(s, m) && SavedAt(s, store, s.log.acked) && m.log.acked == s.log.acked + 1 <= |s.log.records|
    ensures SavedAt(m, Apply(store, s.log.records[s.log.acked].op), m.log.acked)
  {
    hide ApplyAll, Acks, Apply;
    var n, r := s.log.acked, s.log.records[s.log.acked];
    assert m.log.records[..n + 1] == s.log.records[..n] + [r];
    GC.OpsAppend(s.log.records[..n], [r]);
    assert GC.Ops([r]) == [r.op];
    ApplyAppend(s.base, GC.Ops(s.log.records[..n]), [r.op]);
    ApplyOne(store, r.op);
  }

  lemma WriterPlain(s: Engine, g: GC.Event)
    requires Inv(s) && Plain(s) && CanWrite(s, g)
    ensures Plain(DoWrite(s, g))
  {
    hide Inv, GC.Inv, Threads, Numbers, Queued, Account, Ordered, Memory, LogOk, Snapshots, Stale, Past, SavedAt,
      Abstract, CanWrite, DoWrite, Advance, StoreOf;
    var m := DoWrite(s, g);
    InvParts(s);
    WriteMoves(s, g);
    WriterEffects(s, g);
    WriterFrame(s, g);
    if m.plain {
      if g.Ack? { SavedOneMore(s, m, Abstract(s)); } else { SavedGrown(s, m, Abstract(s), s.log.acked); }
      forall u | u in m.threads && m.threads[u].Admin? && HasCopy(m.threads[u].stage)
        ensures SavedAt(m, m.threads[u].stage.copy.store, m.threads[u].stage.copy.cover)
      {
        SavedGrown(s, m, m.threads[u].stage.copy.store, m.threads[u].stage.copy.cover);
      }
      forall p | p in m.durable
        ensures SavedAt(m, StoreOf(p), p.cover)
      {
        SavedGrown(s, m, StoreOf(p), p.cover);
      }
    }
  }

  lemma WriterFrame(s: Engine, g: GC.Event)
    requires CanWrite(s, g) && GC.Inv(s.log)
    ensures var m := DoWrite(s, g);
            && (m.plain ==> s.plain)
            && (m.plain && m.log.failed ==> s.log.failed && m.log.records == s.log.records && m.log.file == s.log.file)
            && (g.Ack? ==> m.log.acked == s.log.acked + 1 <= |s.log.records| && s.log.batch != []
                           && s.log.records[s.log.acked] == s.log.batch[0])
            && (!g.Ack? ==> m.log.acked == s.log.acked)
  {
    hide LogBytes, BoundaryOf, Bounded, GC.Completions, GC.Contents, GC.AcceptedBounded, GC.Durable, Wal.Emission,
      GC.IsBatch;
  }

  // ------------------------------------------------------------ captures, publication, rotation

  lemma ActPlain(s: Engine, t: nat, action: Action)
    requires Inv(s) && Plain(s) && CanAct(s, t, action)
    ensures Plain(DoAct(s, t, action))
  {
    hide Inv, Plain, Abstract, CanTruncate, DoTruncate, CanRename, DoRename, CanAct, DoAct, SnapsAt, CopiesAt, CopyFor,
      HasRequest, CouldCopy;
    ActMoves(s, t, action);
    if action.Truncate? {
      TruncatePlain(s, t);
    } else {
      var m := DoAct(s, t, action);
      ActEffects(s, t, action);
      if s.plain {
        PlainParts(s);
        if action.CopyAll? { CopyIs(s, t); CopyPlain(s, t); }
        if action.Rename? { RenamePlain(s, t); } else { DurableShrinks(s, t, action); SnapsSame(s, m); }
        CopyStays(s, t, action);
      }
      PlainSame(s, m, t, PcOf(m, t));
    }
  }

  lemma CopyIs(s: Engine, t: nat)
    requires CanAct(s, t, CopyAll)
    ensures CouldCopy(s, t)
  {
    hide CouldCopy;
  }

  lemma DurableShrinks(s: Engine, t: nat, action: Action)
    requires Inv(s) && CanAct(s, t, action) && !action.Rename? && !action.Truncate?
    ensures DoAct(s, t, action).durable <= s.durable
  {
    hide GC.Inv, Threads, Numbers, Queued, Account, Ordered, Memory, LogOk, Stale, Past, SnapOk, CanAct, DoAct;
    ActMoves(s, t, action);
  }

  /** A step that is no capture leaves the copy as it was. */
  lemma CopyStays(s: Engine, t: nat, action: Action)
    requires CopiesAt(s) && CanAct(s, t, action) && !action.Truncate?
    requires action.CopyAll? ==> SavedAt(s, CopyFor(s, PcOf(s, t).kind).store, CopyFor(s, PcOf(s, t).kind).cover)
    ensures var pc := PcOf(DoAct(s, t, action), t);
            pc.Admin? && HasCopy(pc.stage) ==> SavedAt(s, pc.stage.copy.store, pc.stage.copy.cover)
  {
    hide SavedAt, CopyFor, Enumerates, Encodable, SnapshotBytes, LoadOf, WithoutOwner, ImagesOf;
  }

  /** A capture copies the map after exactly the records of the log. */
  lemma CopyPlain(s: Engine, t: nat)
    requires Inv(s) && s.plain && SavedAt(s, Abstract(s), s.log.acked) && CouldCopy(s, t)
    requires s.log.failed ==> s.log.records == [] && s.log.file == []
    ensures var c := CopyFor(s, PcOf(s, t).kind);
            SavedAt(s, c.store, c.cover) && c.cover == s.log.acked && s.mem == Abstract(s) && Quiet(s)
  {
    hide Inv, GC.Inv, Threads, Numbers, Queued, Ordered, LogOk, Snapshots, Stale, Past, Live, SavedAt, LogBytes,
      ReplayFrom, RequestOk, CopyOk, Holds;
    InvParts(s);
    ThreadHolds(s, t);
    QuietWhenHeld(s, t);
    assert Effects(s) == s.live;
    if s.log.failed { EmptyReplay(); } else { RestingFile(s); }
  }

  lemma RenamePlain(s: Engine, t: nat)
    requires Inv(s) && CopiesAt(s) && SnapsAt(s) && CanRename(s, t)
    ensures SnapsAt(DoRename(s, t))
  {
    hide Inv, SavedAt, StoreOf, Holds, CopyOk, RequestOk;
    var m := DoRename(s, t);
    ThreadsHold(s);
    assert ThreadOk(s, t);
    OffsetHeld(m.visible, PcOf(s, t).stage.copy.store, PcOf(s, t).stage.copy.offset);
    forall p | p in m.durable
      ensures SavedAt(m, StoreOf(p), p.cover)
    {
      SavedSame(s, m, StoreOf(p), p.cover);
    }
  }

  /** After a rotation the log is empty and starts from the map that was saved. */
  lemma TruncatePlain(s: Engine, t: nat)
    requires Inv(s) && CanTruncate(s, t)
    ensures Plain(DoTruncate(s, t))
  {
    hide Inv, GC.Inv, Threads, Numbers, Queued, Account, Ordered, LogOk, Snapshots, Stale, Past, Live, LogBytes,
      CopyOk, Holds, StoreOf, LoadOf, ImagesOf, HoldsAll, Memory, RequestOk, AdminOk;
    InvParts(s);
    ReadyToTruncate(s, t);
    var m := DoTruncate(s, t);
    NoOtherAdmin(s, t);
    MemoryIsAbstract(s);
    OffsetHeld(m.visible, s.mem, 0);
    assert GC.Ops(m.log.records[..0]) == [];
  }

  lemma MemoryIsAbstract(s: Engine)
    requires Memory(s) && Quiet(s)
    ensures s.mem == Abstract(s) && Effects(s) == s.live
  {
    hide Live, LogBytes;
    assert Effects(s) == s.live;
  }

  // ------------------------------------------------------------ crashes

  lemma CrashPlain(s: Engine, loss: bool, im: Image, p: Snap)
    requires Inv(s) && Plain(s) && CanCrash(s, loss, im, p) && Aligned(im, p)
    ensures Plain(DoCrash(s, loss, im, p))
  {
    hide Inv, Plain, Aligned, Numbers, Paired, RecoveredSet, Recover, Live, ApplyAll, StoreOf, OffsetOf,
      KeptRecords, Settles, CutBack, MayLeave, Survivors, SnapsAt, Abstract, GC.Inv, Threads, Queued, Account,
      Ordered, Memory, LogOk, Snapshots, Stale, Past;
    var m := DoCrash(s, loss, im, p);
    InvParts(s);
    CrashLeaves(s, loss, im, p);
    LeftArePaired(s, loss, im, p);
    CrashEffects(s, loss, im, p);
    RestartedMap(s, loss, im, p);
    if loss && OffsetOf(p) == 0 {
      RebasedPlain(s, m, loss, im, p);
    } else if m.plain {
      SameBasePlain(s, m, loss, im, p);
    } else {
      NotPlain(m);
    }
  }

  lemma NotPlain(m: Engine)
    requires !m.plain
    ensures Plain(m)
  {
  }

  /** What recovery leaves in memory, in terms of the two files. */
  lemma RestartedMap(s: Engine, loss: bool, im: Image, p: Snap)
    requires Numbers(s) && Paired(s, im, p) && CanCrash(s, loss, im, p) && s.sure <= RecoveredSet(s, im, p)
    ensures var m := DoCrash(s, loss, im, p);
            && From(p) <= Survivors(im) <= |im.records| && m.log.records == im.records[..Survivors(im)]
            && m.log.acked == Survivors(im) && !m.log.failed && m.threads == map[]
            && Abstract(m) == ApplyAll(StoreOf(p), GC.Ops(im.records[From(p)..Survivors(im)]))
  {
    hide LogBytes, Survivors, BoundaryOf, GoodImage, Covers, Holds, Live, OffsetOf, ReplayFrom, ApplyAll, Recover,
      ReplayedRecords, KeptRecords, RecoveredSet, StoreOf, MayLeave, Settles, CutBack, InOrder;
    var m := DoCrash(s, loss, im, p);
    PairReplays(s, im, p);
    PairRecovers(s, im, p);
    KeptAre(im);
    OffsetHeld(p, Live(s.order, p.saved), OffsetOf(p));
    assert Effects(m) == m.live;
  }

  lemma RebasedPlain(s: Engine, m: Engine, loss: bool, im: Image, p: Snap)
    requires CanCrash(s, loss, im, p) && m == DoCrash(s, loss, im, p) && loss && OffsetOf(p) == 0
    requires Survivors(im) <= |im.records| && m.log.records == im.records[..Survivors(im)]
             && m.log.acked == Survivors(im)
    requires !m.log.failed && m.threads == map[]
    requires Abstract(m) == ApplyAll(StoreOf(p), GC.Ops(im.records[0..Survivors(im)]))
    ensures Plain(m)
  {
    hide Survivors, OffsetOf, ApplyAll, Recover, RecoveredSet, StoreOf, MayLeave, Settles, CutBack, Abstract, Reopened;
    var q := p.(cover := 0);
    SameStore(p);
    assert GC.Ops(m.log.records[..0]) == [];
    ApplyNone(StoreOf(p));
    assert m.log.records[..m.log.acked] == im.records[0..Survivors(im)];
  }

  lemma SameStore(p: Snap)
    ensures StoreOf(p.(cover := 0)) == StoreOf(p)
  {
  }

  /** A restart over the same map: replaying past the snapshot, or all over it, gives the surviving records. */
  lemma SameBasePlain(s: Engine, m: Engine, loss: bool, im: Image, p: Snap)
    requires Inv(s) && Plain(s) && s.plain && CanCrash(s, loss, im, p) && Aligned(im, p) && m == DoCrash(s, loss, im, p)
    requires !(loss && OffsetOf(p) == 0) && !(loss && im in s.stale) && Paired(s, im, p)
    requires From(p) <= Survivors(im) <= |im.records| && m.log.records == im.records[..Survivors(im)]
             && m.log.acked == Survivors(im)
    requires !m.log.failed && m.threads == map[]
    requires Abstract(m) == ApplyAll(StoreOf(p), GC.Ops(im.records[From(p)..Survivors(im)]))
    ensures Plain(m)
  {
    hide Inv, Plain, Survivors, OffsetOf, ApplyAll, Recover, RecoveredSet, StoreOf, Settles, CutBack, Abstract,
      Reopened, Aligned, Paired, MapAt, GC.Inv;
    PlainParts(s);
    CrashLeaves(s, loss, im, p);
    SameLogLeft(s, loss, im, p);
    var k := Survivors(im);
    if !loss { AckedSurvive(s, im); }
    assert p.cover <= k;
    RestartMapAt(s, m, p, k);
    forall q | q in m.durable
      ensures SavedAt(m, StoreOf(q), q.cover)
    {
      MapStays(s, m, q.cover);
    }
    PlainWhole(m);
  }

  lemma PlainWhole(m: Engine)
    requires SavedAt(m, Abstract(m), m.log.acked) && CopiesAt(m) && SnapsAt(m) && !m.log.failed
    ensures Plain(m)
  {
  }

  /** Unless a truncation is undone, it is the current log that is found. */
  lemma SameLogLeft(s: Engine, loss: bool, im: Image, p: Snap)
    requires Inv(s) && MayLeave(s, loss, im, p) && Aligned(im, p)
    requires !(loss && OffsetOf(p) == 0) && !(loss && im in s.stale)
    ensures im.records == s.log.records && p in s.durable && (loss ==> p.cover <= |s.log.records| && From(p) == p.cover)
    ensures !loss ==> im == Current(s)
  {
    hide Inv, GC.Inv, Threads, Numbers, Queued, Account, Ordered, Memory, LogOk, Snapshots, Stale, Past, Live, Holds,
      BoundaryOf, OffsetOf, WholeRecords, EndsWhole;
    InvParts(s);
    var q := LeftSnap(s, loss, im, p);
    if loss {
      LeftIsOk(s, loss, im, p);
      BoundaryIsWhole(im, OffsetOf(q), q.cover);
    }
  }

  lemma AckedSurvive(s: Engine, im: Image)
    requires Inv(s) && im == Current(s) && Survivors(im) <= |im.records|
    ensures s.log.acked <= Survivors(im)
  {
    hide Inv, Survivors, BoundaryOf, LogBytes, GC.Pipeline, GC.Completions, GC.AcceptedBounded, GC.Contents,
      Threads, Numbers, Queued, Account, Ordered, Memory, Snapshots, Stale, Past, GoodImage, ImageOk;
    InvParts(s);
    if s.log.acked > 0 {
      FrameSurvives(im, s.log.acked - 1);
    }
  }

  lemma RestartMapAt(s: Engine, m: Engine, p: Snap, k: nat)
    requires SavedAt(s, StoreOf(p), p.cover) && p.cover <= k <= |s.log.records| && m.base == s.base
    requires m.log.records == s.log.records[..k] && m.log.acked == k && From(p) <= p.cover
    requires OffsetOf(p) != 0 || s.log.acked <= k
    requires Abstract(m) == ApplyAll(StoreOf(p), GC.Ops(s.log.records[From(p)..k]))
    ensures SavedAt(m, Abstract(m), m.log.acked)
  {
    hide ApplyAll, StoreOf, OffsetOf, Abstract;
    var a, b := GC.Ops(s.log.records[..p.cover]), GC.Ops(s.log.records[p.cover..k]);
    assert s.log.records[..p.cover] + s.log.records[p.cover..k] == s.log.records[..k];
    GC.OpsAppend(s.log.records[..p.cover], s.log.records[p.cover..k]);
    assert m.log.records[..k] == s.log.records[..k];
    if OffsetOf(p) == 0 {
      assert s.log.records[0..k] == s.log.records[..k];
      ReplayAbsorbs(s.base, a, b);
    } else {
      ApplyAppend(s.base, a, b);
    }
  }

  lemma MapStays(s: Engine, m: Engine, cover: nat)
    requires m.base == s.base && cover <= |m.log.records| <= |s.log.records|
             && m.log.records == s.log.records[..|m.log.records|]
    ensures MapAt(m, cover) == MapAt(s, cover)
  {
    hide ApplyAll;
    assert m.log.records[..cover] == s.log.records[..cover];
  }

  // ------------------------------------------------------------ runs

  lemma StepPlain(s: Engine, e: Event)
    requires Inv(s) && Plain(s) && Enabled(s, e)
    ensures Plain(Step(s, e))
  {
    hide Inv, Plain, Aligned, CanCall, CanWrite, CanCrash, DoCall, DoWrite, DoAct, DoCrash;
    match e
    case Foreground(t, call) => CallPlain(s, t, call);
    case Writer(g) => WriterPlain(s, g);
    case Background(t, action) => ActPlain(s, t, action);
    case Crash(loss, image, snap) => CrashPlain(s, loss, image, snap);
  }

  /** A write fails, or a power loss brings back a truncated log under a snapshot of the log that followed it. */
  predicate Disturbs(s: Engine, e: Event) {
    (e.Writer? && e.e.Fail?) || (e.Crash? && e.loss && e.image in s.stale && OffsetOf(e.snap) != 0)
  }

  /** None of the events does. */
  ghost predicate Undisturbed(s: Engine, events: seq<Event>)
    requires Runs(s, events)
    decreases events
  {
    events == [] || (!Disturbs(s, events[0]) && Undisturbed(Step(s, events[0]), events[1..]))
  }

  lemma StepKeepsPlain(s: Engine, e: Event)
    requires Possible(s, e) && s.plain && !Disturbs(s, e)
    ensures Step(s, e).plain
  {
    hide CanAct, DoAct, CanCall, DoCall, GC.Step, GC.Enabled, Recover, RecoveredSet, Reopened, Settles, StoreOf,
      OffsetOf, MayLeave, HasRequest;
    if e.Foreground? { CallFrame(s, e.t, e.call); }
    if e.Background? { ActMoves(s, e.t, e.action); }
  }

  lemma {:induction false} RunPlain(s: Engine, events: seq<Event>)
    requires Inv(s) && Plain(s) && Runs(s, events)
    ensures Plain(AfterRun(s, events))
    ensures s.plain && Undisturbed(s, events) ==> AfterRun(s, events).plain
    decreases events
  {
    hide Inv, Plain, Enabled, Step, Disturbs;
    if events != [] {
      var e := events[0];
      EnabledIsPossible(s, e);
      StepInv(s, e);
      StepPlain(s, e);
      if s.plain && !Disturbs(s, e) { StepKeepsPlain(s, e); }
      RunPlain(Step(s, e), events[1..]);
    }
  }

  lemma InitialPlain(s: Engine)
    requires Initial(s)
    ensures Plain(s)
  {
    hide ApplyAll;
    assert GC.Ops(s.log.records[..0]) == [];
    ApplyNone(s.base);
    ApplyNone(map[]);
  }

  lemma ReachablePlain(s: Engine)
    requires Reachable(s)
    ensures Inv(s) && Plain(s)
  {
    hide Inv, Plain, Initial, Runs, AfterRun;
    var start, events :| Initial(start) && Runs(start, events) && s == AfterRun(start, events);
    InitialInv(start);
    InitialPlain(start);
    RunInv(start, events);
    RunPlain(start, events);
  }

  /** In a run that nothing disturbs, no state is marred by a failure. */
  lemma FailureFree(start: Engine, events: seq<Event>)
    requires Initial(start) && Runs(start, events) && Undisturbed(start, events)
    ensures AfterRun(start, events).plain
  {
    hide Inv, Plain, Runs, AfterRun, Undisturbed;
    InitialInv(start);
    InitialPlain(start);
    RunPlain(start, events);
  }

  /**
   * When a capture holds every lock and no write has failed since the log was started, the
   * map it copies is what replaying exactly the bytes of the log file gives, over the map the
   * log started from; and it is what every snapshot that a crash may leave gives together
   * with that file.
   */
  lemma CaptureIsReplay(s: Engine, t: nat, p: Snap)
    requires Reachable(s) && CouldCopy(s, t) && s.plain && p in s.durable
    ensures s.mem == ApplyAll(s.base, ReplayFrom(s.log.file, 0).ops) == Abstract(s)
    ensures Recover(p.bytes, s.log.file) == Ok(s.mem)
    ensures s.log.file != [] ==> |s.log.file| == GC.EndOf(s.log, |s.log.records|)
  {
    hide Reachable, Inv, Plain, Abstract, Quiet, Recover, ApplyAll, ReplayFrom, GC.EndOf, StoreOf, OffsetOf,
      GC.Inv, Threads, Numbers, Queued, Account, Ordered, Memory, LogOk, Snapshots, Stale, Past, LogBytes;
    ReachablePlain(s);
    PlainParts(s);
    InvParts(s);
    CopyPlain(s, t);
    AtRest(s);
    WholeReplay(s, p);
    if s.log.file != [] { EndOfFile(s); }
  }

  lemma AtRest(s: Engine)
    requires GC.Inv(s.log) && Quiet(s) && (s.log.failed ==> s.log.records == [] && s.log.file == [])
    ensures s.log.acked == |s.log.records| && ReplayFrom(s.log.file, 0).ops == GC.Ops(s.log.records)
    ensures s.log.file != [] ==> !s.log.failed
  {
    hide GC.Inv, LogBytes, ReplayFrom;
    if s.log.failed {
      EmptyReplay();
      assert GC.Ops(s.log.records) == [];
      FoundFew(s.log);
    } else {
      RestingFile(s);
    }
  }

  lemma FoundFew(l: GC.Log)
    requires GC.Inv(l)
    ensures l.acked <= |l.records|
  {
    hide LogBytes, BoundaryOf, Bounded, GC.Completions, GC.Contents, GC.AcceptedBounded, GC.Durable;
  }

  lemma EndOfFile(s: Engine)
    requires Quiet(s) && !s.log.failed && s.log.file != []
    ensures |s.log.file| == GC.EndOf(s.log, |s.log.records|)
  {
    hide LogBytes, BoundaryOf;
    GC.EndOfAll(s.log);
  }

  /** Snapshot and log together give the map after all records. */
  lemma WholeReplay(s: Engine, p: Snap)
    requires Inv(s) && SavedAt(s, Abstract(s), s.log.acked) && SnapsAt(s) && p in s.durable
    requires s.log.acked == |s.log.records| && s.mem == Abstract(s)
    ensures Recover(p.bytes, s.log.file) == Ok(s.mem)
    ensures s.mem == ApplyAll(s.base, GC.Ops(s.log.records))
  {
    hide Inv, Abstract, Recover, ApplyAll, ReplayFrom, StoreOf, OffsetOf, GC.Inv, Threads, Numbers, Queued,
      Account, Ordered, Memory, LogOk, Snapshots, Stale, Past, Paired, Survivors, Live, BoundaryOf;
    InvParts(s);
    OthersPaired(s, p);
    var im, n := Current(s), |s.log.records|;
    PairReplays(s, im, p);
    AckedSurvive(s, im);
    PairStore(s, im, p);
    assert s.log.records[..n] == s.log.records;
    ReplayToEnd(s, p);
  }

  lemma PairStore(s: Engine, im: Image, p: Snap)
    requires Paired(s, im, p)
    ensures StoreOf(p) == Live(s.order, p.saved) && (From(p) == 0 || From(p) == p.cover)
            && (OffsetOf(p) != 0 ==> From(p) == p.cover)
  {
    hide Live, Holds, StoreOf, OffsetOf, ImageOk, BoundaryOf;
    OffsetHeld(p, Live(s.order, p.saved), OffsetOf(p));
  }

  lemma ReplayToEnd(s: Engine, p: Snap)
    requires SavedAt(s, StoreOf(p), p.cover) && (From(p) == 0 || From(p) == p.cover)
    ensures ApplyAll(StoreOf(p), GC.Ops(s.log.records[From(p)..|s.log.records|])) == ApplyAll(s.base, GC.Ops(s.log.records))
  {
    hide ApplyAll, StoreOf, OffsetOf;
    var n := |s.log.records|;
    var a, b := s.log.records[..p.cover], s.log.records[p.cover..n];
    assert a + b == s.log.records;
    GC.OpsAppend(a, b);
    if From(p) == 0 {
      assert s.log.records[0..n] == s.log.records;
      ReplayAbsorbs(s.base, GC.Ops(a), GC.Ops(b));
    } else {
      ApplyAppend(s.base, GC.Ops(a), GC.Ops(b));
    }
  }
}
