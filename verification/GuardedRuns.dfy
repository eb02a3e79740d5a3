/**
 * A condition on captures alone: if every save and checkpoint finds the log synced to
 * its end, no restart can ever find a snapshot offset beyond the log.
 */
module GuardedRuns {
  import opened Record
  import opened Replay
  import opened ReplayLaws
  import opened Snapshot
  import opened Recovery
  import opened Histories
  import opened Engine
  import opened EngineInv
  import opened EngineCalls
  import opened EngineWriter
  import opened EngineRestart
  import opened Durability
  import opened Guarantees
  import opened Captures
  import Wal
  import GC = GroupCommit

  /** What a save or checkpoint checks before it copies, if the policy syncs: that the log is synced to its end. */
  predicate Guarded(s: Engine, kind: Kind) {
    kind == Compact || s.log.policy == Wal.Buffered || |s.log.file| <= s.log.synced
  }

  /** Nothing is published, or about to be, with an offset past what is synced. */
  ghost predicate Anchored(s: Engine) {
    s.log.policy != Wal.Buffered ==>
      && (forall p :: p in s.durable ==> OffsetOf(p) <= s.log.synced)
      && (forall t :: t in s.threads && s.threads[t].Admin? && HasCopy(s.threads[t].stage) ==>
            s.threads[t].stage.copy.offset <= s.log.synced)
  }

  /** Whatever a crash leaves then passes the restart check. */
  lemma AnchoredAligned(s: Engine, loss: bool, image: Image, p: Snap)
    requires Inv(s) && Anchored(s) && MayLeave(s, loss, image, p)
    ensures Aligned(image, p)
  {
    hide Inv, GC.Inv, Threads, Numbers, Queued, Account, Ordered, Memory, LogOk, Snapshots, Past, SnapOk, OffsetOf,
      GoodImage, InOrder, Covers, BoundaryOf, EndsWhole, WholeRecords;
    InvParts(s);
    var q := LeftSnap(s, loss, image, p);
    LeftIsOk(s, loss, image, p);
    SnapInLog(s, image, q);
  }

  lemma SnapInLog(s: Engine, image: Image, q: Snap)
    requires SnapOk(s, q) && GoodImage(image)
    requires OffsetOf(q) != 0 ==> image.records == s.log.records
    requires OffsetOf(q) != 0 ==> OffsetOf(q) <= |image.bytes| || image.bytes == s.log.file
    ensures Aligned(image, q)
  {
    hide Live, Holds, OffsetOf, BoundaryOf, GoodImage, WholeRecords, ReplayFrom;
    if OffsetOf(q) != 0 { BoundaryIsWhole(image, OffsetOf(q), q.cover); }
  }

  lemma AnchoredSame(s: Engine, m: Engine, t: nat, pc: Pc)
    requires Anchored(s) && m.log.policy == s.log.policy && s.log.synced <= m.log.synced
             && m.threads == s.threads[t := pc]
    requires m.log.policy != Wal.Buffered ==> forall p :: p in m.durable ==> OffsetOf(p) <= s.log.synced
    requires m.log.policy != Wal.Buffered && pc.Admin? && HasCopy(pc.stage) ==> pc.stage.copy.offset <= s.log.synced
    ensures Anchored(m)
  {
    hide OffsetOf;
  }

  lemma CallAnchored(s: Engine, t: nat, call: Call)
    requires Anchored(s) && CanCall(s, t, call)
    ensures Anchored(DoCall(s, t, call))
  {
    hide CanCall, DoCall, OffsetOf;
    CallFrame(s, t, call);
    AnchoredSame(s, DoCall(s, t, call), t, PcOf(DoCall(s, t, call), t));
  }

  lemma WriterAnchored(s: Engine, g: GC.Event)
    requires Inv(s) && Anchored(s) && CanWrite(s, g)
    ensures Anchored(DoWrite(s, g))
  {
    hide Inv, GC.Inv, Threads, Numbers, Queued, Account, Ordered, Memory, LogOk, Snapshots, Stale, Past, CanWrite,
      DoWrite, Acks, OffsetOf;
    InvParts(s);
    WriteMoves(s, g);
  }

  lemma ActAnchored(s: Engine, t: nat, action: Action)
    requires Inv(s) && Anchored(s) && CanAct(s, t, action)
    requires action.CopyAll? ==> Guarded(s, PcOf(s, t).kind)
    ensures Anchored(DoAct(s, t, action))
  {
    hide Inv, CanTruncate, DoTruncate, CanRename, DoRename, CanAct, DoAct, OffsetOf, Guarded;
    var m := DoAct(s, t, action);
    ActMoves(s, t, action);
    if action.Truncate? {
      TruncateAnchored(s, t);
    } else if action.Rename? {
      RenameAnchored(s, t);
    } else {
      DurableShrinks(s, t, action);
      CopyAnchored(s, t, action);
      AnchoredSame(s, m, t, PcOf(m, t));
    }
  }

  /** A capture that is guarded records an offset within what is synced; other steps keep the copy. */
  lemma CopyAnchored(s: Engine, t: nat, action: Action)
    requires Anchored(s) && CanAct(s, t, action) && !action.Truncate?
    requires action.CopyAll? ==> Guarded(s, PcOf(s, t).kind)
    ensures var pc := PcOf(DoAct(s, t, action), t);
            s.log.policy != Wal.Buffered && pc.Admin? && HasCopy(pc.stage) ==> pc.stage.copy.offset <= s.log.synced
  {
    hide Enumerates, Encodable, SnapshotBytes, LoadOf, WithoutOwner, ImagesOf, OffsetOf, ReplayFrom;
  }

  lemma RenameAnchored(s: Engine, t: nat)
    requires Inv(s) && Anchored(s) && CanRename(s, t)
    ensures Anchored(DoRename(s, t))
  {
    hide Inv, Holds, CopyOk, RequestOk, OffsetOf;
    var m := DoRename(s, t);
    ThreadsHold(s);
    assert ThreadOk(s, t);
    OffsetHeld(m.visible, PcOf(s, t).stage.copy.store, PcOf(s, t).stage.copy.offset);
    AnchoredSame(s, m, t, PcOf(m, t));
  }

  lemma TruncateAnchored(s: Engine, t: nat)
    requires Inv(s) && CanTruncate(s, t)
    ensures Anchored(DoTruncate(s, t))
  {
    hide Inv, LoadOf, ImagesOf, Holds, CopyOk, RequestOk, AdminOk;
    ThreadsHold(s);
    NoOtherAdmin(s, t);
  }

  lemma CrashAnchored(s: Engine, loss: bool, im: Image, p: Snap)
    requires Inv(s) && Anchored(s) && CanCrash(s, loss, im, p) && Aligned(im, p)
    ensures Anchored(DoCrash(s, loss, im, p))
  {
    hide Inv, GC.Inv, Threads, Numbers, Queued, Account, Ordered, Memory, LogOk, Stale, Past, SnapOk, Paired,
      Recover, RecoveredSet, StoreOf, OffsetOf, KeptRecords, CutBack, Aligned, MayRemain, Settles;
    InvParts(s);
    LeftArePaired(s, loss, im, p);
    var m := DoCrash(s, loss, im, p);
    SamePlace(p);
    if loss { LossSettles(s, loss, im, p); }
    forall q | q in m.durable && OffsetOf(q) != 0
      ensures OffsetOf(q) <= |CutBack(im.bytes, OffsetOf(p))| && (!loss ==> q in s.durable)
    {
      if !loss { OthersPaired(s, q); }
      BoundaryKept(s, im, p, q);
    }
  }

  /** Every step that the code may take, with captures guarded. */
  ghost predicate GuardedStep(s: Engine, e: Event) {
    Possible(s, e) && (e.Background? && e.action.CopyAll? && PcOf(s, e.t).Admin? ==> Guarded(s, PcOf(s, e.t).kind))
  }

  ghost predicate GuardedRun(s: Engine, events: seq<Event>)
    decreases events
  {
    events == [] || (GuardedStep(s, events[0]) && GuardedRun(Step(s, events[0]), events[1..]))
  }

  ghost predicate Safe(s: Engine) {
    Inv(s) && Anchored(s)
  }

  lemma StepSafe(s: Engine, e: Event)
    requires Safe(s) && GuardedStep(s, e)
    ensures Enabled(s, e) && Safe(Step(s, e))
  {
    hide Inv, Anchored, Aligned, Guarded, CanCall, CanWrite, CanAct, CanCrash, DoCall, DoWrite, DoAct, DoCrash,
         GC.Inv, Threads, Numbers, Queued, Account, Ordered, Memory, LogOk, Snapshots, Stale, Past, Paired;
    InvParts(s);
    match e
    case Foreground(t, call) =>
      CallAnchored(s, t, call);
      StepInv(s, e);
    case Writer(g) =>
      WriterAnchored(s, g);
      StepInv(s, e);
    case Background(t, action) =>
      if action.CopyAll? { ActAdmin(s, t, action); }
      ActAnchored(s, t, action);
      StepInv(s, e);
    case Crash(loss, image, snap) =>
      CrashLeaves(s, loss, image, snap);
      AnchoredAligned(s, loss, image, snap);
      CrashAnchored(s, loss, image, snap);
      StepInv(s, e);
  }

  lemma ActAdmin(s: Engine, t: nat, action: Action)
    requires CanAct(s, t, action) && action.CopyAll?
    ensures PcOf(s, t).Admin?
  {
  }

  /**
   * If every capture is guarded, every restart passes its check, whatever crashes happen:
   * the run is one of those for which everything acknowledged is recovered.
   */
  lemma {:induction false} GuardedRunsAreSafe(s: Engine, events: seq<Event>)
    requires Safe(s) && GuardedRun(s, events)
    ensures Runs(s, events) && Safe(AfterRun(s, events))
    decreases events
  {
    hide Safe, GuardedStep, Enabled, Step;
    if events != [] {
      GuardedIsPossible(s, events[0]);
      StepSafe(s, events[0]);
      GuardedRunsAreSafe(Step(s, events[0]), events[1..]);
    }
  }

  lemma GuardedIsPossible(s: Engine, e: Event)
    requires GuardedStep(s, e)
    ensures Possible(s, e)
  {
    hide Possible, Guarded;
  }

  lemma InitialSafe(s: Engine)
    requires Initial(s)
    ensures Safe(s)
  {
    hide Inv;
    InitialInv(s);
  }

  /**
   * Over every run from an empty store in which captures are guarded, with process deaths
   * and power losses in any order: every crash is recovered from, with no further condition,
   * and every acknowledged request survives it.
   */
  lemma GuardedRecovery(start: Engine, events: seq<Event>, loss: bool, image: Image, p: Snap)
    returns (recovered: set<GC.Request>, end: nat)
    requires Initial(start) && GuardedRun(start, events)
    requires Runs(start, events) ==> MayLeave(AfterRun(start, events), loss, image, p)
    ensures Runs(start, events)
    ensures var s := AfterRun(start, events);
            && Recover(p.bytes, image.bytes) == Ok(Live(s.order, recovered))
            && s.sure <= recovered && Subset(recovered, s.order) && GC.Distinct(s.order)
            && (forall id :: id in s.returned ==> exists r :: r in recovered && r.id == id)
  {
    hide *;
    InitialSafe(start);
    GuardedRunsAreSafe(start, events);
    var s := AfterRun(start, events);
    SafeAligned(s, loss, image, p);
    AlignedIsClear(image, p);
    RunIsReachable(start, events);
    recovered, end := RecoveryRebuildsHistory(s, loss, image, p);
  }

  lemma SafeAligned(s: Engine, loss: bool, image: Image, p: Snap)
    requires Safe(s) && MayLeave(s, loss, image, p)
    ensures Aligned(image, p)
  {
    hide Inv, Anchored, MayLeave, Aligned;
    AnchoredAligned(s, loss, image, p);
  }

  lemma AlignedIsClear(image: Image, p: Snap)
    requires Aligned(image, p)
    ensures Clear(image, p)
  {
    hide Aligned;
  }

  lemma RunIsReachable(start: Engine, events: seq<Event>)
    requires Initial(start) && Runs(start, events)
    ensures Reachable(AfterRun(start, events))
  {
    hide Initial, Runs, AfterRun;
  }

  // ------------------------------------------------------------ when the checks hold by themselves

  /** A process death always leaves files that pass the restart check: only a power loss can fail it. */
  lemma ProcessDeathAligned(s: Engine, image: Image, p: Snap)
    requires Reachable(s) && MayLeave(s, false, image, p)
    ensures Aligned(image, p)
  {
    hide Reachable, Inv, GC.Inv, Threads, Numbers, Queued, Account, Ordered, Memory, Stale, Past, Live, Holds,
      BoundaryOf, OffsetOf, GoodImage, ImageOk, EndsWhole;
    ReachableInv(s);
    InvParts(s);
    assert SnapOk(s, p);
    SnapInLog(s, image, p);
  }

  /** Once a write has been acknowledged since the last restart, and the log has not failed, every capture is guarded. */
  lemma GuardedAfterWrite(s: Engine, t: nat)
    requires Reachable(s) && CouldCopy(s, t) && !s.log.failed && s.log.acked > s.log.found
    ensures Guarded(s, PcOf(s, t).kind)
  {
    hide Reachable, Inv, GC.Inv, GC.EndOf, Threads, Numbers, Queued, Account, Ordered, Memory, LogOk, Snapshots, Stale,
      Past, LogBytes, Quiet;
    ReachableInv(s);
    InvParts(s);
    ThreadHolds(s, t);
    QuietWhenHeld(s, t);
    SyncedToTheEnd(s);
  }

  lemma SyncedToTheEnd(s: Engine)
    requires GC.Inv(s.log) && Quiet(s) && !s.log.failed && s.log.acked > s.log.found
    ensures s.log.policy != Wal.Buffered ==> |s.log.file| <= s.log.synced
  {
    hide LogBytes, BoundaryOf, Bounded, GC.Completions, GC.Contents, GC.AcceptedBounded, GC.Pipeline;
    if s.log.file != [] { Captures.EndOfFile(s); }
  }

  // ------------------------------------------------------------ the guard is needed

  /**
   * Without the guard. A snapshot is on stable storage with the end of the log as its offset,
   * and the log is not synced to its end: a power loss may leave files that fail the restart
   * check. If the snapshot counts any record at all, a restart that goes ahead on the records
   * left will not always recover what is logged after it.
   */
  lemma UnguardedIsUnsafe(s: Engine, kind: Kind, p: Snap) returns (image: Image, k: nat)
    requires Reachable(s) && !Guarded(s, kind) && p in s.durable && OffsetOf(p) == |s.log.file|
    ensures MayLeave(s, true, image, Placed(image, p)) && !Aligned(image, Placed(image, p))
    ensures k <= |image.records| && k == Survivors(image)
    ensures OffsetOf(p) != HEADER_LENGTH ==>
              forall generation :: GenerationFits(generation) ==>
                !RecoversAlways(p.bytes, generation, GC.Ops(image.records)[..k], Live(s.order, p.saved))
  {
    hide Reachable, Inv, GC.Inv, Threads, Numbers, Queued, Account, Ordered, Memory, LogOk, Snapshots, Stale, Past,
      OffsetOf, Survivors, RecoversAlways, SnapOk, EndsWhole, WholeRecords, Live, GenerationFits, LogBytes;
    ReachableInv(s);
    InvParts(s);
    image := Current(s).(bytes := s.log.file[..s.log.synced]);
    SyncedIsThere(s.log);
    PlacedBeyond(image, p);
    k := Survivors(image);
    DurableOk(s, p);
    CurrentIsGood(s);
    ShorterIsGood(Current(s), s.log.synced);
    KeptAre(image);
    FewerLeft(s, image, p);
    if OffsetOf(p) != HEADER_LENGTH {
      forall generation | GenerationFits(generation)
        ensures !RecoversAlways(p.bytes, generation, GC.Ops(image.records)[..k], Live(s.order, p.saved))
      {
        NotAlways(s, image, p, k, generation);
      }
    }
  }

  lemma SyncedIsThere(l: GC.Log)
    requires GC.Inv(l)
    ensures l.synced <= |l.file|
  {
    hide LogBytes, BoundaryOf, Bounded, GC.Pipeline, GC.Completions, GC.Contents, GC.AcceptedBounded;
  }

  lemma PlacedBeyond(image: Image, p: Snap)
    requires OffsetOf(p) > |image.bytes|
    ensures Placed(image, p) == p && !Aligned(image, p)
  {
    hide OffsetOf, EndsWhole, WholeRecords;
  }

  lemma DurableOk(s: Engine, p: Snap)
    requires Snapshots(s) && p in s.durable
    ensures SnapOk(s, p)
  {
    hide SnapOk;
  }

  lemma CurrentIsGood(s: Engine)
    requires LogOk(s)
    ensures GoodImage(Current(s))
  {
    hide GoodImage, ImageOk;
  }

  /** The snapshot counts more records than are left. */
  lemma FewerLeft(s: Engine, image: Image, p: Snap)
    requires SnapOk(s, p) && image.records == s.log.records && OffsetOf(p) > |image.bytes|
    ensures p.cover <= |image.records| && OffsetOf(p) == BoundaryOf(GC.Ops(image.records)[..p.cover])
    ensures OffsetOf(p) != HEADER_LENGTH ==> Survivors(image) < p.cover
  {
    hide Live, Holds, OffsetOf, Size, Whole;
    var ops := GC.Ops(image.records);
    GC.OpsTake(image.records, p.cover);
    if |image.bytes| >= HEADER_LENGTH {
      WholeBrackets(ops, |image.bytes| - HEADER_LENGTH);
      BoundariesInOrder(ops, p.cover, Survivors(image));
    } else if p.cover == 0 {
      assert ops[..0] == [];
      SizeNone();
    }
  }

  lemma NotAlways(s: Engine, image: Image, p: Snap, k: nat, generation: nat)
    requires SnapOk(s, p) && GoodImage(image) && GenerationFits(generation) && k < p.cover <= |image.records|
    requires OffsetOf(p) == BoundaryOf(GC.Ops(image.records)[..p.cover])
    ensures !RecoversAlways(p.bytes, generation, GC.Ops(image.records)[..k], Live(s.order, p.saved))
  {
    hide Live, Holds, OffsetOf, BoundaryOf, LogBytes, Bounded, RecoversAlways;
    CheckIsNeeded(p.bytes, Live(s.order, p.saved), generation, GC.Ops(image.records), p.cover, k);
  }
}
