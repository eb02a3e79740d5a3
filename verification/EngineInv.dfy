/**
 * Every event keeps the engine's invariant.
 */
module EngineInv {
  import opened Record
  import opened Replay
  import opened ReplayLaws
  import opened Snapshot
  import opened Recovery
  import opened Histories
  import opened Engine
  import Wal
  import GC = GroupCommit

  // ------------------------------------------------------------ locks

  lemma ShardInRange(s: Engine, k: Key)
    ensures 0 <= ShardOf(s, k) < SHARDS
  {
  }

  /** At most one administrative operation is past the snapshot lock. */
  lemma OnlyAdmin(s: Engine, t: nat, u: nat)
    requires Threads(s) && PcOf(s, t).Admin? && PcOf(s, u).Admin?
    ensures t == u
  {
    hide CopyOk, HoldsAll, Holds;
    assert ThreadOk(s, t) && ThreadOk(s, u);
  }

  /** While one thread holds every shard, no call is under way. */
  lemma NoCallsWhenHeld(s: Engine, t: nat, u: nat)
    requires Threads(s) && PcOf(s, t).Admin?
    requires forall i :: 0 <= i < SHARDS ==> i in s.shards && s.shards[i] == t
    ensures !HasRequest(PcOf(s, u))
  {
    hide CopyOk, HoldsAll, Holds, AdminOk;
    if HasRequest(PcOf(s, u)) {
      assert ThreadOk(s, u);
      ShardInRange(s, PcOf(s, u).r.op.key);
    }
  }

  /** Nothing is in flight and memory is complete while one thread holds every shard, whether or not the log has failed. */
  ghost predicate Quiet(s: Engine) {
    && s.log.batch == [] && s.log.queue == [] && s.sure <= s.live
    && (!s.log.failed ==>
          && s.log.phase.Idle? && s.log.acked == |s.log.records| && s.log.submitted == s.log.records
          && (s.log.file == LogBytes(s.log.generation, GC.Ops(s.log.records))
            || (s.log.file == [] && s.log.records == [])))
  }

  lemma QuietWhenHeld(s: Engine, t: nat)
    requires Inv(s) && PcOf(s, t).Admin?
    requires forall i :: 0 <= i < SHARDS ==> i in s.shards && s.shards[i] == t
    ensures Quiet(s)
  {
    hide CopyOk, HoldsAll, Holds, AdminOk, RequestOk, ThreadOk, LogBytes, GC.Inv, Ordered, Memory, Snapshots,
      Stale, Past, LogOk, Numbers;
    forall r: GC.Request
      ensures !HasRequest(PcOf(s, r.tid))
    {
      NoCallsWhenHeld(s, t, r.tid);
    }
    HasMember(s.log.batch);
    HasMember(s.log.queue);
    if !s.log.failed { LogAtRest(s.log); }
  }

  lemma HasMember(rs: seq<GC.Request>)
    ensures rs != [] ==> exists r :: r in rs
  {
    if rs != [] {
      assert rs[0] in rs;
    }
  }

  lemma LogAtRest(l: GC.Log)
    requires GC.Inv(l) && !l.failed && l.batch == [] && l.queue == []
    ensures l.phase.Idle? && l.acked == |l.records| && l.submitted == l.records
    ensures l.file == LogBytes(l.generation, GC.Ops(l.records)) || (l.file == [] && l.records == [])
  {
    hide LogBytes, BoundaryOf, Bounded, GC.Completions, GC.AcceptedBounded, GC.Durable;
    assert l.submitted == l.submitted[..|l.records|] + l.submitted[|l.records|..];
  }

  // ------------------------------------------------------------ administrative moves

  /** Locks of every other thread are as before. */
  ghost predicate OthersKeepLocks(s: Engine, m: Engine, t: nat) {
    forall i :: i in s.shards && s.shards[i] != t ==> i in m.shards && m.shards[i] == s.shards[i]
  }

  /** A thread that is not in a call changes its place, its locks and the snapshot files, and nothing else changes. */
  ghost predicate AdminMove(s: Engine, m: Engine, t: nat, pc: Pc) {
    && m == s.(threads := s.threads[t := pc], shards := m.shards, adminLock := m.adminLock, snapshotLock := m.snapshotLock,
               visible := m.visible, durable := m.durable, stale := m.stale)
    && !HasRequest(PcOf(s, t)) && !HasRequest(pc)
    && OthersKeepLocks(s, m, t)
    && (forall u :: u in s.threads && u != t ==> !s.threads[u].Admin?)
  }

  /** What every administrative action leaves alone. */
  ghost predicate ActMove(s: Engine, m: Engine, t: nat) {
    && m.hash == s.hash && m.mem == s.mem && m.order == s.order && m.live == s.live && m.sure == s.sure
    && m.nextId == s.nextId && m.returned == s.returned && m.threads == s.threads[t := PcOf(m, t)]
    && !HasRequest(PcOf(s, t)) && !HasRequest(PcOf(m, t)) && (s.plain ==> m.plain)
    && (m.log == s.log || m.log == Rotated(s.log))
  }

  /** And what every one but a truncation does. */
  ghost predicate LogStays(s: Engine, m: Engine) {
    m.log == s.log && m.base == s.base && m.plain == s.plain
  }

  /** And every one but a truncation and a rename. */
  ghost predicate SnapsStay(s: Engine, m: Engine) {
    m.durable == s.durable || m.durable == {s.visible}
  }

  lemma ActMoves(s: Engine, t: nat, action: Action)
    requires CanAct(s, t, action)
    ensures ActMove(s, DoAct(s, t, action), t)
    ensures !action.Truncate? ==> LogStays(s, DoAct(s, t, action))
    ensures !action.Truncate? && !action.Rename? ==> SnapsStay(s, DoAct(s, t, action))
    ensures action.Rename? ==> CanRename(s, t) && DoAct(s, t, action) == DoRename(s, t)
    ensures action.Truncate? ==> CanTruncate(s, t) && DoAct(s, t, action) == DoTruncate(s, t)
  {
    hide ActMove, LogStays, SnapsStay, Enumerates, Encodable, SnapshotBytes, CanTruncate, DoTruncate, CanRename,
      DoRename, EndsWhole;
    if action.Truncate? {
      TruncateMoves(s, t);
    } else if action.Rename? {
      RenameMoves(s, t);
    } else if IsLocking(action) {
      LockMoves(s, t, action);
    } else {
      FileMoves(s, t, action);
    }
  }

  predicate IsLocking(action: Action) {
    action.Serialize? || action.LockAdmin? || action.LockShard? || action.Release? || action.Finish?
  }

  lemma TruncateMoves(s: Engine, t: nat)
    requires CanTruncate(s, t)
    ensures ActMove(s, DoTruncate(s, t), t)
  {
    hide LoadOf, ImagesOf;
  }

  lemma RenameMoves(s: Engine, t: nat)
    requires CanRename(s, t)
    ensures ActMove(s, DoRename(s, t), t) && LogStays(s, DoRename(s, t))
  {
  }

  lemma LockMoves(s: Engine, t: nat, action: Action)
    requires CanAct(s, t, action) && IsLocking(action)
    ensures ActMove(s, DoAct(s, t, action), t) && LogStays(s, DoAct(s, t, action)) && SnapsStay(s, DoAct(s, t, action))
  {
    hide WithoutOwner, DoTruncate, DoRename, DoCopy, DoWriteTemp, DoSyncTemp, DoSyncDirectory, DoSyncTruncation;
  }

  lemma FileMoves(s: Engine, t: nat, action: Action)
    requires CanAct(s, t, action) && !IsLocking(action) && !action.Rename? && !action.Truncate?
    ensures ActMove(s, DoAct(s, t, action), t) && LogStays(s, DoAct(s, t, action)) && SnapsStay(s, DoAct(s, t, action))
  {
    hide CopyFor, Enumerates, Encodable, SnapshotBytes, EndsWhole, DoTruncate, DoRename, DoSerialize, DoLockAdmin,
      DoLockShard, DoRelease, DoFinish;
  }

  lemma OtherCallsUntouched(s: Engine, m: Engine, t: nat, pc: Pc, u: nat)
    requires Threads(s) && AdminMove(s, m, t, pc) && u in s.threads && u != t
    ensures PcOf(m, u) == PcOf(s, u) && ThreadOk(m, u)
  {
    hide AdminOk, GC.Fresh;
    assert ThreadOk(s, u);
  }

  lemma AdminMoveThreads(s: Engine, m: Engine, t: nat, pc: Pc)
    requires Threads(s) && AdminMove(s, m, t, pc) && ThreadOk(m, t)
    ensures Threads(m)
  {
    hide ThreadOk, OthersKeepLocks;
    forall u | u in m.threads && u != t
      ensures ThreadOk(m, u)
    {
      OtherCallsUntouched(s, m, t, pc, u);
    }
  }

  lemma PublishInv(s: Engine, m: Engine, t: nat, pc: Pc)
    requires Inv(s) && AdminMove(s, m, t, pc) && ThreadOk(m, t) && Snapshots(m) && Stale(m)
    ensures Inv(m)
  {
    hide GC.Inv, Threads, ThreadOk, Snapshots, Stale, Live, GC.Distinct, OthersKeepLocks, GoodImage, ImageOk;
    AdminMoveThreads(s, m, t, pc);
    assert forall r: GC.Request :: HasRequest(PcOf(s, r.tid)) ==> PcOf(m, r.tid) == PcOf(s, r.tid);
    assert forall r: GC.Request :: Underway(m, r) == Underway(s, r);
    assert forall k :: ShardOf(m, k) == ShardOf(s, k);
    ImagesKept(s, m);
  }

  lemma AdminMoveInv(s: Engine, m: Engine, t: nat, pc: Pc)
    requires Inv(s) && AdminMove(s, m, t, pc) && ThreadOk(m, t)
    requires m.visible == s.visible && m.durable == s.durable && m.stale == s.stale
    ensures Inv(m)
  {
    hide GC.Inv, Threads, ThreadOk, Numbers, Queued, Account, Ordered, Memory, Past, LogOk, Holds, Live, InOrder,
      GoodImage, Covers, GC.EndOf, OthersKeepLocks;
    SavedKept(s, m);
    ImagesKept(s, m);
    PublishInv(s, m, t, pc);
  }

  lemma NoOtherAdmin(s: Engine, t: nat)
    requires Threads(s) && (PcOf(s, t).Admin? || s.snapshotLock.None?)
    ensures forall u :: u in s.threads && u != t ==> !s.threads[u].Admin?
  {
    hide CopyOk, HoldsAll, Holds, RequestOk;
    forall u | u in s.threads && u != t
      ensures !s.threads[u].Admin?
    {
      assert ThreadOk(s, u);
      if s.threads[u].Admin? && PcOf(s, t).Admin? {
        OnlyAdmin(s, t, u);
      }
    }
  }

  lemma SerializeInv(s: Engine, t: nat, kind: Kind)
    requires Inv(s) && CanSerialize(s, t)
    ensures Inv(DoSerialize(s, t, kind))
  {
    hide Inv, Holds, CopyOk, RequestOk;
    var m := DoSerialize(s, t, kind);
    ThreadsHold(s);
    NoOtherAdmin(s, t);
    AdminMoveInv(s, m, t, PcOf(m, t));
  }

  lemma ThreadsHold(s: Engine)
    requires Inv(s)
    ensures Threads(s)
  {
  }

  lemma LockAdminInv(s: Engine, t: nat)
    requires Inv(s) && CanLockAdmin(s, t)
    ensures Inv(DoLockAdmin(s, t))
  {
    hide Inv, Holds, CopyOk, RequestOk;
    var m := DoLockAdmin(s, t);
    ThreadsHold(s);
    NoOtherAdmin(s, t);
    assert ThreadOk(s, t);
    AdminMoveInv(s, m, t, PcOf(m, t));
  }

  lemma LockShardInv(s: Engine, t: nat)
    requires Inv(s) && CanLockShard(s, t)
    ensures Inv(DoLockShard(s, t))
  {
    hide Inv, Holds, CopyOk, RequestOk, HoldsAll;
    var m := DoLockShard(s, t);
    ThreadsHold(s);
    NoOtherAdmin(s, t);
    assert ThreadOk(s, t);
    AdminMoveInv(s, m, t, PcOf(m, t));
  }

  lemma FinishInv(s: Engine, t: nat)
    requires Inv(s) && PcOf(s, t).Admin?
    ensures Inv(DoFinish(s, t))
  {
    hide Inv, Holds, CopyOk, RequestOk;
    var m := DoFinish(s, t);
    ThreadsHold(s);
    NoOtherAdmin(s, t);
    AdminMoveInv(s, m, t, PcOf(m, t));
  }

  lemma ReleaseInv(s: Engine, t: nat)
    requires Inv(s) && CanRelease(s, t)
    ensures Inv(DoRelease(s, t))
  {
    hide Inv, Holds, CopyOk, RequestOk;
    var m := DoRelease(s, t);
    ThreadsHold(s);
    NoOtherAdmin(s, t);
    assert ThreadOk(s, t);
    CopyKept(s, m);
    AdminMoveInv(s, m, t, PcOf(m, t));
  }

  lemma SyncTempInv(s: Engine, t: nat)
    requires Inv(s) && CanSyncTemp(s, t)
    ensures Inv(DoSyncTemp(s, t))
  {
    hide Inv, Holds, CopyOk, RequestOk;
    var m := DoSyncTemp(s, t);
    ThreadsHold(s);
    NoOtherAdmin(s, t);
    assert ThreadOk(s, t);
    CopyKept(s, m);
    AdminMoveInv(s, m, t, PcOf(m, t));
  }

  // ------------------------------------------------------------ copying the map

  lemma LogBounded(l: GC.Log)
    requires GC.Inv(l)
    ensures GenerationFits(l.generation) && AllBounded(GC.Ops(l.records)) && |l.records| < Wal.MAX_U64
    ensures forall i :: 0 <= i < |l.records| ==> Bounded(l.records[i].op)
  {
    hide Bounded, LogBytes, BoundaryOf, GC.Completions, GC.Durable, GC.Contents;
    assert forall i :: 0 <= i < |l.records| ==> l.records[i] == l.submitted[i];
  }

  lemma EmptyReplay()
    ensures ReplayFrom([], 0).ops == []
  {
  }

  /** Every map of the history can be saved and loaded back. */
  lemma {:induction false} HistoryFits(order: seq<GC.Request>, live: set<GC.Request>)
    requires forall i :: 0 <= i < |order| ==> Bounded(order[i].op)
    ensures StoreFits(Live(order, live))
    decreases |order|
  {
    hide Bounded, Apply, StoreFits;
    if order == [] {
      NothingFits();
    } else {
      var n := |order| - 1;
      HistoryFits(order[..n], live);
      var before := Live(order[..n], live);
      LoggedStateFits(before, [order[n].op]);
      ApplyOne(before, order[n].op);
    }
  }

  lemma NothingFits()
    ensures StoreFits(map[])
  {
  }

  /** A file that replays cleanly ends with the last of the records that it holds. */
  lemma WholeFile(im: Image)
    requires GoodImage(im) && im.bytes != [] && ReplayFrom(im.bytes, 0).status == CleanEof
    ensures WholeRecords(im.bytes) <= |im.records|
    ensures |im.bytes| == BoundaryOf(GC.Ops(im.records[..WholeRecords(im.bytes)]))
  {
    hide LogBytes, ReplayFrom, Size, Bounded, Whole, AllBounded;
    var ops := GC.Ops(im.records);
    assert im.bytes == LogBytes(im.generation, ops)[..|im.bytes|];
    TornWrite(im.generation, ops, |im.bytes|);
    GC.OpsTake(im.records, WholeRecords(im.bytes));
  }

  /** A log that has not failed and is at rest holds all its records. */
  lemma RestingFile(s: Engine)
    requires GC.Inv(s.log) && Quiet(s) && !s.log.failed
    ensures WholeRecords(s.log.file) == |s.log.records|
    ensures s.log.file != [] ==> ReplayFrom(s.log.file, 0).status == CleanEof
    ensures ReplayFrom(s.log.file, 0).ops == GC.Ops(s.log.records)
  {
    hide LogBytes, ReplayFrom, Bounded, GC.Inv;
    LogBounded(s.log);
    if s.log.file == [] && s.log.records == [] {
      EmptyReplay();
      assert GC.Ops(s.log.records) == [];
    } else {
      WholeLog(s.log.generation, GC.Ops(s.log.records));
    }
  }

  lemma CopyAllInv(s: Engine, t: nat)
    requires Inv(s) && CouldCopy(s, t)
    ensures Inv(DoCopy(s, t))
  {
    hide Inv, Holds, CopyOk, Quiet, RequestOk, WholeRecords, EndsWhole;
    var m := DoCopy(s, t);
    ThreadsHold(s);
    assert ThreadOk(s, t);
    QuietWhenHeld(s, t);
    CopiedOk(s, PcOf(s, t).kind);
    NoOtherAdmin(s, t);
    CopyKept(s, m);
    AdminMoveInv(s, m, t, PcOf(m, t));
  }

  lemma CopiedOk(s: Engine, kind: Kind)
    requires Inv(s) && Quiet(s) && (kind == Compact || EndsWhole(s.log.file))
    ensures CopyOk(s, CopyFor(s, kind))
  {
    hide GC.Inv, Threads, Numbers, Queued, Ordered, Snapshots, Past, Live, GC.EndOf, LogBytes, Holds, ReplayFrom,
      InOrder, Covers, WholeRecords, GoodImage;
    if kind != Compact && s.log.file != [] {
      SaveBoundary(s);
    }
  }

  /** The offset a save records is the boundary after every record in the file. */
  lemma SaveBoundary(s: Engine)
    requires GC.Inv(s.log) && LogOk(s) && Quiet(s) && s.log.file != [] && ReplayFrom(s.log.file, 0).status == CleanEof
    ensures WholeRecords(s.log.file) <= |s.log.records| && |s.log.file| == GC.EndOf(s.log, WholeRecords(s.log.file))
    ensures !s.log.failed ==> WholeRecords(s.log.file) == s.log.acked
  {
    hide GC.Inv, ReplayFrom, LogBytes, GoodImage, ImageOk, BoundaryOf;
    WholeFile(Current(s));
    if !s.log.failed { RestingFile(s); }
  }

  lemma WriteTempInv(s: Engine, t: nat, order: seq<Entry>)
    requires Inv(s) && CanWriteTemp(s, t, order)
    ensures Inv(DoWriteTemp(s, t, order))
  {
    hide Inv, Holds, SnapshotBytes, Enumerates, Encodable, StoreFits, Live, SavedOk, RequestOk;
    var m := DoWriteTemp(s, t, order);
    ThreadsHold(s);
    assert ThreadOk(s, t);
    var copy := PcOf(s, t).stage.copy;
    CopyFits(s, copy);
    SavedHolds(order, copy.store, copy.offset);
    NoOtherAdmin(s, t);
    CopyKept(s, m);
    AdminMoveInv(s, m, t, PcOf(m, t));
  }

  lemma CopyFits(s: Engine, c: Copy)
    requires Inv(s) && CopyOk(s, c)
    ensures StoreFits(c.store)
  {
    hide Live, StoreFits, Bounded, GC.Inv, Threads, Queued, Account, Ordered, Memory, LogOk, Snapshots, Stale,
      Past, SavedOk;
    HistoryFits(s.order, c.saved);
  }

  // ------------------------------------------------------------ publishing a snapshot

  /** The offset recovery starts from is the one the snapshot holds, and the map is the one it holds. */
  lemma OffsetHeld(snap: Snap, store: Store, offset: nat)
    requires Holds(snap.bytes, store, offset)
    ensures OffsetOf(snap) == offset && StoreOf(snap) == store
  {
    hide LoadOf;
  }

  /** A good copy, saved, is a good snapshot. */
  lemma CopySaved(s: Engine, c: Copy, snap: Snap)
    requires CopyOk(s, c) && Holds(snap.bytes, c.store, c.offset) && snap.cover == c.cover && snap.saved == c.saved
    ensures SnapOk(s, snap)
  {
    hide Holds, Live, SavedOk, OffsetOf;
    OffsetHeld(snap, c.store, c.offset);
  }

  /** Copies and snapshots depend on the log and the history only. */
  lemma SavedKept(s: Engine, m: Engine)
    requires m.log == s.log && m.order == s.order && m.sure == s.sure && (m.stale == s.stale || m.stale == {})
    ensures forall saved, offset, cover :: SavedOk(s, saved, offset, cover) ==> SavedOk(m, saved, offset, cover)
  {
    hide GC.EndOf;
  }

  lemma CopyKept(s: Engine, m: Engine)
    requires m.log == s.log && m.order == s.order && m.sure == s.sure && (m.stale == s.stale || m.stale == {})
    ensures forall c :: CopyOk(s, c) ==> CopyOk(m, c)
  {
    hide Live, SavedOk;
    SavedKept(s, m);
  }

  lemma SnapKept(s: Engine, m: Engine, p: Snap)
    requires m.log == s.log && m.order == s.order && m.sure == s.sure && (m.stale == s.stale || m.stale == {})
             && SnapOk(s, p)
    ensures SnapOk(m, p)
  {
    hide Holds, Live, SavedOk;
    SavedKept(s, m);
  }

  lemma ImagesKept(s: Engine, m: Engine)
    requires m.order == s.order && m.sure == s.sure
    ensures forall im :: ImageOk(s, im) ==> ImageOk(m, im)
  {
    hide GoodImage, InOrder;
  }

  lemma RenameInv(s: Engine, t: nat)
    requires Inv(s) && CanRename(s, t)
    ensures Inv(DoRename(s, t))
  {
    hide GC.Inv, RequestOk, Numbers, Queued, Account, Ordered, Memory, Past, LogOk, Holds, CopyOk, SnapOk,
      ImageOk, OffsetOf;
    var m := DoRename(s, t);
    var copy := PcOf(s, t).stage.copy;
    assert ThreadOk(s, t);
    NoOtherAdmin(s, t);
    CopyKept(s, m);
    CopySaved(m, copy, m.visible);
    forall p | p in s.durable
      ensures SnapOk(m, p)
    {
      SnapKept(s, m, p);
    }
    ImagesKept(s, m);
    PublishInv(s, m, t, PcOf(m, t));
  }

  lemma SyncDirectoryInv(s: Engine, t: nat)
    requires Inv(s) && CanSyncDirectory(s, t)
    ensures Inv(DoSyncDirectory(s, t))
  {
    hide GC.Inv, RequestOk, Numbers, Queued, Account, Ordered, Memory, Past, LogOk, Holds, CopyOk, SnapOk, ImageOk;
    var m := DoSyncDirectory(s, t);
    assert ThreadOk(s, t);
    NoOtherAdmin(s, t);
    SnapKept(s, m, m.visible);
    ImagesKept(s, m);
    CopyKept(s, m);
    PublishInv(s, m, t, PcOf(m, t));
  }

  lemma SyncTruncationInv(s: Engine, t: nat)
    requires Inv(s) && CanSyncTruncation(s, t)
    ensures Inv(DoSyncTruncation(s, t))
  {
    hide GC.Inv, RequestOk, Numbers, Queued, Account, Ordered, Memory, Past, LogOk, Holds, CopyOk, SnapOk, ImageOk;
    var m := DoSyncTruncation(s, t);
    assert ThreadOk(s, t);
    NoOtherAdmin(s, t);
    forall p | p in s.durable
      ensures SnapOk(m, p)
    {
      SnapKept(s, m, p);
    }
    ImagesKept(s, m);
    PublishInv(s, m, t, PcOf(m, t));
  }
}
