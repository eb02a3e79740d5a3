/**
 * The engine's promises to its callers, over every run from an empty store.
 */
module Guarantees {
  import opened Bytes
  import opened Record
  import opened Replay
  import opened Snapshot
  import opened Recovery
  import opened Histories
  import opened Engine
  import opened EngineInv
  import opened EngineCalls
  import opened EngineWriter
  import opened EngineRestart
  import opened Durability
  import Wal
  import GC = GroupCommit

  ghost predicate Reachable(s: Engine) {
    exists start, events :: Initial(start) && Runs(start, events) && s == AfterRun(start, events)
  }

  lemma ReachableInv(s: Engine)
    requires Reachable(s)
    ensures Inv(s)
  {
    hide Inv, Initial, Runs, AfterRun;
    var start, events :| Initial(start) && Runs(start, events) && s == AfterRun(start, events);
    InitialInv(start);
    RunInv(start, events);
  }

  // ------------------------------------------------------------ crash recovery

  /** Recovery never throws, whatever the crash left. */
  lemma RecoveryNeverThrows(s: Engine, loss: bool, image: Image, p: Snap)
    requires Reachable(s) && MayLeave(s, loss, image, p)
    ensures CanCrash(s, loss, image, p)
  {
    hide Reachable, Inv, Recover, GC.Inv, Threads, Numbers, Queued, Account, Ordered, Memory, LogOk, Stale, Past,
      SnapOk, MayRemain;
    ReachableInv(s);
    InvParts(s);
    var q := LeftSnap(s, loss, image, p);
    SnapRecovers(s, q, image.bytes);
  }

  lemma SnapRecovers(s: Engine, p: Snap, log: seq<byte>)
    requires SnapOk(s, p)
    ensures Recover(p.bytes, log).Ok?
  {
    hide ReplayFrom, ApplyAll, LoadOf, SavedOk, Live;
  }

  /** Records still in flight are recovered from the snapshot's offset on without a gap, or not at all. */
  ghost predicate NoGap(s: Engine, from: nat, end: nat, recovered: set<GC.Request>) {
    forall i :: s.log.acked <= i < |s.log.records| ==> (s.log.records[i] in recovered <==> from <= i < end)
  }

  /**
   * Recovery reads nothing but records: it starts where one ends, or finds nothing. For a log
   * that an undone truncation brought back, this is to be checked on the two files; see
   * `Limits.ValueReadAsRequest`.
   */
  predicate Clear(image: Image, p: Snap) {
    Aligned(image, p) || ReplayFrom(image.bytes, OffsetOf(p)).ops == []
  }

  /**
   * The main theorem. In every reachable state, for every crash of either kind and every
   * pair of files it may leave: recovery succeeds and rebuilds the map of a set of requests
   * of the one history, applied in the order of the history, each request whole or not at
   * all. The set contains every acknowledged request, and so every call that has returned;
   * the history lists no request twice. The one condition concerns a log that was truncated
   * and is brought back because the truncation had not been synced.
   */
  lemma RecoveryRebuildsHistory(s: Engine, loss: bool, image: Image, p: Snap)
    returns (recovered: set<GC.Request>, end: nat)
    requires Reachable(s) && MayLeave(s, loss, image, p) && (loss && image in s.stale ==> Clear(image, p))
    ensures Recover(p.bytes, image.bytes) == Ok(Live(s.order, recovered))
    ensures s.sure <= recovered && Subset(recovered, s.order) && GC.Distinct(s.order)
    ensures forall id :: id in s.returned ==> exists r :: r in recovered && r.id == id
    ensures image.records == s.log.records ==> NoGap(s, From(p), end, recovered)
  {
    hide *;
    ReachableInv(s);
    InvParts(s);
    OrderDistinct(s);
    if Aligned(image, p) {
      LeftArePaired(s, loss, image, p);
      PairRecovers(s, image, p);
      SureSurvive(s, image, p);
      recovered, end := RecoveredSet(s, image, p), Survivors(image);
      if image.records == s.log.records { Gapless(s, loss, image, p); }
    } else {
      recovered, end := p.saved, 0;
      NothingToReplay(s, loss, image, p);
      SnapshotAlone(s, loss, image, p);
    }
    ReturnedAreSure(s, recovered);
  }

  /** Where the offset is no place in the log, nothing is replayed, and nothing need be. */
  lemma NothingToReplay(s: Engine, loss: bool, image: Image, p: Snap)
    requires LogOk(s) && Snapshots(s) && Stale(s) && |s.log.file| <= MAX_STREAM_OFFSET
    requires MayLeave(s, loss, image, p) && !Aligned(image, p) && (loss && image in s.stale ==> Clear(image, p))
    ensures ReplayFrom(image.bytes, OffsetOf(p)).ops == [] && s.sure <= p.saved
  {
    hide LogOk, SnapOk, Covers, InOrder, GoodImage, LogBytes, BoundaryOf, Bounded, OffsetOf, ReplayFrom,
      EndsWhole, WholeRecords, Placed;
    var q := LeftSnap(s, loss, image, p);
    if loss && image in s.stale {
      SavedEnough(s, q);
    } else {
      LeftIsOk(s, loss, image, p);
      BeyondTheLog(s, image, q);
      PastTheEnd(image.bytes, OffsetOf(q));
      if loss { SavedBeyond(s, image, q); }
    }
  }

  lemma BeyondTheLog(s: Engine, image: Image, q: Snap)
    requires SnapOk(s, q) && GoodImage(image) && image.records == s.log.records && !Aligned(image, q)
    ensures |image.bytes| < OffsetOf(q) <= |s.log.file|
  {
    hide Live, Holds, OffsetOf, BoundaryOf, GoodImage, WholeRecords;
    if OffsetOf(q) <= |image.bytes| && OffsetOf(q) != 0 {
      BoundaryIsWhole(image, OffsetOf(q), q.cover);
    }
  }

  lemma PastTheEnd(file: seq<byte>, offset: nat)
    requires offset > |file|
    ensures ReplayFrom(file, offset).ops == []
  {
    hide Scan;
    if file != [] { AtEnd(file, Portable(file), StartCursor(Portable(file), offset)); }
  }

  /** What is synced ends before the snapshot's offset, so the snapshot holds all that is acknowledged. */
  lemma SavedBeyond(s: Engine, image: Image, q: Snap)
    requires LogOk(s) && SnapOk(s, q) && MayRemain(s, image) && OffsetOf(q) > |image.bytes|
    requires s.log.policy != Wal.Buffered
    ensures s.sure <= q.saved
  {
    hide Live, Holds, OffsetOf, BoundaryOf, GoodImage, LogBytes, InOrder;
    forall x | x in s.sure
      ensures x in q.saved
    {
      if x !in q.saved { RecordBeyond(s, q, x); }
    }
  }

  lemma RecordBeyond(s: Engine, q: Snap, x: GC.Request)
    requires LogOk(s) && SnapOk(s, q) && s.log.policy != Wal.Buffered && x in s.sure && x !in q.saved
    ensures OffsetOf(q) <= s.log.synced
  {
    hide LogOk, Live, Holds, OffsetOf, BoundaryOf;
    if OffsetOf(q) != 0 {
      var past := s.log.records[q.cover..];
      var j :| 0 <= j < |past| && past[j] == x;
      SyncedFrame(s, q.cover + j);
      GC.EndOfMonotone(s.log, q.cover, q.cover + j + 1);
    }
  }

  /** An acknowledged record ends within what is synced. */
  lemma SyncedFrame(s: Engine, j: nat)
    requires LogOk(s) && s.log.policy != Wal.Buffered && j < |s.log.records| && s.log.records[j] in s.sure
    ensures GC.EndOf(s.log, j + 1) <= s.log.synced
  {
    hide BoundaryOf, GoodImage, LogBytes, InOrder;
    ListedOnce(s.order, s.log.records, s.start, j, j);
    var i :| Answers(s.order, s.log.records, i, s.log.records[j])
             && BoundaryOf(GC.Ops(s.log.records[..i + 1])) <= |s.log.file[..Floor(s)]|;
    ListedOnce(s.order, s.log.records, s.start, i, j);
  }

  lemma SnapshotAlone(s: Engine, loss: bool, image: Image, p: Snap)
    requires Snapshots(s) && MayLeave(s, loss, image, p) && ReplayFrom(image.bytes, OffsetOf(p)).ops == []
    ensures Recover(p.bytes, image.bytes) == Ok(Live(s.order, p.saved)) && Subset(p.saved, s.order)
    ensures NoGap(s, From(p), 0, p.saved)
  {
    hide Snapshots, Live, Holds, OffsetOf, ReplayFrom, ApplyAll, Recover, GC.EndOf, Placed, MayRemain;
    var q := LeftSnap(s, loss, image, p);
    RecoverHeld(p.bytes, image.bytes, Live(s.order, p.saved), OffsetOf(p));
    ApplyNone(Live(s.order, p.saved));
    NotSaved(s, q);
  }

  lemma OrderDistinct(s: Engine)
    requires Numbers(s)
    ensures GC.Distinct(s.order)
  {
    hide GC.Distinct, Bounded;
  }

  lemma ReturnedAreSure(s: Engine, recovered: set<GC.Request>)
    requires Past(s) && s.sure <= recovered
    ensures forall id :: id in s.returned ==> exists r :: r in recovered && r.id == id
  {
  }

  lemma Gapless(s: Engine, loss: bool, image: Image, p: Snap)
    requires Numbers(s) && Snapshots(s) && Paired(s, image, p) && MayLeave(s, loss, image, p)
             && image.records == s.log.records
    ensures NoGap(s, From(p), Survivors(image), RecoveredSet(s, image, p))
  {
    hide LogBytes, Survivors, BoundaryOf, GoodImage, Covers, Holds, Live, OffsetOf, ReplayFrom, ApplyAll, Recover,
      ReplayedRecords, Bounded, GC.Distinct, MayRemain;
    PairReplays(s, image, p);
    SuffixInOrder(s, image, p);
    var from, k := From(p), Survivors(image);
    var rs := image.records[from..k];
    var q := LeftSnap(s, loss, image, p);
    NotSaved(s, q);
    forall i | s.log.acked <= i < |s.log.records|
      ensures s.log.records[i] in RecoveredSet(s, image, p) <==> from <= i < k
    {
      InSlice(s.order, s.log.records, image.start, from, k, i);
    }
  }

  lemma NotSaved(s: Engine, p: Snap)
    requires SnapOk(s, p)
    ensures s.log.acked <= |s.log.records|
    ensures forall i :: s.log.acked <= i < |s.log.records| ==> s.log.records[i] !in p.saved
  {
    hide Live, Holds, GC.EndOf;
  }

  lemma InSlice(order: seq<GC.Request>, rs: seq<GC.Request>, start: nat, from: nat, k: nat, i: nat)
    requires InOrder(order, rs, start) && from <= k <= |rs| && i < |rs|
    ensures rs[i] in rs[from..k] <==> from <= i < k
  {
    if from <= i < k {
      assert rs[from..k][i - from] == rs[i];
    }
  }

  // ------------------------------------------------------------ real-time order

  /**
   * A request acknowledged now stays acknowledged and keeps its place in the history for
   * ever, across checkpoints, rotations and crashes, and every call that begins later comes
   * after it.
   */
  lemma RealTimeOrder(s: Engine, events: seq<Event>, x: GC.Request, y: GC.Request)
    requires Reachable(s) && Runs(s, events)
    requires x in s.sure && y in AfterRun(s, events).order && y.id >= s.nextId
    ensures var m := AfterRun(s, events);
            && x in m.sure && x in s.order && x in m.order
            && Place(m.order, x) == Place(s.order, x) < |s.order| <= Place(m.order, y)
  {
    hide *;
    ReachableInv(s);
    RunInv(s, events);
    EffectsRun(s, events);
    var m := AfterRun(s, events);
    InvParts(s);
    InvParts(m);
    LaterIsAfter(s, m, x, y);
  }

  lemma LaterIsAfter(s: Engine, m: Engine, x: GC.Request, y: GC.Request)
    requires Numbers(s) && Account(s) && Numbers(m) && s.order <= m.order
    requires x in s.sure && y in m.order && y.id >= s.nextId
    ensures x in s.order && x in m.order && Place(m.order, x) == Place(s.order, x) < |s.order| <= Place(m.order, y)
  {
    hide Bounded;
    var i := Place(s.order, x);
    assert m.order[i] == x;
    PlaceOf(m.order, i);
    assert forall j :: 0 <= j < |s.order| ==> m.order[j] == s.order[j];
  }

  // ------------------------------------------------------------ reads

  /**
   * A read of a key whose shard no writer holds sees exactly the requests in effect: every
   * acknowledged one, and no record of the log that is still in flight or that failed.
   */
  lemma ReadsSeeEffects(s: Engine, k: Key)
    requires Reachable(s) && ShardOf(s, k) !in s.shards
    ensures AgreeOn(s.mem, Abstract(s), k) && s.sure <= Effects(s)
    ensures forall i :: s.log.acked <= i < |s.log.records| ==> s.log.records[i] !in Effects(s)
  {
    hide Reachable, Inv, AgreeOn, Abstract;
    ReachableInv(s);
    FreeRead(s, k);
  }

  lemma FreeRead(s: Engine, k: Key)
    requires Inv(s) && ShardOf(s, k) !in s.shards
    ensures AgreeOn(s.mem, Abstract(s), k)
    ensures forall i :: s.log.acked <= i < |s.log.records| ==> s.log.records[i] !in Effects(s)
  {
    hide Inv, AgreeOn, GC.Inv, Numbers, Queued, Ordered, Snapshots, Stale, LogOk, Past, Live, Threads;
    InvParts(s);
    forall x | x in s.sure && x.op.key == k
      ensures x in s.live
    {
      FreeShard(s, x);
    }
    LiveAgrees(s.order, s.live, Effects(s), k);
  }

  /** On a free shard nothing acknowledged is missing from memory. */
  lemma FreeShard(s: Engine, x: GC.Request)
    requires Threads(s) && Account(s) && x in s.sure && ShardOf(s, x.op.key) !in s.shards
    ensures x in s.live
  {
    hide GC.Fresh, AdminOk;
    assert x.tid in s.threads ==> ThreadOk(s, x.tid);
  }

  /**
   * A write that is about to change memory finds under its key exactly what the effects
   * before it in the history left there; so a deletion reports whether the key was in the
   * abstract map when the deletion took effect.
   */
  lemma WritesSeeEarlierEffects(s: Engine, t: nat)
    requires Reachable(s) && PcOf(s, t).Logged?
    ensures var r := PcOf(s, t).r;
            r in s.order && AgreeOn(s.mem, Live(s.order[..Place(s.order, r)], Effects(s)), r.op.key)
  {
    hide Reachable, Inv, AgreeOn, GC.Inv, Bounded, GC.Distinct, Queued, Ordered, Snapshots, Stale, LogOk, Past,
      Live, AdminOk, GC.Fresh;
    ReachableInv(s);
    InvParts(s);
    assert ThreadOk(s, t);
    var r := PcOf(s, t).r;
    var p, k := Place(s.order, r), r.op.key;
    NothingLater(s, r);
    forall x | x in s.sure && x.op.key == k && x != r
      ensures x in s.live
    {
      OthersAreIn(s, r, x);
    }
    PrefixDecides(s.order, s.live, p, k);
    assert forall i :: 0 <= i < p ==> s.order[i] != r by { PlacesDiffer(s.order, p); }
    LiveAgrees(s.order[..p], s.live, Effects(s), k);
    AgreeChain(s.mem, Live(s.order[..p], s.live), Live(s.order[..p], Effects(s)), k);
  }

  lemma PlacesDiffer(order: seq<GC.Request>, p: nat)
    requires GC.Distinct(order) && p < |order|
    ensures forall i :: 0 <= i < p ==> order[i] != order[p]
  {
  }

  lemma AgreeChain(a: Store, b: Store, c: Store, k: Key)
    requires AgreeOn(a, b, k) && AgreeOn(b, c, k)
    ensures AgreeOn(a, c, k)
  {
  }

  lemma NothingLater(s: Engine, r: GC.Request)
    requires Ordered(s) && r in s.order && Underway(s, r) && r !in s.live
    ensures forall i :: Place(s.order, r) <= i < |s.order| && s.order[i].op.key == r.op.key ==> s.order[i] !in s.live
  {
    hide ShardOf;
  }

  lemma OthersAreIn(s: Engine, r: GC.Request, x: GC.Request)
    requires Threads(s) && Account(s) && Underway(s, r) && x in s.sure && x != r && x.op.key == r.op.key
    ensures x in s.live
  {
    hide Threads;
    if x !in s.live { CallsApart(s, x, r); }
  }

  lemma {:induction false} PrefixDecides(order: seq<GC.Request>, live: set<GC.Request>, p: nat, k: Key)
    requires p <= |order| && forall i :: p <= i < |order| && order[i].op.key == k ==> order[i] !in live
    ensures AgreeOn(Live(order, live), Live(order[..p], live), k)
    decreases |order|
  {
    if p == |order| {
      assert order[..p] == order;
    } else {
      var n := |order| - 1;
      PrefixDecides(order[..n], live, p, k);
      assert order[..n][..p] == order[..p];
    }
  }

  /** With every shard free of writers, memory is the abstract map: what Size counts. */
  lemma AllShardsFree(s: Engine)
    requires Reachable(s) && forall i :: 0 <= i < SHARDS ==> i !in s.shards
    ensures s.mem == Abstract(s)
  {
    hide Reachable, Abstract, AgreeOn;
    forall k
      ensures AgreeOn(s.mem, Abstract(s), k)
    {
      ShardInRange(s, k);
      ReadsSeeEffects(s, k);
    }
    AgreeEverywhere(s.mem, Abstract(s));
  }

  // ------------------------------------------------------------ snapshots

  /**
   * The offset of every snapshot that a crash may leave is 0 or a record boundary of the
   * current log generation; captures made after a log failure included.
   */
  lemma PublishedOffsetIsBoundary(s: Engine, p: Snap)
    requires Reachable(s) && (p == s.visible || p in s.durable)
    ensures Subset(p.saved, s.order) && Holds(p.bytes, Live(s.order, p.saved), OffsetOf(p))
    ensures OffsetOf(p) == 0 ||
            (p.cover <= |s.log.records| && OffsetOf(p) == GC.EndOf(s.log, p.cover) && OffsetOf(p) <= |s.log.file|)
    ensures forall x :: x in s.sure && x !in p.saved ==> x in s.log.records
  {
    hide Reachable, Inv, GC.Inv, Numbers, Queued, Ordered, Stale, LogOk, Memory, Threads, Account, Past, Holds,
      GC.EndOf, OffsetOf, Live;
    ReachableInv(s);
    InvParts(s);
    assert SnapOk(s, p);
  }
}
