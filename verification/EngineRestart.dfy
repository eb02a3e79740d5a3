/**
 * Rotating the log after compaction, and crashes followed by recovery, keep the
 * engine's invariant.
 */
module EngineRestart {
  import opened Record
  import opened Replay
  import opened ReplayLaws
  import opened Snapshot
  import opened Recovery
  import opened Histories
  import opened Engine
  import opened EngineInv
  import opened EngineCalls
  import opened EngineWriter
  import Wal
  import GC = GroupCommit

  // ------------------------------------------------------------ files of one log

  /** A longer file of the same log covers no less. */
  lemma LongerCovers(s: Engine, im: Image, n: nat)
    requires n <= |im.bytes| && GoodImage(im) && ImageOk(s, im.(bytes := im.bytes[..n]))
    ensures ImageOk(s, im)
  {
    hide GoodImage, InOrder, BoundaryOf;
  }

  /** Whatever a crash leaves of the log is good. */
  lemma LeftIsOk(s: Engine, loss: bool, image: Image, p: Snap)
    requires LogOk(s) && Stale(s) && |s.log.file| <= MAX_STREAM_OFFSET && MayLeave(s, loss, image, p)
    ensures ImageOk(s, image) && |image.bytes| <= MAX_STREAM_OFFSET
  {
    hide GoodImage, InOrder, Covers;
    if image !in s.stale || !loss {
      ShorterIsGood(Current(s), |image.bytes|);
      assert s.log.file[..|s.log.file|] == s.log.file;
      assert image == Current(s).(bytes := s.log.file[..|image.bytes|]);
      assert image.bytes[..Floor(s)] == s.log.file[..Floor(s)];
      LongerCovers(s, image, Floor(s));
    }
  }

  // ------------------------------------------------------------ rotation

  /** What compaction knows when it is about to truncate the log. */
  ghost predicate Ready(s: Engine, t: nat) {
    && PcOf(s, t).Admin? && PcOf(s, t).stage.Published? && PcOf(s, t).kind == Compact
    && Quiet(s) && HoldsAll(s, t) && s.snapshotLock == Some(t)
    && s.visible.saved == s.live && PcOf(s, t).stage.copy.store == s.mem && Holds(s.visible.bytes, s.mem, 0)
  }

  lemma ReadyToTruncate(s: Engine, t: nat)
    requires Inv(s) && CanTruncate(s, t)
    ensures Ready(s, t)
  {
    hide Inv, Quiet, Holds, Live, SavedOk, LoadOf, Threads, Numbers, Queued, Account, Ordered, LogOk, Snapshots,
      Stale, Past, GC.Inv;
    InvParts(s);
    ThreadHolds(s, t);
    QuietWhenHeld(s, t);
  }

  lemma RotatedInv(l: GC.Log)
    requires GC.Inv(l) && l.batch == [] && l.queue == [] && l.generation < Wal.MAX_U64
    requires !l.failed ==> l.phase.Idle?
    ensures GC.Inv(Rotated(l))
  {
    hide GC.Completions, GC.AcceptedBounded, GC.Durable, LogBytes, Bounded;
    RotatedRest(l);
  }

  lemma RotatedRest(l: GC.Log)
    requires GC.Inv(l)
    ensures GC.Completions(Rotated(l)) || l.batch != []
    ensures GC.Durable(Rotated(l)) || l.phase.Synced? || l.phase.Acking?
    ensures GC.AcceptedBounded(Rotated(l)) || l.generation >= Wal.MAX_U64
  {
    hide GC.Pipeline, GC.Contents, Bounded, BoundaryOf;
  }

  lemma TruncateLog(s: Engine, t: nat)
    requires GC.Inv(s.log) && CanTruncate(s, t) && Ready(s, t)
    ensures GC.Inv(DoTruncate(s, t).log) && |DoTruncate(s, t).log.file| <= MAX_STREAM_OFFSET
  {
    hide GC.Inv, Holds, LoadOf, LogBytes, ImagesOf;
    RotatedInv(s.log);
  }

  lemma TruncateThreads(s: Engine, t: nat)
    requires Threads(s) && CanTruncate(s, t) && Ready(s, t)
    ensures Threads(DoTruncate(s, t))
  {
    hide Quiet, Holds, CopyOk, RequestOk, LoadOf, ImagesOf;
    var m := DoTruncate(s, t);
    NoOtherAdmin(s, t);
    forall u | u in m.threads
      ensures ThreadOk(m, u) && !HasRequest(m.threads[u])
    {
      NoCallsWhenHeld(s, t, u);
    }
  }

  lemma TruncateHistory(s: Engine, t: nat)
    requires Threads(s) && Numbers(s) && Account(s) && Ordered(s) && Memory(s) && CanTruncate(s, t) && Ready(s, t)
    ensures var m := DoTruncate(s, t);
            Numbers(m) && Queued(m) && Account(m) && Ordered(m) && Memory(m)
  {
    hide LogBytes, Holds, Live, LoadOf, ImagesOf, Bounded, GC.Distinct, Threads;
    var m := DoTruncate(s, t);
    assert forall k :: ShardOf(m, k) == ShardOf(s, k);
    assert forall r: GC.Request :: Underway(m, r) ==> Underway(s, r);
  }

  /** The new log starts behind everything in the history. */
  lemma TruncateLogOk(s: Engine, t: nat)
    requires Account(s) && CanTruncate(s, t) && Ready(s, t)
    ensures LogOk(DoTruncate(s, t))
  {
    hide LogBytes, Holds, Live, LoadOf, ImagesOf, Bounded, HoldsAll;
    var m := DoTruncate(s, t);
    assert GC.Ops(m.log.records) == [];
  }

  /** The published snapshot is all that is left, at offset zero of the new generation. */
  lemma TruncateSnapshots(s: Engine, t: nat)
    requires Account(s) && Memory(s) && CanTruncate(s, t) && Ready(s, t)
    ensures Snapshots(DoTruncate(s, t))
  {
    hide LogBytes, Holds, Live, LoadOf, ImagesOf, HoldsAll, OffsetOf;
    var m := DoTruncate(s, t);
    OffsetHeld(m.visible, s.mem, 0);
  }

  lemma TruncateStale(s: Engine, t: nat)
    requires GC.Inv(s.log) && |s.log.file| <= MAX_STREAM_OFFSET && LogOk(s) && Stale(s) && Quiet(s) && CanTruncate(s, t)
    ensures Stale(DoTruncate(s, t))
  {
    hide GC.Inv, LogBytes, LoadOf, ImageOk, ImagesOf, LogOk;
    var m := DoTruncate(s, t);
    ImagesKept(s, m);
    if s.log.failed { FailedPhase(s.log); }
    forall im | im in m.stale && im !in s.stale
      ensures ImageOk(m, im) && |im.bytes| <= MAX_STREAM_OFFSET
    {
      NewImage(s, im);
    }
  }

  lemma FailedPhase(l: GC.Log)
    requires GC.Inv(l) && l.failed
    ensures l.phase.Failing?
  {
    hide LogBytes, BoundaryOf, Bounded, GC.Completions, GC.Contents, GC.AcceptedBounded, GC.Durable;
  }

  lemma NewImage(s: Engine, im: Image)
    requires LogOk(s) && Stale(s) && |s.log.file| <= MAX_STREAM_OFFSET && s.log.policy != Wal.Buffered
             && im in ImagesOf(s)
    ensures ImageOk(s, im) && |im.bytes| <= MAX_STREAM_OFFSET
  {
    hide ImageOk, GoodImage;
    var n :| s.log.synced <= n <= |s.log.file| && im == Current(s).(bytes := s.log.file[..n]);
    ShorterIsGood(Current(s), n);
    assert im.bytes[..Floor(s)] == s.log.file[..Floor(s)];
    LongerCovers(s, im, Floor(s));
  }

  lemma TruncateInv(s: Engine, t: nat)
    requires Inv(s) && CanTruncate(s, t)
    ensures Inv(DoTruncate(s, t))
  {
    hide *;
    InvParts(s);
    ReadyToTruncate(s, t);
    ReadyIsQuiet(s, t);
    TruncateLog(s, t);
    TruncateThreads(s, t);
    TruncateHistory(s, t);
    TruncateLogOk(s, t);
    TruncateSnapshots(s, t);
    TruncateStale(s, t);
    TruncatePast(s, t);
    InvWhole(DoTruncate(s, t));
  }

  lemma ReadyIsQuiet(s: Engine, t: nat)
    requires Ready(s, t)
    ensures Quiet(s)
  {
  }

  lemma TruncatePast(s: Engine, t: nat)
    requires Past(s) && CanTruncate(s, t)
    ensures Past(DoTruncate(s, t))
  {
    hide LoadOf, ImagesOf;
  }

  // ------------------------------------------------------------ a log and a snapshot that belong together

  /** All that recovery needs of the two files it finds. */
  ghost predicate Paired(s: Engine, im: Image, p: Snap) {
    && ImageOk(s, im) && Subset(p.saved, s.order) && Holds(p.bytes, Live(s.order, p.saved), OffsetOf(p))
    && (OffsetOf(p) != 0 ==>
          p.cover <= |im.records| && OffsetOf(p) == BoundaryOf(GC.Ops(im.records[..p.cover])) <= |im.bytes|)
    && From(p) <= |im.records|
    && (forall x :: x in s.sure ==> x in p.saved || x in im.records[From(p)..])
  }

  /** A record of the log ends at this offset. */
  ghost predicate IsBoundary(im: Image, n: nat, j: nat) {
    j <= |im.records| && n == BoundaryOf(GC.Ops(im.records[..j])) <= |im.bytes|
  }

  /** The offsets at which a file ends whole are those at which one of its records ends. */
  lemma WholeIffBoundary(im: Image, n: nat)
    requires GoodImage(im) && 0 < n <= |im.bytes|
    ensures EndsWhole(im.bytes[..n]) <==> exists j :: IsBoundary(im, n, j)
    ensures EndsWhole(im.bytes[..n]) ==> IsBoundary(im, n, WholeRecords(im.bytes[..n]))
    ensures forall j :: IsBoundary(im, n, j) ==> j == WholeRecords(im.bytes[..n])
  {
    hide GoodImage, WholeRecords, ReplayFrom, BoundaryOf;
    ShorterIsGood(im, n);
    if EndsWhole(im.bytes[..n]) {
      WholeFile(im.(bytes := im.bytes[..n]));
      assert IsBoundary(im, n, WholeRecords(im.bytes[..n]));
    }
    forall j | IsBoundary(im, n, j)
      ensures EndsWhole(im.bytes[..n]) && j == WholeRecords(im.bytes[..n])
    {
      BoundaryIsWhole(im, n, j);
    }
  }

  lemma BoundaryIsWhole(im: Image, n: nat, j: nat)
    requires GoodImage(im) && IsBoundary(im, n, j)
    ensures EndsWhole(im.bytes[..n]) && WholeRecords(im.bytes[..n]) == j
  {
    hide LogBytes, ReplayFrom, Bounded, BoundaryOf;
    var ops := GC.Ops(im.records);
    GC.OpsTake(im.records, j);
    PrefixLog(im.generation, ops, j);
    LogIsLong(im.generation, ops[..j]);
    assert im.bytes == LogBytes(im.generation, ops)[..|im.bytes|];
    assert im.bytes[..n] == LogBytes(im.generation, ops)[..n];
    WholeLog(im.generation, ops[..j]);
  }

  /** What a power loss leaves at the snapshot's path is a published snapshot. */
  lemma LeftSnap(s: Engine, loss: bool, image: Image, p: Snap) returns (q: Snap)
    requires Snapshots(s) && MayLeave(s, loss, image, p)
    ensures q in s.durable && SnapOk(s, q) && (if loss then p == Placed(image, q) else p == q)
    ensures p.bytes == q.bytes && p.saved == q.saved && OffsetOf(p) == OffsetOf(q)
  {
    hide SnapOk, WholeRecords, MayRemain;
    if loss { q :| q in s.durable && p == Placed(image, q); } else { q := p; }
  }

  /** Files that pass the restart check belong together. */
  lemma LeftArePaired(s: Engine, loss: bool, image: Image, p: Snap)
    requires LogOk(s) && Snapshots(s) && Stale(s) && |s.log.file| <= MAX_STREAM_OFFSET
    requires MayLeave(s, loss, image, p) && Aligned(image, p)
    ensures Paired(s, image, p) && |image.bytes| <= MAX_STREAM_OFFSET
  {
    hide GoodImage, InOrder, Covers, LogOk, Holds, Live, BoundaryOf, OffsetOf, Snapshots, EndsWhole, WholeRecords;
    LeftIsOk(s, loss, image, p);
    var q := LeftSnap(s, loss, image, p);
    if OffsetOf(p) != 0 {
      WholeIffBoundary(image, OffsetOf(p));
      if image.records == s.log.records { assert IsBoundary(image, OffsetOf(p), q.cover); }
    }
  }

  /** How many records of the log survive in a file. */
  function Survivors(im: Image): nat {
    Kept(GC.Ops(im.records), |im.bytes|)
  }

  lemma KeptAre(im: Image)
    requires GoodImage(im)
    ensures Survivors(im) <= |im.records| && KeptRecords(im) == im.records[..Survivors(im)]
  {
    hide LogBytes, Kept, ReplayFrom, AllBounded, Size;
    var ops, n, k := GC.Ops(im.records), |im.bytes|, Survivors(im);
    assert im.bytes == LogBytes(im.generation, ops)[..n];
    ReplayKept(im.generation, ops, n, 0, 0);
    assert ops[0..k] == ops[..k];
  }

  /** A record whose frame is wholly in the file survives. */
  lemma FrameSurvives(im: Image, i: nat)
    requires GoodImage(im) && i < |im.records| && BoundaryOf(GC.Ops(im.records[..i + 1])) <= |im.bytes|
    ensures i < Survivors(im)
  {
    hide LogBytes, Kept, BoundaryOf, AllBounded;
    GC.OpsTake(im.records, i + 1);
    KeptAtLeast(GC.Ops(im.records), i + 1, |im.bytes|);
  }

  lemma CoverSurvives(s: Engine, im: Image, p: Snap)
    requires Paired(s, im, p)
    ensures From(p) <= Survivors(im) <= |im.records|
  {
    hide LogBytes, Kept, BoundaryOf, AllBounded, InOrder, Covers, Holds, Live, OffsetOf;
    if OffsetOf(p) != 0 {
      GC.OpsTake(im.records, p.cover);
      KeptAtLeast(GC.Ops(im.records), p.cover, |im.bytes|);
    }
  }

  /** Recovery applies the records past the snapshot's offset that the file holds whole. */
  lemma PairReplays(s: Engine, im: Image, p: Snap)
    requires Paired(s, im, p)
    ensures From(p) <= Survivors(im) <= |im.records|
    ensures ReplayedRecords(im, p) == im.records[From(p)..Survivors(im)]
    ensures Recover(p.bytes, im.bytes) == Ok(ApplyAll(Live(s.order, p.saved), GC.Ops(im.records[From(p)..Survivors(im)])))
    ensures var r := ReplayFrom(im.bytes, OffsetOf(p));
            && (r.lastGood == if |im.bytes| < HEADER_LENGTH then 0 else BoundaryOf(GC.Ops(im.records[..Survivors(im)])))
            && (r.status == CleanEof ==> |im.bytes| == r.lastGood)
  {
    hide LogBytes, Kept, BoundaryOf, AllBounded, InOrder, Covers, Holds, Live, OffsetOf, ReplayFrom, ApplyAll,
      Recover, KeptRecords;
    CoverSurvives(s, im, p);
    KeptAre(im);
    var ops, n, j, k := GC.Ops(im.records), |im.bytes|, From(p), Survivors(im);
    assert im.bytes == LogBytes(im.generation, ops)[..n];
    GC.OpsTake(im.records, j);
    GC.OpsTake(im.records, k);
    ReplayKept(im.generation, ops, n, j, OffsetOf(p));
    RecoverHeld(p.bytes, im.bytes, Live(s.order, p.saved), OffsetOf(p));
    assert im.records[..k][j..] == im.records[j..k];
    assert GC.Ops(im.records[j..k]) == ops[j..k];
  }

  lemma SuffixInOrder(s: Engine, im: Image, p: Snap)
    requires Paired(s, im, p) && From(p) <= Survivors(im) <= |im.records|
    ensures InOrder(s.order, im.records[From(p)..Survivors(im)], im.start)
    ensures InOrder(s.order, im.records[From(p)..Survivors(im)], 0)
  {
    hide LogBytes, Survivors, BoundaryOf, GoodImage, Covers, Holds, Live, OffsetOf;
    var j, k := From(p), Survivors(im);
    assert im.records[j..k] == im.records[..k][j..];
    InOrderTake(s.order, im.records, im.start, k);
    InOrderTake(s.order, im.records[..k], im.start, j);
  }

  /** What is in effect after recovery: a set of requests of the one history. */
  lemma PairRecovers(s: Engine, im: Image, p: Snap)
    requires Numbers(s) && Paired(s, im, p)
    ensures Recover(p.bytes, im.bytes) == Ok(Live(s.order, RecoveredSet(s, im, p)))
    ensures Subset(RecoveredSet(s, im, p), s.order)
  {
    hide LogBytes, Survivors, BoundaryOf, GoodImage, Covers, Holds, Live, OffsetOf, ReplayFrom, ApplyAll, Recover,
      ReplayedRecords, Bounded, GC.Distinct;
    PairReplays(s, im, p);
    SuffixInOrder(s, im, p);
    ReplayOver(s.order, p.saved, im.records[From(p)..Survivors(im)]);
  }

  /** Every acknowledged request survives recovery. */
  lemma SureSurvive(s: Engine, im: Image, p: Snap)
    requires Numbers(s) && Paired(s, im, p)
    ensures s.sure <= RecoveredSet(s, im, p)
  {
    hide *;
    forall x | x in s.sure
      ensures x in RecoveredSet(s, im, p)
    {
      SurePlace(s, im, p, x);
    }
  }

  lemma SurePlace(s: Engine, im: Image, p: Snap, x: GC.Request)
    requires Numbers(s) && Paired(s, im, p) && x in s.sure
    ensures x in RecoveredSet(s, im, p)
  {
    hide Survivors, BoundaryOf, Holds, Live, OffsetOf, Bounded, GC.Distinct, LogBytes, AllBounded,
      ReplayedRecords, Recover, ReplayFrom, ApplyAll;
    PairReplays(s, im, p);
    SuffixInOrder(s, im, p);
    var rs := im.records[From(p)..Survivors(im)];
    if Ahead(s.order, im.records, x) {
      AheadIsSaved(s, im, p, x);
    } else {
      var i: nat :| Answers(s.order, im.records, i, x) && BoundaryOf(GC.Ops(im.records[..i + 1])) <= |im.bytes|;
      FrameSurvives(im, i);
      if im.records[i] != x {
        AnsweredIsSaved(s, im, p, i, x);
      } else if i >= From(p) {
        assert rs[i - From(p)] == x;
      } else {
        BelowOffset(s, im, p, i);
      }
    }
  }

  /** What comes before the log on its key was saved, and no replay of the log overrides it. */
  lemma AheadIsSaved(s: Engine, im: Image, p: Snap, x: GC.Request)
    requires Paired(s, im, p) && From(p) <= Survivors(im) <= |im.records| && x in s.sure && Ahead(s.order, im.records, x)
    ensures x in p.saved && x in s.order
    ensures var rs := im.records[From(p)..Survivors(im)];
            (forall j :: 0 <= j < |rs| ==> rs[j] in s.order) && !Superseded(s.order, rs, x)
  {
    hide Survivors, BoundaryOf, Holds, Live, OffsetOf, LogBytes, AllBounded, Covers, GoodImage;
    var rs := im.records[From(p)..Survivors(im)];
    forall j | 0 <= j < |im.records| - From(p)
      ensures im.records[From(p)..][j] != x
    {
      assert im.records[From(p)..][j] == im.records[From(p) + j];
    }
    forall j | 0 <= j < |rs|
      ensures rs[j] in s.order && (rs[j].op.key == x.op.key ==> Place(s.order, x) < Place(s.order, rs[j]))
    {
      assert rs[j] == im.records[From(p) + j];
    }
  }

  /** What a later record on its key answers for was saved, and no replay overrides it. */
  lemma AnsweredIsSaved(s: Engine, im: Image, p: Snap, i: nat, x: GC.Request)
    requires Paired(s, im, p) && From(p) <= Survivors(im) <= |im.records| && x in s.sure && i < Survivors(im)
    requires Answers(s.order, im.records, i, x) && im.records[i] != x
    ensures x in p.saved && x in s.order
    ensures var rs := im.records[From(p)..Survivors(im)];
            (forall j :: 0 <= j < |rs| ==> rs[j] in s.order) && !Superseded(s.order, rs, x)
  {
    hide Survivors, BoundaryOf, Holds, Live, OffsetOf, LogBytes, AllBounded, Covers, GoodImage;
    var rs := im.records[From(p)..Survivors(im)];
    assert x !in im.records[From(p)..];
    forall j | 0 <= j < |rs|
      ensures rs[j] in s.order
      ensures From(p) + j >= i ==> Place(s.order, x) < Place(s.order, rs[j])
    {
      assert rs[j] == im.records[From(p) + j];
    }
    if i >= From(p) { assert rs[i - From(p)] == im.records[i]; }
  }

  /** What lies below the offset was saved, and the replay comes after it. */
  lemma BelowOffset(s: Engine, im: Image, p: Snap, i: nat)
    requires Paired(s, im, p) && i < From(p) <= Survivors(im) <= |im.records| && im.records[i] in s.sure
    ensures im.records[i] in p.saved && im.records[i] in s.order
    ensures var rs := im.records[From(p)..Survivors(im)];
            (forall j :: 0 <= j < |rs| ==> rs[j] in s.order) && !Superseded(s.order, rs, im.records[i])
  {
    hide Survivors, BoundaryOf, Holds, Live, OffsetOf, LogBytes, AllBounded, Covers, GoodImage;
    var x, rs := im.records[i], im.records[From(p)..Survivors(im)];
    forall j | 0 <= j < |im.records| - From(p)
      ensures im.records[From(p)..][j] != x
    {
      assert im.records[From(p)..][j] == im.records[From(p) + j];
    }
    forall j | 0 <= j < |rs|
      ensures rs[j] in s.order && Place(s.order, x) < Place(s.order, rs[j])
    {
      assert rs[j] == im.records[From(p) + j];
    }
  }

  /** The log file that recovery leaves holds exactly the surviving records. */
  lemma PairFile(s: Engine, im: Image, p: Snap)
    requires Paired(s, im, p)
    ensures Survivors(im) <= |im.records|
    ensures var file, k := CutBack(im.bytes, OffsetOf(p)), Survivors(im);
            && (file == LogBytes(im.generation, GC.Ops(im.records[..k]))
              || (file == [] && k == 0 && |im.bytes| < HEADER_LENGTH))
            && |file| <= |im.bytes|
  {
    hide LogBytes, Whole, Size, AllBounded, InOrder, Covers, Holds, Live, OffsetOf, ReplayFrom, Recover,
      ReplayedRecords;
    PairReplays(s, im, p);
    var ops, n, k := GC.Ops(im.records), |im.bytes|, Survivors(im);
    assert im.bytes == LogBytes(im.generation, ops)[..n];
    if n >= HEADER_LENGTH {
      WholeBrackets(ops, n - HEADER_LENGTH);
      GC.OpsTake(im.records, k);
      PrefixLog(im.generation, ops, k);
    }
  }

  // ------------------------------------------------------------ the state after recovery

  lemma ReopenedOk(s: Engine, loss: bool, im: Image, p: Snap)
    requires GC.Inv(s.log) && Numbers(s) && Paired(s, im, p) && |im.bytes| <= MAX_STREAM_OFFSET
    ensures GC.Inv(Reopened(s, loss, im, p)) && |Reopened(s, loss, im, p).file| <= MAX_STREAM_OFFSET
  {
    hide LogBytes, Survivors, BoundaryOf, Covers, Holds, Live, OffsetOf, CutBack, KeptRecords, GC.Inv, Settles,
      Bounded, InOrder, GC.Distinct;
    PairFile(s, im, p);
    KeptAre(im);
    BatchPositive(s.log);
    var kept := KeptRecords(im);
    LogIsLong(im.generation, GC.Ops(kept));
    KeptDistinct(s, im, Survivors(im));
    var file := CutBack(im.bytes, OffsetOf(p));
    GC.OpenedInv(s.log.policy, s.log.maxBatch, if file == [] then 1 else im.generation, file,
                 if Settles(s, loss, im, p) then |file| else Least(s.log.synced, |file|), kept);
  }

  lemma BatchPositive(l: GC.Log)
    requires GC.Inv(l)
    ensures l.maxBatch > 0
  {
    hide LogBytes, BoundaryOf, Bounded, GC.Pipeline, GC.Completions, GC.Contents, GC.Durable;
  }

  lemma KeptDistinct(s: Engine, im: Image, k: nat)
    requires Numbers(s) && ImageOk(s, im) && k <= |im.records|
    ensures GC.Distinct(im.records[..k])
    ensures forall i :: 0 <= i < k ==> im.records[i].id < s.nextId && Bounded(im.records[i].op)
  {
    hide Bounded, Covers, GoodImage;
    forall i | 0 <= i < k
      ensures im.records[i].id < s.nextId && Bounded(im.records[i].op)
    {
      assert im.records[i] == s.order[Place(s.order, im.records[i])];
    }
    forall i, j | 0 <= i < j < k
      ensures im.records[i].id != im.records[j].id
    {
      assert Place(s.order, im.records[i]) < Place(s.order, im.records[j]);
    }
  }

  lemma RestartHistory(s: Engine, m: Engine, loss: bool, im: Image, p: Snap)
    requires Numbers(s) && Account(s) && Paired(s, im, p) && CanCrash(s, loss, im, p) && m == DoCrash(s, loss, im, p)
    ensures Threads(m) && Numbers(m) && Queued(m) && Account(m) && Ordered(m) && Memory(m)
  {
    hide LogBytes, Survivors, BoundaryOf, Covers, Holds, Live, OffsetOf, CutBack, KeptRecords, Settles, Bounded,
      InOrder, GC.Distinct, RecoveredSet, Recover, MayLeave, GoodImage, StoreOf, ImageOk;
    PairRecovers(s, im, p);
    SureSurvive(s, im, p);
    KeptAre2(s, im, p);
  }

  lemma KeptAre2(s: Engine, im: Image, p: Snap)
    requires Numbers(s) && Paired(s, im, p)
    ensures forall i :: 0 <= i < |KeptRecords(im)| ==> KeptRecords(im)[i].id < s.nextId
  {
    hide LogBytes, Survivors, BoundaryOf, Holds, Live, OffsetOf, KeptRecords, Bounded, InOrder, GC.Distinct,
      GoodImage, Covers;
    KeptAre(im);
    KeptDistinct(s, im, Survivors(im));
  }

  /** Acknowledged requests are still safe in the log that recovery leaves. */
  lemma RestartCovers(s: Engine, m: Engine, loss: bool, im: Image, p: Snap)
    requires LogOk(s) && Paired(s, im, p) && CanCrash(s, loss, im, p) && m == DoCrash(s, loss, im, p)
    ensures Covers(m, AtFloor(m))
  {
    hide LogOk, Paired, CanCrash, BoundaryOf, Reopened, RecoveredSet, OffsetOf, StoreOf, Recover, Settles;
    RestartFloor(s, m, loss, im, p);
    forall x | x in m.sure && !Ahead(m.order, m.log.records, x)
      ensures SafeAt(m.order, m.log.records, Floor(m), x)
    {
      if Ahead(s.order, im.records, x) { StaysAhead(s, im, p, x); }
      SafeAfter(s, m, loss, im, p, x);
    }
  }

  /** Fewer records, fewer to come before. */
  lemma StaysAhead(s: Engine, im: Image, p: Snap, x: GC.Request)
    requires Paired(s, im, p) && Ahead(s.order, im.records, x)
    ensures Ahead(s.order, KeptRecords(im), x)
  {
    hide BoundaryOf, Holds, Live, OffsetOf, InOrder, GoodImage, Covers, KeptRecords, Survivors;
    KeptAre(im);
  }

  /** A record that answers for the request ends within the first `n` bytes. */
  ghost predicate SafeAt(order: seq<GC.Request>, records: seq<GC.Request>, n: nat, x: GC.Request) {
    exists i :: Answers(order, records, i, x) && BoundaryOf(GC.Ops(records[..i + 1])) <= n
  }

  lemma RestartFloor(s: Engine, m: Engine, loss: bool, im: Image, p: Snap)
    requires CanCrash(s, loss, im, p) && m == DoCrash(s, loss, im, p)
    ensures var file := CutBack(im.bytes, OffsetOf(p));
            && m.log.file == file && m.log.records == KeptRecords(im)
            && Floor(m) == (if Settles(s, loss, im, p) || s.log.policy == Wal.Buffered then |file|
                            else Least(s.log.synced, |file|))
            && m.sure == s.sure && m.order == s.order && m.start == im.start
  {
    hide CutBack, KeptRecords, OffsetOf, Recover, RecoveredSet, MayLeave, StoreOf, Settles;
  }

  lemma SafeAfter(s: Engine, m: Engine, loss: bool, im: Image, p: Snap, x: GC.Request)
    requires LogOk(s) && Paired(s, im, p) && CanCrash(s, loss, im, p) && m == DoCrash(s, loss, im, p) && x in s.sure
    requires !Ahead(s.order, im.records, x)
    ensures SafeAt(m.order, m.log.records, Floor(m), x)
  {
    hide LogOk, Paired, CutBack, KeptRecords, BoundaryOf, Reopened, RecoveredSet, OffsetOf, StoreOf, Recover,
      Survivors, DoCrash;
    RestartFloor(s, m, loss, im, p);
    var i := SafeBefore(s, loss, im, p, x);
    SafeKept(s, im, p, i);
    assert Answers(m.order, m.log.records, i, x);
    assert m.log.records[..i + 1] == im.records[..i + 1];
    assert BoundaryOf(GC.Ops(m.log.records[..i + 1])) <= Floor(m);
  }

  lemma SafeBefore(s: Engine, loss: bool, im: Image, p: Snap, x: GC.Request) returns (i: nat)
    requires LogOk(s) && Paired(s, im, p) && MayLeave(s, loss, im, p) && x in s.sure
    requires !Ahead(s.order, im.records, x)
    ensures Answers(s.order, im.records, i, x) && BoundaryOf(GC.Ops(im.records[..i + 1])) <= |im.bytes|
    ensures !loss && s.log.policy != Wal.Buffered ==> BoundaryOf(GC.Ops(im.records[..i + 1])) <= s.log.synced
  {
    hide LogOk, Paired, Covers, BoundaryOf, MayRemain, GC.Ops, Placed, OffsetOf;
    if loss {
      PairCovers(s, im, p);
      i := CoveredAt(s, im, x);
    } else {
      FloorCovers(s);
      i := CoveredAt(s, AtFloor(s), x);
    }
  }

  lemma PairCovers(s: Engine, im: Image, p: Snap)
    requires Paired(s, im, p)
    ensures Covers(s, im)
  {
    hide Covers, GoodImage, InOrder, Holds, Live, OffsetOf, BoundaryOf;
  }

  lemma FloorCovers(s: Engine)
    requires LogOk(s)
    ensures Covers(s, AtFloor(s))
  {
    hide Covers, GoodImage, InOrder;
  }

  lemma CoveredAt(s: Engine, im: Image, x: GC.Request) returns (i: nat)
    requires Covers(s, im) && x in s.sure && !Ahead(s.order, im.records, x)
    ensures Answers(s.order, im.records, i, x) && BoundaryOf(GC.Ops(im.records[..i + 1])) <= |im.bytes|
  {
    hide BoundaryOf;
    i :| Answers(s.order, im.records, i, x) && BoundaryOf(GC.Ops(im.records[..i + 1])) <= |im.bytes|;
  }

  lemma SafeKept(s: Engine, im: Image, p: Snap, i: nat)
    requires Paired(s, im, p) && i < |im.records| && BoundaryOf(GC.Ops(im.records[..i + 1])) <= |im.bytes|
    ensures i < |KeptRecords(im)| <= |im.records| && KeptRecords(im) == im.records[..|KeptRecords(im)|]
    ensures BoundaryOf(GC.Ops(im.records[..i + 1])) <= |CutBack(im.bytes, OffsetOf(p))|
  {
    hide BoundaryOf, Holds, Live, OffsetOf, InOrder, GoodImage, Covers, CutBack, KeptRecords, Survivors;
    KeptAre(im);
    FrameSurvives(im, i);
    FrameKept(s, im, p, i);
  }

  lemma FrameKept(s: Engine, im: Image, p: Snap, i: nat)
    requires Paired(s, im, p) && i < Survivors(im)
    ensures i < |im.records| && BoundaryOf(GC.Ops(im.records[..i + 1])) <= |CutBack(im.bytes, OffsetOf(p))|
  {
    hide LogBytes, Survivors, BoundaryOf, Holds, Live, OffsetOf, CutBack, InOrder, GoodImage, Covers;
    PairFile(s, im, p);
    var kept := im.records[..Survivors(im)];
    LogIsLong(im.generation, GC.Ops(kept));
    GC.OpsTake(kept, i + 1);
    assert kept[..i + 1] == im.records[..i + 1];
    PrefixLog(im.generation, GC.Ops(kept), i + 1);
  }

  lemma RestartLogOk(s: Engine, m: Engine, loss: bool, im: Image, p: Snap)
    requires LogOk(s) && Numbers(s) && Paired(s, im, p) && CanCrash(s, loss, im, p) && m == DoCrash(s, loss, im, p)
    requires GC.Inv(m.log)
    ensures LogOk(m)
  {
    hide LogBytes, Survivors, BoundaryOf, Holds, Live, OffsetOf, CutBack, KeptRecords, Bounded, GC.Distinct,
      RecoveredSet, Recover, GoodImage, StoreOf, Covers, GC.Inv, InOrder, MayLeave, Settles;
    LogIsGood(m);
    ShorterIsGood(Current(m), Floor(m));
    RestartCovers(s, m, loss, im, p);
    KeptAre(im);
    InOrderTake(s.order, im.records, im.start, Survivors(im));
  }

  /** A snapshot that belonged to the log belongs to the log that recovery leaves. */
  lemma SavedAfter(s: Engine, m: Engine, loss: bool, im: Image, p: Snap, q: Snap)
    requires Numbers(s) && Paired(s, im, p) && Paired(s, im, q) && CanCrash(s, loss, im, p)
             && m == DoCrash(s, loss, im, p)
    requires m.stale != {} ==> s.sure <= q.saved
    ensures SavedOk(m, q.saved, OffsetOf(q), q.cover)
  {
    hide LogBytes, Survivors, BoundaryOf, Holds, Live, OffsetOf, CutBack, KeptRecords, Bounded, InOrder,
      GC.Distinct, RecoveredSet, Recover, GoodImage, StoreOf, Covers, MayLeave, Settles;
    KeptAre(im);
    CoverSurvives(s, im, q);
    var k := Survivors(im);
    if OffsetOf(q) != 0 {
      assert im.records[..k][..q.cover] == im.records[..q.cover];
      BoundaryKept(s, im, p, q);
    }
    forall x | x in s.sure && x !in q.saved
      ensures x in im.records[..k][From(q)..]
    {
      StillThere(s, im, q, x);
    }
  }

  lemma BoundaryKept(s: Engine, im: Image, p: Snap, q: Snap)
    requires Paired(s, im, p) && Paired(s, im, q) && OffsetOf(q) != 0
    ensures OffsetOf(q) <= |CutBack(im.bytes, OffsetOf(p))|
  {
    hide LogBytes, Survivors, BoundaryOf, Holds, Live, OffsetOf, CutBack, InOrder, Covers;
    CoverSurvives(s, im, q);
    PairFile(s, im, p);
    LogIsLong(im.generation, GC.Ops(im.records[..q.cover]));
    var kept := im.records[..Survivors(im)];
    GC.OpsTake(kept, q.cover);
    assert kept[..q.cover] == im.records[..q.cover];
    PrefixLog(im.generation, GC.Ops(kept), q.cover);
  }

  lemma StillThere(s: Engine, im: Image, q: Snap, x: GC.Request)
    requires Numbers(s) && Paired(s, im, q) && x in s.sure && x !in q.saved && From(q) <= Survivors(im) <= |im.records|
    ensures x in im.records[..Survivors(im)][From(q)..]
  {
    hide LogBytes, Survivors, BoundaryOf, Holds, Live, OffsetOf, GoodImage, Covers, InOrder, Numbers, From;
    var k, from := Survivors(im), From(q);
    var past := im.records[from..];
    var j :| 0 <= j < |past| && past[j] == x;
    ListedOnce(s.order, im.records, im.start, from + j, from + j);
    var i := CoveredAt(s, im, x);
    ListedOnce(s.order, im.records, im.start, i, from + j);
    FrameSurvives(im, i);
    assert im.records[..k][from..][j] == x;
  }

  lemma ListedOnce(order: seq<GC.Request>, rs: seq<GC.Request>, start: nat, i: nat, j: nat)
    requires InOrder(order, rs, start) && i < |rs| && j < |rs| && rs[i] == rs[j]
    ensures i == j && rs[i] in order && start <= Place(order, rs[i])
  {
  }

  lemma SnapAfter(s: Engine, m: Engine, loss: bool, im: Image, p: Snap, q: Snap)
    requires Numbers(s) && Paired(s, im, p) && Paired(s, im, q) && CanCrash(s, loss, im, p)
             && m == DoCrash(s, loss, im, p)
    requires m.stale != {} ==> s.sure <= q.saved
    ensures SnapOk(m, q) && (OffsetOf(q) == 0 ==> SnapOk(m, q.(cover := 0)))
  {
    hide SavedOk, Live, Holds, ImageOk, CanCrash, Numbers, Reopened, RecoveredSet, StoreOf, Recover, BoundaryOf,
      Settles;
    SavedAfter(s, m, loss, im, p, q);
    SamePlace(q);
    if OffsetOf(q) == 0 { CoverMatters(m, q.saved, q.cover); }
  }

  lemma SamePlace(q: Snap)
    ensures OffsetOf(q.(cover := 0)) == OffsetOf(q)
  {
  }

  lemma CoverMatters(m: Engine, saved: set<GC.Request>, cover: nat)
    requires SavedOk(m, saved, 0, cover)
    ensures SavedOk(m, saved, 0, 0)
  {
    hide GC.EndOf;
  }

  lemma RestartSnapshots(s: Engine, m: Engine, loss: bool, im: Image, p: Snap)
    requires LogOk(s) && Numbers(s) && Snapshots(s) && Stale(s) && |s.log.file| <= MAX_STREAM_OFFSET
    requires Paired(s, im, p) && CanCrash(s, loss, im, p) && m == DoCrash(s, loss, im, p)
    ensures Snapshots(m)
  {
    hide SnapOk, LogOk, Numbers, Stale, Paired, Reopened, RecoveredSet, StoreOf, Recover, Settles, OffsetOf, MayRemain;
    if loss {
      assert m.stale == {} by { LossSettles(s, loss, im, p); }
      SnapAfter(s, m, loss, im, p, p);
    } else {
      forall q | q in s.durable
        ensures SnapOk(m, q)
      {
        SavedEnough(s, q);
        OthersPaired(s, q);
        SnapAfter(s, m, loss, im, p, q);
      }
    }
  }

  lemma LossSettles(s: Engine, loss: bool, im: Image, p: Snap)
    requires loss
    ensures Settles(s, loss, im, p)
  {
  }

  lemma SavedEnough(s: Engine, q: Snap)
    requires SnapOk(s, q)
    ensures s.stale != {} ==> s.sure <= q.saved
  {
    hide Live, Holds, GC.EndOf;
  }

  /** After the death of the process alone, every snapshot that might come back belongs to the log. */
  lemma OthersPaired(s: Engine, q: Snap)
    requires LogOk(s) && Snapshots(s) && Stale(s) && |s.log.file| <= MAX_STREAM_OFFSET && q in s.durable
    ensures Paired(s, Current(s), q)
  {
    hide ImageOk, LogOk, Holds, Live, BoundaryOf, OffsetOf, Stale;
    LeftIsOk(s, false, Current(s), s.visible);
    assert SnapOk(s, q);
  }

  lemma RestartStale(s: Engine, m: Engine, loss: bool, im: Image, p: Snap)
    requires Stale(s) && CanCrash(s, loss, im, p) && m == DoCrash(s, loss, im, p)
    ensures Stale(m)
  {
    hide ImageOk, CutBack, KeptRecords, OffsetOf, Recover, RecoveredSet, MayLeave, StoreOf;
    ImagesKept(s, m);
  }

  lemma RestartPast(s: Engine, m: Engine, loss: bool, im: Image, p: Snap)
    requires Past(s) && CanCrash(s, loss, im, p) && m == DoCrash(s, loss, im, p)
    ensures Past(m)
  {
    hide CutBack, KeptRecords, OffsetOf, Recover, RecoveredSet, MayLeave, StoreOf, Settles;
  }

  lemma RestartLog(s: Engine, m: Engine, loss: bool, im: Image, p: Snap)
    requires GC.Inv(s.log) && Numbers(s) && Paired(s, im, p) && |im.bytes| <= MAX_STREAM_OFFSET
    requires CanCrash(s, loss, im, p) && m == DoCrash(s, loss, im, p)
    ensures GC.Inv(m.log) && |m.log.file| <= MAX_STREAM_OFFSET
  {
    hide GC.Inv, Numbers, Paired, Reopened, OffsetOf, Recover, RecoveredSet, MayLeave, StoreOf, Settles;
    ReopenedOk(s, loss, im, p);
  }

  lemma CrashInv(s: Engine, loss: bool, im: Image, p: Snap)
    requires Inv(s) && CanCrash(s, loss, im, p) && Aligned(im, p)
    ensures Inv(DoCrash(s, loss, im, p))
  {
    hide *;
    var m := DoCrash(s, loss, im, p);
    InvParts(s);
    CrashLeaves(s, loss, im, p);
    LeftArePaired(s, loss, im, p);
    RestartLog(s, m, loss, im, p);
    RestartHistory(s, m, loss, im, p);
    RestartLogOk(s, m, loss, im, p);
    RestartSnapshots(s, m, loss, im, p);
    RestartStale(s, m, loss, im, p);
    RestartPast(s, m, loss, im, p);
    InvWhole(m);
  }

  lemma CrashLeaves(s: Engine, loss: bool, im: Image, p: Snap)
    requires CanCrash(s, loss, im, p)
    ensures MayLeave(s, loss, im, p)
  {
  }
}
