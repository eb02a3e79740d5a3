/**
 * What a power loss may take back. A restart does not sync the log it finds, so a request
 * that was never acknowledged may be in effect, be read, and be gone after the next power
 * loss. Which requests are safe is decided by the synced length and the snapshot alone.
 */
module TakenBack {
  import opened Record
  import opened Replay
  import opened Recovery
  import opened Histories
  import opened Engine
  import opened EngineCalls
  import opened EngineWriter
  import opened EngineRestart
  import opened Guarantees
  import opened GuardedRuns
  import Wal
  import GC = GroupCommit

  // ------------------------------------------------------------ one power loss

  /** The requests in effect after a power loss that leaves this much of the log and this snapshot. */
  ghost function LeftAfter(s: Engine, image: Image, q: Snap): set<GC.Request> {
    RecoveredSet(s, image, Placed(image, q))
  }

  /** Where the replay after such a loss ends: with the last whole record, unless the offset lies beyond it. */
  function LastReplayed(image: Image, q: Snap): nat {
    if Aligned(image, q) then Survivors(image) else From(q)
  }

  lemma PlaceOfSnap(s: Engine, image: Image, q: Snap)
    requires SnapOk(s, q) && GoodImage(image) && image.records == s.log.records
    ensures var p := Placed(image, q);
            && p.bytes == q.bytes && p.saved == q.saved && OffsetOf(p) == OffsetOf(q) && From(p) == From(q)
            && (Aligned(image, p) <==> Aligned(image, q)) && From(q) <= |s.log.records|
            && (!Aligned(image, q) ==> OffsetOf(q) > |image.bytes|)
  {
    hide Live, Holds, OffsetOf, BoundaryOf, GoodImage, WholeRecords, EndsWhole;
    var p := Placed(image, q);
    if !Aligned(image, q) { BeyondTheLog(s, image, q); }
    SameOffset(image, q);
    if OffsetOf(q) != 0 && OffsetOf(q) <= |image.bytes| {
      WholeIffBoundary(image, OffsetOf(q));
      assert IsBoundary(image, OffsetOf(q), q.cover);
    }
  }

  lemma SameOffset(image: Image, q: Snap)
    ensures OffsetOf(Placed(image, q)) == OffsetOf(q)
  {
    hide WholeRecords;
  }

  /** What recovery makes of the two files: the snapshot, and the records from its offset to the last whole one. */
  lemma LossReplays(s: Engine, image: Image, q: Snap)
    requires Inv(s) && s.log.policy != Wal.Buffered && q in s.durable && MayRemain(s, image)
    ensures From(q) <= LastReplayed(image, q) <= |s.log.records|
    ensures ReplayedRecords(image, Placed(image, q)) == s.log.records[From(q)..LastReplayed(image, q)]
    ensures Recover(q.bytes, image.bytes) == Ok(Live(s.order, LeftAfter(s, image, q)))
    ensures Subset(q.saved, s.order) && InOrder(s.order, s.log.records, s.start)
  {
    hide Inv, GC.Inv, Threads, Numbers, Queued, Account, Ordered, Memory, Snapshots, Stale, Past, SnapOk, Live,
      Recover, OffsetOf, GoodImage, InOrder, Covers, Aligned, Survivors, RecoveredSet, ReplayedRecords, Paired, Placed,
      From;
    InvParts(s);
    DurableOk(s, q);
    LogInOrder(s);
    SavedIsHistory(s, q);
    var p := Placed(image, q);
    LeftIsOk(s, true, image, p);
    PlaceOfSnap(s, image, q);
    if Aligned(image, q) {
      LeftArePaired(s, true, image, p);
      PairReplays(s, image, p);
      PairRecovers(s, image, p);
    } else {
      NothingLeft(s, image, q);
      NothingToReplay(s, true, image, p);
      SnapshotAlone(s, true, image, p);
    }
  }

  lemma SavedIsHistory(s: Engine, q: Snap)
    requires SnapOk(s, q)
    ensures Subset(q.saved, s.order)
  {
    hide Live, Holds, SavedOk;
  }

  /** Beyond the log nothing is replayed. */
  lemma NothingLeft(s: Engine, image: Image, q: Snap)
    requires SnapOk(s, q) && GoodImage(image) && image.records == s.log.records && !Aligned(image, q)
    requires From(Placed(image, q)) == From(q) && Placed(image, q).saved == q.saved && OffsetOf(q) > |image.bytes|
    ensures ReplayedRecords(image, Placed(image, q)) == [] && RecoveredSet(s, image, Placed(image, q)) == q.saved
  {
    hide Live, Holds, OffsetOf, Aligned, GoodImage, Survivors, KeptRecords, Placed, BoundaryOf;
    KeptAre(image);
    FewerLeft(s, image, q);
    if OffsetOf(q) == HEADER_LENGTH { NoneWithoutHeader(image); }
    assert ReplayedRecords(image, Placed(image, q)) == [];
  }

  lemma NoneWithoutHeader(image: Image)
    requires |image.bytes| < HEADER_LENGTH
    ensures Survivors(image) == 0
  {
  }

  // ------------------------------------------------------------ one request

  /** An earlier record on the same key, from the snapshot's offset on. */
  predicate Earlier(s: Engine, q: Snap, i: nat, k: nat)
    requires i < |s.log.records| && k <= |s.log.records|
  {
    exists j :: From(q) <= j < k && s.log.records[j].op.key == s.log.records[i].op.key
  }

  /**
   * A record of the log is in effect after the loss if it is replayed, or if it was saved and
   * no older record on its key is replayed over it.
   */
  lemma LeftIff(s: Engine, image: Image, q: Snap, i: nat)
    requires Inv(s) && s.log.policy != Wal.Buffered && q in s.durable && MayRemain(s, image) && i < |s.log.records|
    ensures From(q) <= LastReplayed(image, q) <= |s.log.records|
    ensures var x, k := s.log.records[i], LastReplayed(image, q);
            x in LeftAfter(s, image, q) <==>
            From(q) <= i < k || (x in q.saved && (i < From(q) || !Earlier(s, q, i, k)))
  {
    hide Inv, Live, Recover, OffsetOf, InOrder, LastReplayed, MayRemain, ReplayedRecords, Placed, From;
    LossReplays(s, image, q);
    SavedSame(image, q);
    var from, k, x := From(q), LastReplayed(image, q), s.log.records[i];
    var rs := s.log.records[from..k];
    assert rs == s.log.records[..k][from..];
    InOrderTake(s.order, s.log.records, s.start, k);
    InOrderTake(s.order, s.log.records[..k], s.start, from);
    InSlice(s.order, s.log.records, s.start, from, k, i);
    AllInOrder(s.order, rs, s.start);
    AllInOrder(s.order, s.log.records, s.start);
    assert s.log.records[i] in s.order;
    OverriddenIff(s, q, i, k);
  }

  lemma SavedSame(image: Image, q: Snap)
    ensures Placed(image, q).saved == q.saved
  {
    hide WholeRecords, OffsetOf;
  }

  lemma AllInOrder(order: seq<GC.Request>, rs: seq<GC.Request>, start: nat)
    requires InOrder(order, rs, start)
    ensures forall i :: 0 <= i < |rs| ==> rs[i] in order
  {
  }

  /** A record that is not replayed itself is overridden by older ones on its key alone. */
  lemma OverriddenIff(s: Engine, q: Snap, i: nat, k: nat)
    requires InOrder(s.order, s.log.records, s.start) && i < |s.log.records| && From(q) <= k <= |s.log.records|
    ensures var rs := s.log.records[From(q)..k];
            && s.log.records[i] in s.order && (forall j :: 0 <= j < |rs| ==> rs[j] in s.order)
            && (!(From(q) <= i < k) ==>
                  (Superseded(s.order, rs, s.log.records[i]) <==> i >= From(q) && Earlier(s, q, i, k)))
  {
    hide OffsetOf, From;
    var rs, from, x := s.log.records[From(q)..k], From(q), s.log.records[i];
    forall j | 0 <= j < |rs|
      ensures rs[j] == s.log.records[from + j] && rs[j] in s.order
    {
    }
    if !(from <= i < k) {
      InSlice(s.order, s.log.records, s.start, from, k, i);
      if i < from {
        forall j | 0 <= j < |rs|
          ensures Place(s.order, x) < Place(s.order, rs[j])
        {
          assert rs[j] == s.log.records[from + j];
        }
      } else {
        forall j | 0 <= j < |rs|
          ensures Place(s.order, rs[j]) < Place(s.order, x)
        {
          assert rs[j] == s.log.records[from + j];
        }
        if Earlier(s, q, i, k) {
          var j :| from <= j < k && s.log.records[j].op.key == x.op.key;
          assert rs[j - from] == s.log.records[j];
        }
      }
    }
  }

  // ------------------------------------------------------------ every power loss

  /** Every power loss on the current log keeps the request, if this snapshot is left. */
  ghost predicate AlwaysKept(s: Engine, q: Snap, x: GC.Request) {
    forall image :: MayRemain(s, image) ==> x in LeftAfter(s, image, q)
  }

  /** The same for those after which the restart check passes. */
  ghost predicate KeptIfChecked(s: Engine, q: Snap, x: GC.Request) {
    forall image :: MayRemain(s, image) && Aligned(image, q) ==> x in LeftAfter(s, image, q)
  }

  /**
   * What decides it: the record is past the snapshot's offset and synced; or it was saved, and
   * the log has no older record on its key past that offset.
   */
  predicate IsSafe(s: Engine, q: Snap, i: nat)
    requires i < |s.log.records|
  {
    || (From(q) <= i && GC.EndOf(s.log, i + 1) <= s.log.synced)
    || (s.log.records[i] in q.saved && (i < From(q) || !Earlier(s, q, i, i)))
  }

  /** A file of the log that ends after `n` bytes. */
  function CutTo(s: Engine, n: nat): Image
    requires n <= |s.log.file|
  {
    Current(s).(bytes := s.log.file[..n])
  }

  /**
   * Exactly when a record of the log survives every power loss. Where it does not, one that
   * passes the restart check takes it back.
   */
  lemma KeptIffSafe(s: Engine, q: Snap, i: nat)
    requires Inv(s) && s.log.policy != Wal.Buffered && q in s.durable && i < |s.log.records|
    ensures AlwaysKept(s, q, s.log.records[i]) <==> IsSafe(s, q, i)
    ensures KeptIfChecked(s, q, s.log.records[i]) <==> IsSafe(s, q, i)
  {
    hide Inv, LeftAfter, MayRemain, Aligned, IsSafe;
    if IsSafe(s, q, i) {
      forall image | MayRemain(s, image)
        ensures s.log.records[i] in LeftAfter(s, image, q)
      {
        SafeIsLeft(s, image, q, i);
      }
    } else {
      var image := WorstLoss(s, q, i);
    }
  }

  lemma SafeIsLeft(s: Engine, image: Image, q: Snap, i: nat)
    requires Inv(s) && s.log.policy != Wal.Buffered && q in s.durable && MayRemain(s, image) && i < |s.log.records|
    requires IsSafe(s, q, i)
    ensures s.log.records[i] in LeftAfter(s, image, q)
  {
    hide Inv, GC.Inv, Threads, Numbers, Queued, Account, Ordered, Memory, Snapshots, Stale, Past, LeftAfter,
      LogOk, GC.EndOf;
    LeftIff(s, image, q, i);
    if From(q) <= i && GC.EndOf(s.log, i + 1) <= s.log.synced {
      InvParts(s);
      DurableOk(s, q);
      CurrentIsGood(s);
      ShorterIsGood(Current(s), |image.bytes|);
      SyncedSurvives(s, image, q, i);
    }
  }

  lemma SyncedSurvives(s: Engine, image: Image, q: Snap, i: nat)
    requires SnapOk(s, q) && GoodImage(image) && image.records == s.log.records && From(q) <= i < |s.log.records|
    requires GC.EndOf(s.log, i + 1) <= |image.bytes|
    ensures Aligned(image, q) && i < LastReplayed(image, q)
  {
    hide Live, Holds, OffsetOf, BoundaryOf, GoodImage, Survivors, Aligned;
    FrameSurvives(image, i);
    if OffsetOf(q) != 0 { GC.EndOfMonotone(s.log, q.cover, i + 1); }
    if !Aligned(image, q) { BeyondTheLog(s, image, q); }
  }

  /** A power loss that takes an unsafe record back: the file ends just before it, or where it is synced. */
  lemma WorstLoss(s: Engine, q: Snap, i: nat) returns (image: Image)
    requires Inv(s) && s.log.policy != Wal.Buffered && q in s.durable && i < |s.log.records| && !IsSafe(s, q, i)
    ensures MayRemain(s, image) && Aligned(image, q) && s.log.records[i] !in LeftAfter(s, image, q)
  {
    hide Inv, GC.Inv, Threads, Numbers, Queued, Account, Ordered, Memory, Snapshots, Stale, Past, LeftAfter, LogOk,
      GC.EndOf, SnapOk, Aligned, MayRemain, LastReplayed, From;
    InvParts(s);
    DurableOk(s, q);
    CurrentIsGood(s);
    SyncedIsThere(s.log);
    if i < From(q) {
      image := CutTo(s, |s.log.file|);
      NothingCut(s, q);
      LeftIff(s, image, q, i);
    } else {
      var n := CutBefore(s, q, i);
      image := CutTo(s, n);
      LeftIff(s, image, q, i);
    }
  }

  lemma NothingCut(s: Engine, q: Snap)
    requires SnapOk(s, q) && GoodImage(Current(s)) && s.log.synced <= |s.log.file|
    ensures var image := CutTo(s, |s.log.file|);
            MayRemain(s, image) && Aligned(image, q)
  {
    hide Live, Holds, OffsetOf, BoundaryOf, GoodImage, Aligned;
    var image := CutTo(s, |s.log.file|);
    assert s.log.file[..|s.log.file|] == s.log.file;
    if !Aligned(image, q) { BeyondTheLog(s, image, q); }
  }

  /** Where to cut the file so that only records before an unsynced one are left; all of them, if it was saved. */
  lemma CutBefore(s: Engine, q: Snap, i: nat) returns (n: nat)
    requires GC.Inv(s.log) && SnapOk(s, q) && GoodImage(Current(s)) && s.log.synced <= |s.log.file|
    requires From(q) <= i < |s.log.records| && GC.EndOf(s.log, i + 1) > s.log.synced
    ensures n <= |s.log.file| && MayRemain(s, CutTo(s, n)) && Aligned(CutTo(s, n), q)
    ensures LastReplayed(CutTo(s, n), q) <= i
    ensures s.log.records[i] in q.saved ==> LastReplayed(CutTo(s, n), q) == i
  {
    hide Live, Holds, OffsetOf, GoodImage, Aligned, BoundaryOf, GC.Inv, Survivors;
    var end := if GC.EndOf(s.log, i) < s.log.synced then s.log.synced else GC.EndOf(s.log, i);
    n := Least(|s.log.file|, end);
    var image := CutTo(s, n);
    ShorterIsGood(Current(s), n);
    if OffsetOf(q) != 0 { GC.EndOfMonotone(s.log, q.cover, i); }
    if !Aligned(image, q) { BeyondTheLog(s, image, q); }
    EndsAfter(s.log, i);
    CutSurvivors(image, i);
    if s.log.records[i] in q.saved { AckedInFile(s.log, i); }
  }

  lemma EndsAfter(l: GC.Log, i: nat)
    requires i < |l.records|
    ensures GC.EndOf(l, i) < GC.EndOf(l, i + 1)
  {
    hide BoundaryOf;
    GC.OpsTake(l.records, i);
    GC.OpsTake(l.records, i + 1);
    BoundariesInOrder(GC.Ops(l.records), i + 1, i);
  }

  /** How many records are left of a cut file, by where they end. */
  lemma CutSurvivors(image: Image, i: nat)
    requires i < |image.records|
    ensures BoundaryOf(GC.Ops(image.records[..i + 1])) > |image.bytes| ==> Survivors(image) <= i
    ensures BoundaryOf(GC.Ops(image.records[..i])) <= |image.bytes| ==> i <= Survivors(image)
  {
    hide BoundaryOf, Kept;
    var ops := GC.Ops(image.records);
    GC.OpsTake(image.records, i);
    GC.OpsTake(image.records, i + 1);
    if BoundaryOf(ops[..i]) <= |image.bytes| { KeptAtLeast(ops, i, |image.bytes|); }
    if Survivors(image) > i { KeptEnds(ops, i + 1, |image.bytes|); }
  }

  lemma KeptEnds(ops: seq<Op>, j: nat, n: nat)
    requires 0 < j <= Kept(ops, n)
    ensures BoundaryOf(ops[..j]) <= n
  {
    hide Size, Whole;
    WholeBrackets(ops, n - HEADER_LENGTH);
    Wal.SizeMonotone(ops, j, Kept(ops, n));
  }

  lemma AckedInFile(l: GC.Log, i: nat)
    requires GC.Inv(l) && i < l.acked
    ensures i < |l.records| && GC.EndOf(l, i) <= |l.file|
  {
    hide LogBytes, GC.EndOf, Bounded, GC.Pipeline, GC.Completions, GC.Contents, GC.AcceptedBounded;
    GC.EndOfMonotone(l, i, l.acked);
  }

  /**
   * So at any point where a record is not safe, some power loss after which the restart goes
   * ahead takes it back.
   */
  lemma UnsafeIsTakenBack(s: Engine, q: Snap, i: nat) returns (e: Event)
    requires Reachable(s) && s.log.policy != Wal.Buffered && q in s.durable && i < |s.log.records| && !IsSafe(s, q, i)
    ensures e.Crash? && e.loss && Enabled(s, e) && Possible(s, e) && s.log.records[i] !in Step(s, e).live
  {
    hide Reachable, Inv, IsSafe, MayRemain, Aligned, Recover, RecoveredSet, Placed, GC.Inv, Threads, Numbers, Queued,
      Account, Ordered, Memory, LogOk, Snapshots, Stale, Past, Live, OffsetOf, Reopened, Settles, StoreOf;
    ReachableInv(s);
    var image := WorstLoss(s, q, i);
    LossReplays(s, image, q);
    SameFile(image, q);
    e := Crash(true, image, Placed(image, q));
  }

  lemma SameFile(image: Image, q: Snap)
    ensures Placed(image, q).bytes == q.bytes && (Aligned(image, Placed(image, q)) <==> Aligned(image, q))
  {
    hide WholeRecords, EndsWhole;
  }

  // ------------------------------------------------------------ logs that come back

  /** The records that a restart replays from a log whose truncation was undone. */
  function BroughtBack(image: Image, q: Snap): seq<GC.Request> {
    ReplayedRecords(image, Placed(image, q))
  }

  /**
   * The request is among them; or it was saved, and not all of them that have its key come
   * before it in the history.
   */
  ghost predicate Outlives(s: Engine, image: Image, q: Snap, x: GC.Request) {
    var rs := BroughtBack(image, q);
    || x in rs
    || (x in q.saved && ((forall j :: 0 <= j < |rs| ==> rs[j].op.key != x.op.key)
      || exists j :: 0 <= j < |rs| && rs[j].op.key == x.op.key && rs[j] in s.order && x in s.order
                     && Place(s.order, x) < Place(s.order, rs[j])))
  }

  /** A truncated log brought back under a snapshot that fits it leaves exactly what outlives it. */
  lemma BroughtBackLeaves(s: Engine, image: Image, q: Snap, x: GC.Request)
    requires Inv(s) && s.log.policy != Wal.Buffered && q in s.durable && image in s.stale && Aligned(image, q)
    ensures x in LeftAfter(s, image, q) <==> Outlives(s, image, q, x)
    ensures Recover(q.bytes, image.bytes) == Ok(Live(s.order, LeftAfter(s, image, q)))
  {
    hide Inv, GC.Inv, Threads, Numbers, Queued, Account, Ordered, Memory, Snapshots, Stale, Past, SnapOk, Live,
      Recover, OffsetOf, GoodImage, InOrder, Covers, Aligned, Survivors, ReplayedRecords, Paired, Placed, From, LogOk,
      Superseded;
    InvParts(s);
    DurableOk(s, q);
    SavedIsHistory(s, q);
    SavedSame(image, q);
    SameFile(image, q);
    var p := Placed(image, q);
    LeftArePaired(s, true, image, p);
    PairReplays(s, image, p);
    PairRecovers(s, image, p);
    SuffixInOrder(s, image, p);
    AllInOrder(s.order, BroughtBack(image, q), 0);
    if x in q.saved { SupersededIff(s.order, BroughtBack(image, q), x); }
  }

  lemma SupersededIff(order: seq<GC.Request>, rs: seq<GC.Request>, x: GC.Request)
    requires x in order && forall i :: 0 <= i < |rs| ==> rs[i] in order
    ensures x !in rs ==>
              (!Superseded(order, rs, x) <==>
                 || (forall j :: 0 <= j < |rs| ==> rs[j].op.key != x.op.key)
                 || exists j :: 0 <= j < |rs| && rs[j].op.key == x.op.key && rs[j] in order && x in order
                                && Place(order, x) < Place(order, rs[j]))
  {
    forall j | 0 <= j < |rs| && Place(order, rs[j]) == Place(order, x)
      ensures rs[j] == x
    {
    }
  }

  /** Every power loss after which the restart goes ahead keeps the request, if this snapshot is left. */
  ghost predicate KeptByAll(s: Engine, q: Snap, x: GC.Request) {
    forall image :: (MayRemain(s, image) || image in s.stale) && Aligned(image, q) ==> x in LeftAfter(s, image, q)
  }

  /** The exact condition with the logs that may come back: the record is safe, and outlives each of them that fits. */
  lemma KeptIffSafeFromAll(s: Engine, q: Snap, i: nat)
    requires Inv(s) && s.log.policy != Wal.Buffered && q in s.durable && i < |s.log.records|
    ensures KeptByAll(s, q, s.log.records[i]) <==>
            && IsSafe(s, q, i)
            && (forall image :: image in s.stale && Aligned(image, q) ==> Outlives(s, image, q, s.log.records[i]))
  {
    hide Inv, LeftAfter, MayRemain, Aligned, IsSafe, Outlives;
    KeptIffSafe(s, q, i);
    forall image | image in s.stale && Aligned(image, q)
      ensures s.log.records[i] in LeftAfter(s, image, q) <==> Outlives(s, image, q, s.log.records[i])
    {
      BroughtBackLeaves(s, image, q, s.log.records[i]);
    }
  }

  // ------------------------------------------------------------ after an acknowledged write

  /**
   * One acknowledged write after the restart settles it: from then on a record of the log is
   * safe exactly if the snapshot holds it or it is past the snapshot's offset.
   */
  lemma SettledByWrite(s: Engine, q: Snap, i: nat)
    requires Reachable(s) && s.log.policy != Wal.Buffered && q in s.durable
    requires s.log.found < s.log.acked <= |s.log.records| && i < s.log.acked
    ensures AlwaysKept(s, q, s.log.records[i]) <==> From(q) <= i || s.log.records[i] in q.saved
  {
    hide Reachable, Inv, AlwaysKept, KeptIfChecked, GC.Inv, GC.EndOf, Threads, Numbers, Queued, Account, Ordered,
      Memory, LogOk, Snapshots, Stale, Past, From;
    ReachableInv(s);
    InvParts(s);
    AckedIsSynced(s.log, i);
    KeptIffSafe(s, q, i);
  }

  lemma AckedIsSynced(l: GC.Log, i: nat)
    requires GC.Inv(l) && l.policy != Wal.Buffered && l.found < l.acked <= |l.records| && i < l.acked
    ensures GC.EndOf(l, i + 1) <= l.synced
  {
    hide LogBytes, GC.EndOf, Bounded, GC.Pipeline, GC.Completions, GC.Contents, GC.AcceptedBounded;
    GC.EndOfMonotone(l, i + 1, l.acked);
  }
}
