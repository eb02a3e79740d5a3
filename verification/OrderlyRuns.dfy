/**
 * Where the requests in effect are kept. The snapshot in place and the log behind its offset
 * hold all of them, and no older record of the log can override one that the snapshot holds.
 * Every step keeps this, except a power loss that brings a truncated log back under a
 * snapshot of the log that followed it.
 */
module OrderlyRuns {
  import opened Record
  import opened Replay
  import opened Snapshot
  import opened Recovery
  import opened Histories
  import opened Engine
  import opened EngineInv
  import opened EngineCalls
  import opened EngineWriter
  import opened EngineRestart
  import opened Durability
  import opened GuardedRuns
  import opened Captures
  import opened TakenBack
  import GC = GroupCommit

  /**
   * No record of the log on its key comes before the request; or one of the first `n` records
   * is its own, or a later one on its key.
   */
  ghost predicate RootedIn(order: seq<GC.Request>, records: seq<GC.Request>, n: nat, x: GC.Request) {
    Ahead(order, records, x) || exists i: nat :: i < n && Answers(order, records, i, x)
  }

  ghost predicate Rooted(s: Engine, saved: set<GC.Request>, n: nat) {
    n <= |s.log.records| && forall x :: x in saved ==> RootedIn(s.order, s.log.records, n, x)
  }

  /** What was saved and the log from this record on hold every request in effect. */
  ghost predicate Backs(s: Engine, saved: set<GC.Request>, from: nat) {
    from <= |s.log.records| && forall x :: x in s.live ==> x in saved || x in s.log.records[from..]
  }

  function CopyFrom(c: Copy): nat {
    if c.offset == 0 then 0 else c.cover
  }

  ghost predicate CopyGood(s: Engine, c: Copy) {
    Backs(s, c.saved, CopyFrom(c)) && (c.offset != 0 ==> Rooted(s, c.saved, c.cover))
  }

  ghost predicate CopyBacks(s: Engine, pc: Pc) {
    pc.Admin? && HasCopy(pc.stage) ==> CopyGood(s, pc.stage.copy)
  }

  ghost predicate SnapRooted(s: Engine, q: Snap) {
    OffsetOf(q) != 0 ==> Rooted(s, q.saved, q.cover)
  }

  ghost predicate Orderly(s: Engine) {
    && Rooted(s, s.live, s.log.acked)
    && s.visible in s.durable && Backs(s, s.visible.saved, From(s.visible))
    && (forall q :: q in s.durable ==> SnapRooted(s, q))
    && (forall t :: t in s.threads ==> CopyBacks(s, s.threads[t]))
  }

  // ------------------------------------------------------------ steps that leave the log alone

  lemma RootedSame(s: Engine, m: Engine, saved: set<GC.Request>, n: nat)
    requires Rooted(s, saved, n) && m.log.records == s.log.records && m.order == s.order
    ensures Rooted(m, saved, n)
  {
    hide RootedIn;
  }

  lemma BacksSame(s: Engine, m: Engine, saved: set<GC.Request>, from: nat)
    requires Backs(s, saved, from) && m.log.records == s.log.records && m.live == s.live
    ensures Backs(m, saved, from)
  {
  }

  lemma SnapSame(s: Engine, m: Engine, q: Snap)
    requires SnapRooted(s, q) && m.log.records == s.log.records && m.order == s.order
    ensures SnapRooted(m, q)
  {
    hide Rooted, OffsetOf;
    if OffsetOf(q) != 0 { RootedSame(s, m, q.saved, q.cover); }
  }

  lemma CopySame(s: Engine, m: Engine, pc: Pc)
    requires CopyBacks(s, pc) && m.log.records == s.log.records && m.live == s.live && m.order == s.order
    ensures CopyBacks(m, pc)
  {
    hide Rooted, Backs;
    if pc.Admin? && HasCopy(pc.stage) {
      var c := pc.stage.copy;
      BacksSame(s, m, c.saved, CopyFrom(c));
      if c.offset != 0 { RootedSame(s, m, c.saved, c.cover); }
    }
  }

  // ------------------------------------------------------------ calls

  /** An acknowledged request is in every good snapshot, or past its offset in the log. */
  lemma SureBacked(s: Engine, saved: set<GC.Request>, offset: nat, cover: nat, r: GC.Request)
    requires SavedOk(s, saved, offset, cover) && r in s.sure
    ensures var from := if offset == 0 then 0 else cover;
            from <= |s.log.records| && (r in saved || r in s.log.records[from..])
  {
    hide GC.EndOf;
  }

  lemma MoreInEffect(s: Engine, m: Engine, saved: set<GC.Request>, offset: nat, cover: nat, r: GC.Request)
    requires SavedOk(s, saved, offset, cover) && m.log.records == s.log.records && r in s.sure
    requires m.live == s.live + {r} && Backs(s, saved, if offset == 0 then 0 else cover)
    ensures Backs(m, saved, if offset == 0 then 0 else cover)
  {
    hide SavedOk;
    SureBacked(s, saved, offset, cover, r);
  }

  lemma CallOrderly(s: Engine, t: nat, call: Call)
    requires Inv(s) && Orderly(s) && CanCall(s, t, call)
    ensures Orderly(DoCall(s, t, call))
  {
    hide Inv, Orderly, CanCall, DoCall;
    if call.Mutate? {
      MutateIs(s, t);
      MutateOrderly(s, t);
    } else {
      QuietCall(s, t, call);
    }
  }

  lemma MutateIs(s: Engine, t: nat)
    requires CanCall(s, t, Mutate)
    ensures PcOf(s, t).Logged? && DoCall(s, t, Mutate) == DoMutate(s, t)
  {
    hide DoMutate;
  }

  /** Every other step of a call leaves what is in effect alone. */
  lemma QuietCall(s: Engine, t: nat, call: Call)
    requires Orderly(s) && CanCall(s, t, call) && !call.Mutate?
    ensures Orderly(DoCall(s, t, call))
  {
    hide CanCall, DoCall, Rooted, Backs, From, CopyBacks, SnapRooted;
    var m := DoCall(s, t, call);
    CallFrame(s, t, call);
    CallKeepsEffects(s, t, call);
    RootedSame(s, m, s.live, s.log.acked);
    BacksSame(s, m, s.visible.saved, From(s.visible));
    forall q | q in m.durable
      ensures SnapRooted(m, q)
    {
      SnapSame(s, m, q);
    }
    forall u | u in m.threads
      ensures CopyBacks(m, m.threads[u])
    {
      if u == t { NoCopy(m, t); } else { CopySame(s, m, m.threads[u]); }
    }
  }

  lemma NoCopy(m: Engine, t: nat)
    requires t in m.threads && !PcOf(m, t).Admin?
    ensures CopyBacks(m, m.threads[t])
  {
  }

  lemma CallKeepsEffects(s: Engine, t: nat, call: Call)
    requires CanCall(s, t, call) && !call.Mutate?
    ensures var m := DoCall(s, t, call);
            m.order == s.order && m.visible == s.visible && m.live == s.live
  {
    hide Apply, CanAppend, DoAppend, OthersKeepLocks, SameLog, Exclusive;
    if call.Append? { AppendMove(s, t); }
  }

  /** A request whose call is about to change memory has its own record, among the acknowledged ones. */
  lemma LoggedRooted(s: Engine, r: GC.Request)
    requires LogOk(s) && Account(s) && Ordered(s) && Numbers(s) && r in s.sure && Underway(s, r)
    ensures RootedIn(s.order, s.log.records, s.log.acked, r)
  {
    hide GoodImage, BoundaryOf, InOrder, Bounded, GC.Distinct, ShardOf;
    if !Ahead(s.order, s.log.records, r) {
      var i: nat :| Answers(s.order, s.log.records, i, r)
                    && BoundaryOf(GC.Ops(s.log.records[..i + 1])) <= |s.log.file[..Floor(s)]|;
      assert s.log.records[i] == r && i < s.log.acked;
    }
  }

  lemma MutateOrderly(s: Engine, t: nat)
    requires Inv(s) && Orderly(s) && PcOf(s, t).Logged?
    ensures Orderly(DoMutate(s, t))
  {
    hide Inv, Apply, Backs, SavedOk, GC.Inv, Numbers, Queued, Account, Ordered, Memory, LogOk, Stale, Past, Threads,
      SnapOk, From, CopyBacks, RootedIn, SnapRooted;
    var m := DoMutate(s, t);
    var r := PcOf(s, t).r;
    InvParts(s);
    LoggedIsSure(s, t);
    OwnCall(s, t);
    LoggedRooted(s, r);
    VisibleMore(s, m, r);
    forall q | q in m.durable
      ensures SnapRooted(m, q)
    {
      SnapSame(s, m, q);
    }
    forall u | u in m.threads
      ensures CopyBacks(m, m.threads[u])
    {
      if u == t { NoCopy(m, t); } else { CopyMore(s, m, u, r); }
    }
  }

  lemma OwnCall(s: Engine, t: nat)
    requires Threads(s) && PcOf(s, t).Logged?
    ensures Underway(s, PcOf(s, t).r)
  {
    hide AdminOk, GC.Fresh;
    assert ThreadOk(s, t);
  }

  lemma VisibleMore(s: Engine, m: Engine, r: GC.Request)
    requires Snapshots(s) && Backs(s, s.visible.saved, From(s.visible)) && m.visible == s.visible
    requires m.log.records == s.log.records && r in s.sure && m.live == s.live + {r}
    ensures Backs(m, m.visible.saved, From(m.visible))
  {
    hide Backs, SavedOk, Live, Holds, OffsetOf;
    assert SnapOk(s, s.visible);
    MoreInEffect(s, m, s.visible.saved, OffsetOf(s.visible), s.visible.cover, r);
  }

  lemma CopyMore(s: Engine, m: Engine, u: nat, r: GC.Request)
    requires Threads(s) && u in s.threads && u in m.threads && m.threads[u] == s.threads[u]
    requires CopyBacks(s, s.threads[u])
    requires m.log.records == s.log.records && m.order == s.order && r in s.sure && m.live == s.live + {r}
    ensures CopyBacks(m, m.threads[u])
  {
    hide Rooted, Backs, SavedOk, Live, Holds, HoldsAll, RequestOk;
    if s.threads[u].Admin? && HasCopy(s.threads[u].stage) {
      var c := s.threads[u].stage.copy;
      assert ThreadOk(s, u);
      if c.offset != 0 { RootedSame(s, m, c.saved, c.cover); }
      MoreInEffect(s, m, c.saved, c.offset, c.cover, r);
    }
  }

  // ------------------------------------------------------------ the writer

  lemma RootedGrows(s: Engine, m: Engine, saved: set<GC.Request>, n: nat, k: nat)
    requires GC.Inv(s.log) && Numbers(s) && WriterMove(s, m) && Rooted(s, saved, n) && n <= k <= |m.log.records|
    ensures Rooted(m, saved, k)
  {
    hide GC.Inv, Numbers, Ahead, Answers, WriterMove;
    forall x | x in saved
      ensures RootedIn(m.order, m.log.records, k, x)
    {
      if Ahead(s.order, s.log.records, x) {
        StillAhead(s, m, x);
      } else {
        var i: nat :| i < n && Answers(s.order, s.log.records, i, x);
        StillAnswers(s, m, i, x);
      }
    }
  }

  lemma BacksGrows(s: Engine, m: Engine, saved: set<GC.Request>, from: nat)
    requires WriterMove(s, m) && Backs(s, saved, from)
    ensures Backs(m, saved, from)
  {
    hide Acks;
    SuffixGrows(s, m, from);
  }

  lemma Growth(s: Engine, m: Engine)
    requires WriterMove(s, m)
    ensures |s.log.records| <= |m.log.records| && s.log.acked <= m.log.acked <= |m.log.records|
    ensures m.live == s.live && m.visible == s.visible && m.durable == s.durable && m.threads == s.threads
  {
    hide GC.EndOf;
  }

  lemma WriterOrderly(s: Engine, g: GC.Event)
    requires Inv(s) && Orderly(s) && CanWrite(s, g)
    ensures Orderly(DoWrite(s, g))
  {
    hide Inv, CanWrite, DoWrite, Rooted, Backs, GC.Inv, Numbers, Queued, Account, Ordered, Memory, LogOk, Stale, Past,
      Threads, Snapshots, From, WriterMove, OffsetOf;
    var m := DoWrite(s, g);
    InvParts(s);
    WriteMoves(s, g);
    Growth(s, m);
    RootedGrows(s, m, s.live, s.log.acked, m.log.acked);
    BacksGrows(s, m, s.visible.saved, From(s.visible));
    forall q | q in m.durable && OffsetOf(q) != 0
      ensures Rooted(m, q.saved, q.cover)
    {
      RootedBound(s, q.saved, q.cover);
      RootedGrows(s, m, q.saved, q.cover, q.cover);
    }
    forall u | u in m.threads && m.threads[u].Admin? && HasCopy(m.threads[u].stage)
      ensures CopyGood(m, m.threads[u].stage.copy)
    {
      CopyGrown(s, m, m.threads[u].stage.copy);
    }
  }

  lemma RootedBound(s: Engine, saved: set<GC.Request>, n: nat)
    requires Rooted(s, saved, n)
    ensures n <= |s.log.records|
  {
    hide RootedIn;
  }

  lemma CopyGrown(s: Engine, m: Engine, c: Copy)
    requires GC.Inv(s.log) && Numbers(s) && WriterMove(s, m) && |s.log.records| <= |m.log.records| && CopyGood(s, c)
    ensures CopyGood(m, c)
  {
    hide GC.Inv, Numbers, WriterMove, Rooted, Backs;
    BacksGrows(s, m, c.saved, CopyFrom(c));
    if c.offset != 0 {
      RootedBound(s, c.saved, c.cover);
      RootedGrows(s, m, c.saved, c.cover, c.cover);
    }
  }

  // ------------------------------------------------------------ checkpoints, saves and compactions

  lemma ActOrderly(s: Engine, t: nat, action: Action)
    requires Inv(s) && Orderly(s) && CanAct(s, t, action)
    ensures Orderly(DoAct(s, t, action))
  {
    hide Inv, Orderly, CanTruncate, DoTruncate, CanRename, DoRename, CanAct, DoAct;
    ActMoves(s, t, action);
    if action.Truncate? {
      TruncateOrderly(s, t);
    } else if action.Rename? {
      RenameOrderly(s, t);
    } else {
      OtherOrderly(s, t, action);
    }
  }

  lemma OtherOrderly(s: Engine, t: nat, action: Action)
    requires Inv(s) && Orderly(s) && CanAct(s, t, action) && !action.Truncate? && !action.Rename?
    ensures Orderly(DoAct(s, t, action))
  {
    hide Inv, CanAct, DoAct, Rooted, Backs, From, CopyBacks, SnapsStay, HasRequest, SnapRooted;
    var m := DoAct(s, t, action);
    ActMoves(s, t, action);
    DurableShrinks(s, t, action);
    VisibleStays(s, t, action);
    StillVisible(s, t, action);
    RootedSame(s, m, s.live, s.log.acked);
    BacksSame(s, m, s.visible.saved, From(s.visible));
    forall q | q in m.durable
      ensures SnapRooted(m, q)
    {
      SnapSame(s, m, q);
    }
    CopyFollows(s, t, action);
    forall u | u in m.threads
      ensures CopyBacks(m, m.threads[u])
    {
      CopySame(s, m, m.threads[u]);
    }
  }

  lemma VisibleStays(s: Engine, t: nat, action: Action)
    requires CanAct(s, t, action) && !action.Truncate? && !action.Rename?
    ensures DoAct(s, t, action).visible == s.visible
  {
    hide Enumerates, Encodable, SnapshotBytes, CopyFor, WithoutOwner, EndsWhole, DoTruncate, DoRename;
  }

  lemma StillVisible(s: Engine, t: nat, action: Action)
    requires CanAct(s, t, action) && !action.Truncate? && !action.Rename? && s.visible in s.durable
    ensures s.visible in DoAct(s, t, action).durable
  {
    hide CanAct, DoAct, ActMove, LogStays;
    ActMoves(s, t, action);
  }

  /** The copy of the thread that moves is the one it had, or a copy of all that is in effect. */
  lemma CopyFollows(s: Engine, t: nat, action: Action)
    requires Inv(s) && Orderly(s) && CanAct(s, t, action) && !action.Truncate? && !action.Rename?
    ensures CopyBacks(s, PcOf(DoAct(s, t, action), t))
  {
    hide Inv, Rooted, Backs, CanAct, DoAct, From, CouldCopy, CopyFor, SnapRooted, CopyGood;
    if action.CopyAll? {
      CopyIs(s, t);
      TakenCopy(s, t);
      CopyIsAll(s, t);
    } else {
      CopyCarried(s, t, action);
    }
  }

  lemma TakenCopy(s: Engine, t: nat)
    requires CouldCopy(s, t) && CanAct(s, t, CopyAll)
    ensures PcOf(DoAct(s, t, CopyAll), t) == Admin(PcOf(s, t).kind, Copied(CopyFor(s, PcOf(s, t).kind)))
  {
    hide CopyFor, EndsWhole;
  }

  lemma CopyCarried(s: Engine, t: nat, action: Action)
    requires CanAct(s, t, action) && !action.Truncate? && !action.Rename? && !action.CopyAll?
    requires PcOf(s, t).Admin? ==> t in s.threads && CopyBacks(s, s.threads[t])
    ensures CopyBacks(s, PcOf(DoAct(s, t, action), t))
  {
    hide CopyGood, Enumerates, Encodable, SnapshotBytes, LoadOf, WithoutOwner, CopyFor, EndsWhole;
  }

  lemma CopyIsAll(s: Engine, t: nat)
    requires Inv(s) && Rooted(s, s.live, s.log.acked) && CouldCopy(s, t)
    ensures CopyGood(s, CopyFor(s, PcOf(s, t).kind))
  {
    hide Inv, RootedIn, EndsWhole, Quiet, SavedOk, HoldsAll, CopyOk, Holds, RequestOk, WholeRecords;
    var c := CopyFor(s, PcOf(s, t).kind);
    ThreadsHold(s);
    assert ThreadOk(s, t);
    QuietWhenHeld(s, t);
    CopiedOk(s, PcOf(s, t).kind);
    CopyBounded(s, c);
    if c.offset != 0 {
      AckedAreWhole(s);
      RootedMore(s, s.live, s.log.acked, c.cover);
    }
  }

  lemma CopyBounded(s: Engine, c: Copy)
    requires CopyOk(s, c)
    ensures CopyFrom(c) <= |s.log.records|
  {
    hide Live, GC.EndOf;
  }

  lemma RootedMore(s: Engine, saved: set<GC.Request>, n: nat, k: nat)
    requires Rooted(s, saved, n) && n <= k <= |s.log.records|
    ensures Rooted(s, saved, k)
  {
    hide Ahead, Answers;
  }

  /** The file holds every acknowledged record whole. */
  lemma AckedAreWhole(s: Engine)
    requires Inv(s)
    ensures WholeRecords(s.log.file) <= |s.log.records| ==> s.log.acked <= WholeRecords(s.log.file)
  {
    hide Inv, GC.Inv, Threads, Numbers, Queued, Account, Ordered, Memory, LogOk, Snapshots, Stale, Past, Survivors,
      GoodImage, WholeRecords;
    InvParts(s);
    CurrentIsGood(s);
    KeptAre(Current(s));
    AckedSurvive(s, Current(s));
    assert |KeptRecords(Current(s))| == Survivors(Current(s));
  }

  lemma RenameOrderly(s: Engine, t: nat)
    requires Inv(s) && Orderly(s) && CanRename(s, t)
    ensures Orderly(DoRename(s, t))
  {
    hide Inv, Rooted, Backs, Holds, CopyOk, RequestOk, OffsetOf, HoldsAll;
    var m := DoRename(s, t);
    var c := PcOf(s, t).stage.copy;
    ThreadsHold(s);
    assert ThreadOk(s, t);
    OffsetHeld(m.visible, c.store, c.offset);
    RootedSame(s, m, s.live, s.log.acked);
    BacksSame(s, m, c.saved, CopyFrom(c));
    forall q | q in m.durable
      ensures SnapRooted(m, q)
    {
      if q in s.durable { SnapSame(s, m, q); } else if c.offset != 0 { RootedSame(s, m, c.saved, c.cover); }
    }
    forall u | u in m.threads
      ensures CopyBacks(m, m.threads[u])
    {
      CopySame(s, m, if u == t then s.threads[t] else m.threads[u]);
    }
  }

  lemma TruncateOrderly(s: Engine, t: nat)
    requires Inv(s) && CanTruncate(s, t)
    ensures Orderly(DoTruncate(s, t))
  {
    hide Inv, GC.Inv, Threads, Numbers, Queued, Ordered, LogOk, Snapshots, Stale, Past, Live, LogBytes, CopyOk, Holds,
      LoadOf, ImagesOf, HoldsAll, Memory, RequestOk, AdminOk, OffsetOf, Quiet;
    InvParts(s);
    ReadyToTruncate(s, t);
    var m := DoTruncate(s, t);
    NoOtherAdmin(s, t);
    OffsetHeld(m.visible, s.mem, 0);
    assert forall x :: x in s.live ==> Ahead(s.order, [], x);
  }

  // ------------------------------------------------------------ crashes

  /** A power loss brings a truncated log back, under a snapshot of the log that followed it. */
  predicate BringsBack(s: Engine, e: Event) {
    e.Crash? && e.loss && e.image in s.stale && OffsetOf(e.snap) != 0
  }

  /** The first records stay, and so does what they answer for. */
  lemma RootedPrefix(order: seq<GC.Request>, records: seq<GC.Request>, k: nat, n: nat, x: GC.Request)
    requires RootedIn(order, records, n, x) && n <= k <= |records|
    ensures RootedIn(order, records[..k], n, x)
  {
    if !Ahead(order, records, x) {
      var i: nat :| i < n && Answers(order, records, i, x);
      assert Answers(order, records[..k], i, x);
    }
  }

  /** After a restart from this snapshot on this log. */
  lemma SnapAfterRestart(s: Engine, m: Engine, image: Image, q: Snap)
    requires Paired(s, image, q) && SnapRooted(s, q) && image.records == s.log.records
    requires m.order == s.order && m.log.records == KeptRecords(image)
    ensures SnapRooted(m, q)
  {
    hide GoodImage, KeptRecords, Survivors, RootedIn, OffsetOf, BoundaryOf, Holds, Live, InOrder, Covers;
    if OffsetOf(q) != 0 {
      KeptAre(image);
      CoverSurvives(s, image, q);
      forall x | x in q.saved
        ensures RootedIn(m.order, m.log.records, q.cover, x)
      {
        RootedPrefix(s.order, s.log.records, Survivors(image), q.cover, x);
      }
    }
  }

  /** What the snapshot saved and the replay left is rooted in the log that recovery leaves. */
  lemma LiveAfterRestart(s: Engine, m: Engine, image: Image, p: Snap)
    requires Paired(s, image, p) && SnapRooted(m, p)
    requires m.order == s.order && m.log.records == KeptRecords(image) && m.live == RecoveredSet(s, image, p)
    ensures Rooted(m, m.live, |m.log.records|) && Backs(m, p.saved, From(p))
  {
    hide GoodImage, KeptRecords, Survivors, RootedIn, OffsetOf, BoundaryOf, Holds, Live, InOrder, Covers, Superseded;
    KeptAre(image);
    CoverSurvives(s, image, p);
    SuffixInOrder(s, image, p);
    var kept := KeptRecords(image);
    assert ReplayedRecords(image, p) == kept[From(p)..];
    forall x | x in m.live
      ensures RootedIn(m.order, kept, |kept|, x)
    {
      if x in kept {
        OwnRecord(m.order, kept, x);
      } else if OffsetOf(p) != 0 {
        RootedMore(m, p.saved, p.cover, |kept|);
      } else {
        assert kept[0..] == kept;
        NotOverridden(m.order, kept, x);
      }
    }
  }

  lemma OwnRecord(order: seq<GC.Request>, records: seq<GC.Request>, x: GC.Request)
    requires x in records
    ensures RootedIn(order, records, |records|, x)
  {
    var i: nat :| i < |records| && records[i] == x;
    assert Answers(order, records, i, x);
  }

  /** What a replay of the whole log does not override comes before it on its key, or has a later record there. */
  lemma NotOverridden(order: seq<GC.Request>, records: seq<GC.Request>, x: GC.Request)
    requires x in order && x !in records && (forall i :: 0 <= i < |records| ==> records[i] in order)
    requires !Superseded(order, records, x)
    ensures RootedIn(order, records, |records|, x)
  {
    if !Ahead(order, records, x) {
      var j: nat :| j < |records| && records[j].op.key == x.op.key && !(Place(order, x) < Place(order, records[j]));
      var i: nat :| i < |records| && records[i].op.key == x.op.key && !(Place(order, records[i]) < Place(order, x));
      assert order[Place(order, records[i])] == records[i] && order[Place(order, x)] == x;
      assert Answers(order, records, i, x);
    }
  }

  lemma CrashOrderly(s: Engine, loss: bool, image: Image, p: Snap)
    requires Inv(s) && Orderly(s) && CanCrash(s, loss, image, p) && Aligned(image, p)
    requires !BringsBack(s, Crash(loss, image, p))
    ensures Orderly(DoCrash(s, loss, image, p))
  {
    hide Inv, GC.Inv, Threads, Numbers, Queued, Account, Ordered, Memory, LogOk, Stale, Past, Paired, Recover,
      RecoveredSet, StoreOf, OffsetOf, KeptRecords, CutBack, Aligned, Settles, Rooted, Backs, From, SnapRooted,
      MayLeave, Snapshots;
    var m := DoCrash(s, loss, image, p);
    InvParts(s);
    CrashLeaves(s, loss, image, p);
    LeftArePaired(s, loss, image, p);
    LeftRooted(s, m, loss, image, p);
    LiveAfterRestart(s, m, image, p);
    SnapsAfterRestart(s, m, loss, image, p);
    FromSame(p);
  }

  lemma FromSame(p: Snap)
    ensures OffsetOf(p) == 0 ==> From(p.(cover := 0)) == From(p)
    ensures OffsetOf(p) == 0 ==> forall m :: SnapRooted(m, p.(cover := 0))
  {
    hide Rooted;
  }

  /** The snapshot that is left is rooted in the log that recovery leaves. */
  lemma LeftRooted(s: Engine, m: Engine, loss: bool, image: Image, p: Snap)
    requires LogOk(s) && Snapshots(s) && Stale(s) && |s.log.file| <= MAX_STREAM_OFFSET
    requires Orderly(s) && MayLeave(s, loss, image, p) && Paired(s, image, p) && !BringsBack(s, Crash(loss, image, p))
    requires m.order == s.order && m.log.records == KeptRecords(image)
    ensures SnapRooted(m, p)
  {
    hide LogOk, Stale, SnapOk, Paired, OffsetOf, KeptRecords, Rooted, Backs, From, GoodImage, CopyBacks, Placed,
      Snapshots, InOrder, Covers;
    if OffsetOf(p) != 0 {
      var q := LeftSnap(s, loss, image, p);
      LeftIsOk(s, loss, image, p);
      if loss { PlaceOfSnap(s, image, q); }
      SameCover(p, q);
      SnapAfterRestart(s, m, image, p);
    }
  }

  lemma SameCover(p: Snap, q: Snap)
    requires OffsetOf(p) == OffsetOf(q) && p.saved == q.saved && From(p) == From(q) && OffsetOf(p) != 0
    ensures forall s :: SnapRooted(s, q) ==> SnapRooted(s, p)
  {
    hide OffsetOf, Rooted;
  }

  lemma SnapsAfterRestart(s: Engine, m: Engine, loss: bool, image: Image, p: Snap)
    requires LogOk(s) && Snapshots(s) && Stale(s) && |s.log.file| <= MAX_STREAM_OFFSET
    requires Orderly(s) && CanCrash(s, loss, image, p) && SnapRooted(m, p) && m == DoCrash(s, loss, image, p)
    ensures forall q :: q in m.durable ==> SnapRooted(m, q)
    ensures m.visible in m.durable
  {
    hide LogOk, Stale, SnapOk, Paired, OffsetOf, KeptRecords, Rooted, Backs, From, CopyBacks, Recover, RecoveredSet,
      StoreOf, Settles, CutBack, MayRemain, SnapRooted;
    FromSame(p);
    if !loss {
      forall q | q in m.durable
        ensures SnapRooted(m, q)
      {
        OthersPaired(s, q);
        SnapAfterRestart(s, m, image, q);
      }
    }
  }

  // ------------------------------------------------------------ every step

  lemma StepOrderly(s: Engine, e: Event)
    requires Inv(s) && Orderly(s) && Enabled(s, e) && !BringsBack(s, e)
    ensures Orderly(Step(s, e))
  {
    hide Inv, Orderly, Aligned, CanCall, CanWrite, CanAct, CanCrash, DoCall, DoWrite, DoAct, DoCrash, BringsBack;
    match e
    case Foreground(t, call) => CallOrderly(s, t, call);
    case Writer(g) => WriterOrderly(s, g);
    case Background(t, action) => ActOrderly(s, t, action);
    case Crash(loss, image, snap) => CrashOrderly(s, loss, image, snap);
  }

  lemma InitialOrderly(s: Engine)
    requires Initial(s)
    ensures Orderly(s)
  {
  }
}
