/**
 * When what a read has returned stays. If every request in effect is as safe as an
 * acknowledged one when a read looks, all of them may be counted as acknowledged from there
 * on, and every promise about acknowledged requests holds for them.
 */
module SeenReads {
  import opened Record
  import opened Replay
  import opened Recovery
  import opened Histories
  import opened Engine
  import opened EngineCalls
  import opened Durability
  import opened Guarantees
  import opened TakenBack
  import opened Vouching
  import opened OrderlyRuns
  import Linearizability
  import Wal
  import GC = GroupCommit

  // ------------------------------------------------------------ when a read may rely on what it sees

  /**
   * The last rename and the last truncation are on stable storage, and so is every record in
   * effect.
   */
  ghost predicate Settled(s: Engine) {
    && s.durable == {s.visible} && s.stale == {} && s.log.acked <= |s.log.records|
    && (s.log.acked == 0 || s.log.policy == Wal.Buffered || GC.EndOf(s.log, s.log.acked) <= s.log.synced)
  }

  /** One acknowledged write since the restart does it, once no rename is pending. */
  lemma SettledAfterWrite(s: Engine)
    requires Inv(s) && s.log.acked > s.log.found && s.durable == {s.visible}
    ensures Settled(s)
  {
    hide Inv, Threads, Numbers, Queued, Account, Ordered, Memory, LogOk, Snapshots, Past, GC.Pipeline, GC.Completions,
      GC.Contents, GC.AcceptedBounded, ImageOk, Size;
    InvParts(s);
  }

  lemma SavedVouched(s: Engine, saved: set<GC.Request>, offset: nat, cover: nat)
    requires SavedOk(s, saved, offset, cover) && s.stale == {} && Backs(s, saved, if offset == 0 then 0 else cover)
    ensures SavedOk(Vouched(s, s.live), saved, offset, cover)
  {
    hide GC.EndOf;
  }

  lemma CopyVouched(s: Engine, c: Copy)
    requires CopyOk(s, c) && s.stale == {} && Backs(s, c.saved, CopyFrom(c))
    ensures CopyOk(Vouched(s, s.live), c)
  {
    hide SavedOk, Backs, Live;
    SavedVouched(s, c.saved, c.offset, c.cover);
  }

  lemma ThreadsVouched(s: Engine)
    requires Threads(s) && Orderly(s) && s.stale == {}
    ensures Threads(Vouched(s, s.live))
  {
    hide Backs, Rooted, From;
    var m := Vouched(s, s.live);
    forall t | t in m.threads
      ensures ThreadOk(m, t)
    {
      ThreadVouched(s, t);
    }
  }

  lemma ThreadVouched(s: Engine, t: nat)
    requires Threads(s) && t in s.threads && CopyBacks(s, s.threads[t]) && s.stale == {}
    ensures ThreadOk(Vouched(s, s.live), t)
  {
    hide Backs, Rooted, CopyOk, Holds, GC.Fresh;
    assert ThreadOk(s, t);
    var pc := s.threads[t];
    if pc.Admin? && HasCopy(pc.stage) { CopyVouched(s, pc.stage.copy); }
  }

  lemma SnapsVouched(s: Engine)
    requires Snapshots(s) && Orderly(s) && Settled(s)
    ensures Snapshots(Vouched(s, s.live))
  {
    hide Backs, Rooted, SavedOk, Live, Holds, OffsetOf, CopyBacks, GC.EndOf;
    assert SnapOk(s, s.visible);
    SavedVouched(s, s.visible.saved, OffsetOf(s.visible), s.visible.cover);
  }

  lemma AccountVouched(s: Engine)
    requires Account(s)
    ensures Account(Vouched(s, s.live))
  {
  }

  /** Every record in effect is within what the worst crash leaves. */
  lemma LogVouched(s: Engine)
    requires GC.Inv(s.log) && Account(s) && LogOk(s) && Orderly(s) && Settled(s)
    ensures LogOk(Vouched(s, s.live))
  {
    hide GC.Inv, Backs, CopyBacks, GoodImage, InOrder, From, Covered, BoundaryOf, Rooted, SnapRooted;
    var m := Vouched(s, s.live);
    forall x | x in s.live
      ensures Covered(s.order, AtFloor(s), x)
    {
      LiveCovered(s, x);
    }
  }

  lemma LiveCovered(s: Engine, x: GC.Request)
    requires GC.Inv(s.log) && Account(s) && Settled(s) && Rooted(s, s.live, s.log.acked) && x in s.live
    ensures Covered(s.order, AtFloor(s), x)
  {
    hide GC.Inv, Ahead, Answers, BoundaryOf;
    if !Ahead(s.order, s.log.records, x) {
      var i: nat :| i < s.log.acked && Answers(s.order, s.log.records, i, x);
      AckedInFloor(s, i);
    }
  }

  lemma AckedInFloor(s: Engine, i: nat)
    requires GC.Inv(s.log) && Settled(s) && i < s.log.acked <= |s.log.records|
    ensures BoundaryOf(GC.Ops(s.log.records[..i + 1])) <= Floor(s) <= |s.log.file|
  {
    hide LogBytes, BoundaryOf, Bounded, GC.Pipeline, GC.Completions, GC.Contents, GC.AcceptedBounded;
    GC.EndOfMonotone(s.log, i + 1, s.log.acked);
  }

  /** At a settled point every request in effect may be counted as acknowledged. */
  lemma SettledIsSure(s: Engine)
    requires Inv(s) && Orderly(s) && Settled(s)
    ensures Inv(Vouched(s, s.live))
  {
    hide *;
    var m := Vouched(s, s.live);
    InvParts(s);
    SettledParts(s);
    ThreadsVouched(s);
    SnapsVouched(s);
    AccountVouched(s);
    LogVouched(s);
    RestVouched(s);
    InvWhole(m);
  }

  lemma SettledParts(s: Engine)
    requires Settled(s)
    ensures s.stale == {}
  {
    hide GC.EndOf;
  }

  lemma RestVouched(s: Engine)
    requires GC.Inv(s.log) && |s.log.file| <= MAX_STREAM_OFFSET && Numbers(s) && Queued(s) && Ordered(s) && Memory(s)
    requires s.stale == {} && Past(s)
    ensures var m := Vouched(s, s.live);
            && m.log == s.log && Numbers(m) && Queued(m) && Ordered(m) && Memory(m) && Stale(m) && Past(m)
  {
    hide GC.Inv, Live, GC.Distinct, Bounded;
    var m := Vouched(s, s.live);
    assert forall k :: ShardOf(m, k) == ShardOf(s, k);
  }

  // ------------------------------------------------------------ what was seen stays

  /**
   * What is in effect at a settled point stays in effect: whatever happens afterwards, every
   * restart that goes ahead keeps it.
   */
  lemma SeenStays(s: Engine, events: seq<Event>, e: Event)
    requires Inv(s) && Orderly(s) && Settled(s) && Runs(s, events)
    requires Enabled(AfterRun(s, events), e) && Possible(AfterRun(s, events), e) && e.Crash?
    ensures s.live + s.sure <= Step(AfterRun(s, events), e).live
  {
    hide Inv, Orderly, Settled, Enabled, Step, Possible, Runs, AfterRun, Abstract, Apply;
    var m := AfterRun(s, events);
    SettledIsSure(s);
    RunVouched(s, events, s.live);
    RunInv(Vouched(s, s.live), events);
    EffectsRun(Vouched(s, s.live), events);
    StepVouched(m, e, s.live);
    EffectsStep(Vouched(m, s.live), e);
  }

  /**
   * And what is not safe does not: at a settled point every record in effect is safe, and
   * wherever one is not, `TakenBack.UnsafeIsTakenBack` gives a power loss that takes it back.
   */
  lemma SettledIsSafe(s: Engine, i: nat)
    requires Reachable(s) && Orderly(s) && Settled(s) && s.log.policy != Wal.Buffered
    requires i < |s.log.records| && s.log.records[i] in s.live
    ensures IsSafe(s, s.visible, i)
  {
    hide Reachable, Inv, Orderly, GC.EndOf, Enabled, Possible, Step, IsSafe;
    ReachableInv(s);
    if !IsSafe(s, s.visible, i) {
      var e := UnsafeIsTakenBack(s, s.visible, i);
      SeenStays(s, [], e);
    }
  }

  // ------------------------------------------------------------ runs with reads

  /** Every read finds a settled store, and no power loss brings a truncated log back under a later snapshot. */
  ghost predicate SettledReads(s: Engine, acts: seq<Linearizability.Act>)
    requires Linearizability.Happens(s, acts)
    decreases acts
  {
    acts == [] ||
    ( && (if acts[0].Take? then !BringsBack(s, acts[0].e) else Settled(s))
      && SettledReads(Linearizability.Next(s, acts[0]), acts[1..]))
  }

  /** Every restart keeps all that was in effect at any read before it. */
  ghost predicate ReadsKept(s: Engine, acts: seq<Linearizability.Act>, seen: set<GC.Request>)
    requires Linearizability.Happens(s, acts)
    decreases acts
  {
    acts == [] ||
    var m := Linearizability.Next(s, acts[0]);
    && (acts[0].Take? && acts[0].e.Crash? ==> seen <= m.live)
    && ReadsKept(m, acts[1..], if acts[0].Take? then seen else seen + Effects(s))
  }

  /**
   * In a run all of whose reads find a settled store, what a read has returned is never taken
   * back: everything in effect when it looked is in effect after every later restart.
   */
  lemma {:induction false} ReadsStay(s: Engine, acts: seq<Linearizability.Act>, seen: set<GC.Request>)
    requires Inv(Vouched(s, seen)) && Orderly(s) && Linearizability.Happens(s, acts) && SettledReads(s, acts)
    ensures ReadsKept(s, acts, seen)
    decreases acts
  {
    hide Inv, Orderly, Settled, Enabled, Step, Possible, Vouched, BringsBack, Effects;
    if acts != [] {
      if acts[0].Take? {
        var e := acts[0].e;
        EnabledIsPossible(s, e);
        StepVouched(s, e, seen);
        StepInv(Vouched(s, seen), e);
        EventKeeps(s, e, seen);
        ReadsStay(Step(s, e), acts[1..], seen);
      } else {
        ReadVouches(s, seen);
        ReadsStay(s, acts[1..], seen + Effects(s));
      }
    }
  }

  lemma EventKeeps(s: Engine, e: Event, seen: set<GC.Request>)
    requires Inv(Vouched(s, seen)) && Orderly(s) && Enabled(s, e) && Possible(s, e) && !BringsBack(s, e)
    requires Enabled(Vouched(s, seen), e) && Possible(Vouched(s, seen), e)
             && Step(Vouched(s, seen), e) == Vouched(Step(s, e), seen)
    ensures Orderly(Step(s, e)) && (e.Crash? ==> seen <= Step(s, e).live)
  {
    hide Inv, Orderly, Enabled, Step, Possible, BringsBack, Abstract, Apply;
    OrderlyVouched(s, seen);
    SameBringsBack(s, e, seen);
    StepOrderly(Vouched(s, seen), e);
    OrderlyVouched(Step(s, e), seen);
    EffectsStep(Vouched(s, seen), e);
  }

  lemma SameBringsBack(s: Engine, e: Event, seen: set<GC.Request>)
    ensures BringsBack(Vouched(s, seen), e) == BringsBack(s, e)
  {
    hide KeptRecords;
  }

  lemma OrderlyVouched(s: Engine, seen: set<GC.Request>)
    ensures Orderly(Vouched(s, seen)) == Orderly(s)
  {
    hide RootedIn, From, OffsetOf;
    var m := Vouched(s, seen);
    assert forall saved, n :: Rooted(m, saved, n) == Rooted(s, saved, n);
    assert forall saved, from :: Backs(m, saved, from) == Backs(s, saved, from);
    assert forall pc :: CopyBacks(m, pc) == CopyBacks(s, pc);
    assert forall q :: SnapRooted(m, q) == SnapRooted(s, q);
  }

  lemma ReadVouches(s: Engine, seen: set<GC.Request>)
    requires Inv(Vouched(s, seen)) && Orderly(s) && Settled(s)
    ensures Inv(Vouched(s, seen + Effects(s)))
  {
    hide Inv, Orderly, GC.EndOf;
    var v := Vouched(s, seen);
    OrderlyVouched(s, seen);
    SettledIsSure(v);
    assert Vouched(v, v.live) == Vouched(s, seen + Effects(s)) by {
      assert v.sure + v.live == s.sure + (seen + Effects(s));
    }
  }

  /** From an empty store. */
  lemma ReadsStayFromStart(s: Engine, acts: seq<Linearizability.Act>)
    requires Initial(s) && Linearizability.Happens(s, acts) && SettledReads(s, acts)
    ensures ReadsKept(s, acts, {})
  {
    hide Inv, Orderly, SettledReads, ReadsKept, Linearizability.Happens;
    InitialInv(s);
    InitialOrderly(s);
    assert s.sure + {} == s.sure;
    ReadsStay(s, acts, {});
  }
}
