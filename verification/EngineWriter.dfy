/**
 * Every action of the log's writer keeps the engine's invariant.
 */
module EngineWriter {
  import opened Record
  import opened Replay
  import opened Recovery
  import opened Histories
  import opened Engine
  import opened EngineInv
  import opened EngineCalls
  import Wal
  import GC = GroupCommit

  // ------------------------------------------------------------ what the writer may change

  /** The next request in line is acknowledged: its frame is in the file, and synced if the policy syncs. */
  ghost predicate Acks(l: GC.Log, m: GC.Log) {
    && m.acked == l.acked + 1 <= |l.records| && m.records == l.records && l.phase.Acking? && !l.failed
    && l.batch != [] && l.records[l.acked] == l.batch[0]
    && m.file == l.file && m.synced == l.synced && GC.EndOf(l, l.acked + 1) <= |l.file|
    && (l.policy != Wal.Buffered ==> l.synced == |l.file|)
  }

  /** Records, file and acknowledgements only grow; no request is made up. */
  ghost predicate Advance(l: GC.Log, m: GC.Log) {
    && m.policy == l.policy && m.maxBatch == l.maxBatch && m.generation == l.generation && m.submitted == l.submitted
    && m.found == l.found <= l.acked <= |l.records| && m.acked <= |m.records|
    && (m.records == l.records || (m.records == l.records + l.batch && l.phase.Taken? && !l.failed && l.batch != []))
    && (m.acked == l.acked || Acks(l, m))
    && l.file <= m.file && l.synced <= m.synced <= |m.file| && (m.file == l.file || |m.file| <= MAX_STREAM_OFFSET)
    && (forall r :: r in m.batch || r in m.queue ==> r in l.batch || r in l.queue)
    && (m.outcomes == l.outcomes || (l.batch != [] && m.outcomes.Keys == l.outcomes.Keys + {l.batch[0].id}))
    && (l.failed ==> m.failed)
  }

  /** All that most of these steps need of the log's invariant. */
  predicate InBounds(l: GC.Log) {
    l.found <= l.acked <= |l.records| && l.synced <= |l.file|
  }

  lemma Bounds(l: GC.Log)
    requires GC.Inv(l)
    ensures InBounds(l)
  {
    hide GC.EndOf, GC.Pipeline, GC.Contents, GC.Completions, GC.AcceptedBounded;
  }

  lemma StepAdvance(l: GC.Log, g: GC.Event)
    requires !g.Submit? && !g.Reject? && GC.Enabled(l, g) && GC.Inv(l)
    ensures Advance(l, GC.Step(l, g))
  {
    hide Advance, Acks, GC.Enabled, GC.Step, GC.Inv;
    Bounds(l);
    match g
    case Take(n) => StepTake(l, n);
    case Finalize =>
      FinalizeTakes(l);
      StepFinalize(l);
    case Write(n) => StepWrite(l, n);
    case Flush => StepFlush(l);
    case Ack => StepAck(l);
    case Fail => StepFail(l);
    case FailAck => StepFailAck(l);
  }

  lemma StepTake(l: GC.Log, n: nat)
    requires GC.Enabled(l, GC.Take(n)) && InBounds(l)
    ensures Advance(l, GC.Step(l, GC.Take(n)))
  {
    hide Acks, GC.Fresh, GC.FrameBytes, Wal.Emission, Bounded;
  }

  lemma FinalizeTakes(l: GC.Log)
    requires GC.Inv(l) && GC.Enabled(l, GC.Finalize)
    ensures l.batch != [] && !l.failed
  {
    hide GC.Durable, GC.Contents, GC.Completions, GC.AcceptedBounded, GC.Fresh, GC.IsBatch, Bounded;
  }

  lemma StepFinalize(l: GC.Log)
    requires GC.Enabled(l, GC.Finalize) && InBounds(l) && l.batch != [] && !l.failed
    ensures Advance(l, GC.Step(l, GC.Finalize))
  {
    hide Acks, GC.Fresh, GC.IsBatch, Wal.Emission, Bounded, GC.Ops;
  }

  lemma StepWrite(l: GC.Log, n: nat)
    requires GC.Enabled(l, GC.Write(n)) && InBounds(l)
    ensures Advance(l, GC.Step(l, GC.Write(n)))
  {
    hide Acks, GC.Fresh, GC.IsBatch, Wal.Emission, Bounded, GC.Ops;
  }

  lemma StepFlush(l: GC.Log)
    requires GC.Enabled(l, GC.Flush) && InBounds(l)
    ensures Advance(l, GC.Step(l, GC.Flush))
  {
    hide Acks, GC.Fresh, GC.IsBatch, Wal.Emission, Bounded, GC.Ops;
  }

  lemma StepFail(l: GC.Log)
    requires GC.Enabled(l, GC.Fail) && InBounds(l)
    ensures Advance(l, GC.Step(l, GC.Fail))
  {
    hide Acks, GC.Fresh, GC.IsBatch, Wal.Emission, Bounded, GC.Ops;
  }

  lemma StepFailAck(l: GC.Log)
    requires GC.Enabled(l, GC.FailAck) && InBounds(l)
    ensures Advance(l, GC.Step(l, GC.FailAck))
  {
    hide Acks, GC.Fresh, GC.IsBatch, Wal.Emission, Bounded, GC.Ops;
  }

  lemma StepAck(l: GC.Log)
    requires GC.Enabled(l, GC.Ack) && GC.Inv(l)
    ensures Advance(l, GC.Step(l, GC.Ack)) && Acks(l, GC.Step(l, GC.Ack))
  {
    hide Advance, Acks, GC.Enabled, GC.Step, GC.Inv;
    Bounds(l);
    AckInLine(l);
    AckAdvances(l);
  }

  /** The request at the head of the batch is the next one in the file, and its frame is there. */
  lemma AckInLine(l: GC.Log)
    requires GC.Enabled(l, GC.Ack) && GC.Inv(l)
    ensures Acks(l, GC.Step(l, GC.Ack))
  {
    hide LogBytes, GC.EndOf, Bounded, GC.Completions, GC.AcceptedBounded, GC.Fresh, GC.IsBatch, Wal.Emission;
    GC.EndOfMonotone(l, l.acked + 1, |l.records|);
    GC.EndOfAll(l);
  }

  lemma AckAdvances(l: GC.Log)
    requires GC.Enabled(l, GC.Ack) && InBounds(l) && Acks(l, GC.Step(l, GC.Ack))
    ensures Advance(l, GC.Step(l, GC.Ack))
  {
    hide GC.EndOf, GC.Fresh, GC.IsBatch, Wal.Emission, Bounded;
  }

  /** The engine around such a step. */
  ghost predicate WriterMove(s: Engine, m: Engine) {
    && m == s.(log := m.log, order := m.order, sure := m.sure, stale := m.stale, plain := m.plain)
    && Advance(s.log, m.log) && (m.stale == s.stale || m.stale == {})
    && m.order == (if m.log.records == s.log.records then s.order else s.order + s.log.batch)
    && (if m.log.acked == s.log.acked then m.sure == s.sure
        else s.stale == {} && s.log.acked < |s.log.records| && m.sure == s.sure + {s.log.records[s.log.acked]})
  }

  lemma WriteMoves(s: Engine, g: GC.Event)
    requires CanWrite(s, g) && GC.Inv(s.log) && Stale(s)
    ensures WriterMove(s, DoWrite(s, g))
  {
    hide GC.Inv, Wal.Emission, Bounded, Advance, ImageOk, GC.IsBatch;
    StepAdvance(s.log, g);
    AdvanceCases(s.log, GC.Step(s.log, g));
    if g.Ack? { StepAck(s.log); }
    if g.Finalize? { BatchTaken(s.log); }
  }

  lemma AdvanceCases(l: GC.Log, m: GC.Log)
    requires Advance(l, m)
    ensures m.acked == l.acked || Acks(l, m)
  {
  }

  lemma BatchTaken(l: GC.Log)
    requires GC.Inv(l) && l.phase.Taken?
    ensures l.batch != []
  {
    hide LogBytes, BoundaryOf, Bounded, GC.Completions, GC.Contents, GC.AcceptedBounded, GC.Durable;
  }

  // ------------------------------------------------------------ numbering a batch

  /** Requests about to be numbered are new to the history, and differ from each other. */
  lemma BatchIsNew(s: Engine)
    requires GC.Inv(s.log) && Numbers(s) && s.log.phase.Taken?
    ensures GC.Distinct(s.order + s.log.batch)
    ensures forall i :: 0 <= i < |s.log.batch| ==> NewTo(s.order, s.log.batch[i])
  {
    hide LogBytes, BoundaryOf, Bounded, GC.Contents, GC.AcceptedBounded, GC.Durable;
    var l := s.log;
    forall i | 0 <= i < |l.batch|
      ensures l.batch[i] == l.submitted[|l.records| + i]
    {
      assert l.batch[i] == (l.batch + l.queue)[i];
    }
  }

  lemma MoveNumbers(s: Engine, m: Engine)
    requires GC.Inv(s.log) && Numbers(s) && WriterMove(s, m)
    ensures GC.Distinct(m.order) && (m.order != s.order ==> m.order == s.order + s.log.batch)
    ensures m.order != s.order ==> forall i :: 0 <= i < |s.log.batch| ==> NewTo(s.order, s.log.batch[i])
  {
    hide GC.Inv, Acks, GC.Distinct, Bounded;
    if m.log.records != s.log.records { BatchIsNew(s); }
  }

  /** What was in the history stays where it was, and maps of it stay what they were. */
  lemma HistoryKept(s: Engine, m: Engine, saved: set<GC.Request>)
    requires GC.Inv(s.log) && Numbers(s) && WriterMove(s, m) && Subset(saved, s.order)
    ensures Subset(saved, m.order) && Live(m.order, saved) == Live(s.order, saved)
    ensures m.order != s.order ==> forall r :: r in s.log.batch ==> r !in saved
  {
    hide GC.Inv, Live, Advance, GC.Distinct, Bounded;
    MoveNumbers(s, m);
    if m.order != s.order {
      assert forall r :: r in s.log.batch ==> r !in saved;
      LiveMore(s.order, s.log.batch, saved);
    }
  }

  // ------------------------------------------------------------ snapshots and copies

  lemma EndKept(s: Engine, m: Engine, n: nat)
    requires WriterMove(s, m) && n <= |s.log.records|
    ensures n <= |m.log.records| && GC.EndOf(m.log, n) == GC.EndOf(s.log, n)
  {
    hide BoundaryOf, Acks;
    assert m.log.records[..n] == s.log.records[..n];
  }

  lemma SavedGrows(s: Engine, m: Engine, saved: set<GC.Request>, offset: nat, cover: nat)
    requires GC.Inv(s.log) && Numbers(s) && WriterMove(s, m) && Subset(saved, s.order)
             && SavedOk(s, saved, offset, cover)
    ensures SavedOk(m, saved, offset, cover)
  {
    hide GC.EndOf, Live, GC.Inv, GC.Distinct, Bounded, Numbers;
    HistoryKept(s, m, saved);
    if offset != 0 { EndKept(s, m, cover); }
    var from := if offset == 0 then 0 else cover;
    SuffixGrows(s, m, from);
    if m.log.acked != s.log.acked {
      assert from <= s.log.acked;
      assert m.log.records[from..][s.log.acked - from] == s.log.records[s.log.acked];
    }
  }

  lemma SuffixGrows(s: Engine, m: Engine, from: nat)
    requires WriterMove(s, m) && from <= |s.log.records|
    ensures forall x :: x in s.log.records[from..] ==> x in m.log.records[from..]
  {
    hide Acks;
    if m.log.records != s.log.records {
      assert m.log.records[from..] == s.log.records[from..] + s.log.batch;
    }
  }

  lemma CopyGrows(s: Engine, m: Engine, c: Copy)
    requires GC.Inv(s.log) && Numbers(s) && WriterMove(s, m) && CopyOk(s, c)
    ensures CopyOk(m, c)
  {
    hide Live, SavedOk, GC.Inv, Numbers, Advance;
    HistoryKept(s, m, c.saved);
    SavedGrows(s, m, c.saved, c.offset, c.cover);
  }

  lemma SnapGrows(s: Engine, m: Engine, p: Snap)
    requires GC.Inv(s.log) && Numbers(s) && WriterMove(s, m) && SnapOk(s, p)
    ensures SnapOk(m, p)
  {
    hide Live, SavedOk, GC.Inv, Numbers, Advance, Holds, OffsetOf;
    HistoryKept(s, m, p.saved);
    SavedGrows(s, m, p.saved, OffsetOf(p), p.cover);
  }

  lemma WriterSnapshots(s: Engine, m: Engine)
    requires GC.Inv(s.log) && Numbers(s) && WriterMove(s, m) && Snapshots(s)
    ensures Snapshots(m)
  {
    hide SnapOk, Advance, GC.Inv, Numbers;
    forall p | p in m.durable
      ensures SnapOk(m, p)
    {
      SnapGrows(s, m, p);
    }
  }

  // ------------------------------------------------------------ log images

  /** Places of acknowledged requests are stable. */
  lemma PlacesKept(s: Engine, m: Engine, x: GC.Request)
    requires GC.Inv(s.log) && Numbers(s) && WriterMove(s, m) && x in s.order
    ensures x in m.order && Place(m.order, x) == Place(s.order, x)
  {
    hide GC.Inv, Advance, Bounded, GC.Distinct;
    MoveNumbers(s, m);
    if m.order != s.order { PlaceKept(s.order, s.log.batch, x); }
  }

  lemma ImageGrows(s: Engine, m: Engine, im: Image)
    requires GC.Inv(s.log) && Numbers(s) && WriterMove(s, m) && ImageOk(s, im) && m.sure == s.sure
    ensures ImageOk(m, im)
  {
    hide GC.Inv, Advance, GoodImage, InOrder, BoundaryOf, GC.Distinct, Bounded, Numbers;
    MoveNumbers(s, m);
    if m.order != s.order { InOrderKept(s.order, s.log.batch, im.records, im.start); }
    forall x | x in m.sure
      ensures Covered(m.order, im, x)
    {
      CoverKept(s, m, im, x);
    }
  }

  /** Places in the history are stable, so a file covers what it covered. */
  lemma CoverKept(s: Engine, m: Engine, im: Image, x: GC.Request)
    requires GC.Inv(s.log) && Numbers(s) && WriterMove(s, m) && Covered(s.order, im, x)
    ensures Covered(m.order, im, x)
  {
    hide GC.Inv, WriterMove, Numbers, BoundaryOf;
    forall y | y in s.order
      ensures y in m.order && Place(m.order, y) == Place(s.order, y)
    {
      PlacesKept(s, m, y);
    }
    if !Ahead(s.order, im.records, x) {
      var i: nat :| Answers(s.order, im.records, i, x) && BoundaryOf(GC.Ops(im.records[..i + 1])) <= |im.bytes|;
      assert Answers(m.order, im.records, i, x);
    }
  }

  lemma WriterStale(s: Engine, g: GC.Event)
    requires CanWrite(s, g) && GC.Inv(s.log) && Numbers(s) && Stale(s)
    ensures Stale(DoWrite(s, g))
  {
    hide ImageOk, Bounded, Wal.Emission, GC.IsBatch, GC.Inv, Numbers, WriterMove;
    var m := DoWrite(s, g);
    WriteMoves(s, g);
    forall im | im in m.stale
      ensures ImageOk(m, im)
    {
      ImageGrows(s, m, im);
    }
  }

  lemma LogIsGood(s: Engine)
    requires GC.Inv(s.log)
    ensures GoodImage(Current(s))
  {
    hide LogBytes, GC.Inv, AllBounded;
    LogBounded(s.log);
    GoodFile(s.log);
  }

  lemma GoodFile(l: GC.Log)
    requires GC.Inv(l)
    ensures l.file <= LogBytes(l.generation, GC.Ops(l.records)) && l.synced <= |l.file|
  {
    hide LogBytes, GC.Completions, GC.AcceptedBounded, GC.Pipeline, BoundaryOf;
    GC.FileIsPrefix(l);
  }

  /** A shorter file of the same log is as good as far as it goes. */
  lemma ShorterIsGood(im: Image, n: nat)
    requires GoodImage(im) && n <= |im.bytes|
    ensures GoodImage(im.(bytes := im.bytes[..n]))
  {
    hide LogBytes, AllBounded;
  }

  lemma WriterLogOk(s: Engine, m: Engine)
    requires GC.Inv(s.log) && GC.Inv(m.log) && Numbers(s) && WriterMove(s, m) && LogOk(s)
    ensures LogOk(m)
  {
    hide GC.Inv, GoodImage, InOrder, BoundaryOf, GC.Distinct, Bounded, Numbers, Advance, Covers;
    LogIsGood(m);
    ShorterIsGood(Current(m), Floor(m));
    MoveNumbers(s, m);
    RecordsInOrder(s, m);
    WriterCovers(s, m);
    MoveStart(s, m);
  }

  lemma MoveStart(s: Engine, m: Engine)
    requires WriterMove(s, m)
    ensures m.start == s.start && |s.order| <= |m.order|
  {
  }

  lemma RecordsInOrder(s: Engine, m: Engine)
    requires GC.Inv(s.log) && Numbers(s) && WriterMove(s, m)
    requires s.start <= |s.order| && InOrder(s.order, s.log.records, s.start)
    ensures InOrder(m.order, m.log.records, m.start)
  {
    hide GC.Inv, InOrder, GC.Distinct, Bounded, Numbers, Acks;
    MoveNumbers(s, m);
    if m.log.records != s.log.records { InOrderMore(s.order, s.log.batch, s.log.records, s.start); }
  }

  /** What was safe stays safe, and what is acknowledged is safe. */
  lemma WriterCovers(s: Engine, m: Engine)
    requires GC.Inv(s.log) && GC.Inv(m.log) && Numbers(s) && WriterMove(s, m)
    requires Covers(s, AtFloor(s))
    ensures Covers(m, AtFloor(m))
  {
    hide GC.Inv, BoundaryOf, Numbers, GC.Distinct, Bounded, Covered, Advance;
    FloorGrows(s, m);
    forall x | x in m.sure
      ensures Covered(m.order, AtFloor(m), x)
    {
      if x in s.sure { StillCovered(s, m, x); } else { NewlyCovered(s, m, x); }
    }
  }

  lemma StillCovered(s: Engine, m: Engine, x: GC.Request)
    requires Numbers(s) && GC.Inv(s.log) && GC.Inv(m.log) && WriterMove(s, m) && Floor(s) <= Floor(m) <= |m.log.file|
    requires Covered(s.order, AtFloor(s), x)
    ensures Covered(m.order, AtFloor(m), x)
  {
    hide GC.Inv, BoundaryOf, Numbers, GC.Distinct, Bounded, GC.EndOf;
    if Ahead(s.order, s.log.records, x) {
      StillAhead(s, m, x);
    } else {
      var i :| Answers(s.order, s.log.records, i, x)
               && BoundaryOf(GC.Ops(s.log.records[..i + 1])) <= |s.log.file[..Floor(s)]|;
      StillAnswers(s, m, i, x);
      assert m.log.records[..i + 1] == s.log.records[..i + 1];
    }
  }

  lemma StillAnswers(s: Engine, m: Engine, i: nat, x: GC.Request)
    requires Numbers(s) && GC.Inv(s.log) && WriterMove(s, m) && Answers(s.order, s.log.records, i, x)
    ensures Answers(m.order, m.log.records, i, x)
  {
    hide GC.Inv, Acks, GC.Distinct, Bounded;
    if s.log.records[i] != x {
      MoveNumbers(s, m);
      PlacesKept(s, m, x);
      PlacesKept(s, m, s.log.records[i]);
    }
  }

  lemma StillAhead(s: Engine, m: Engine, x: GC.Request)
    requires Numbers(s) && GC.Inv(s.log) && WriterMove(s, m) && Ahead(s.order, s.log.records, x)
    ensures Ahead(m.order, m.log.records, x)
  {
    hide GC.Inv, Acks, GC.Distinct, Bounded;
    MoveNumbers(s, m);
    PlacesKept(s, m, x);
    forall i | 0 <= i < |m.log.records| && m.log.records[i].op.key == x.op.key
      ensures m.log.records[i] in m.order && Place(m.order, x) < Place(m.order, m.log.records[i])
    {
      if i < |s.log.records| {
        PlacesKept(s, m, s.log.records[i]);
      } else {
        var j := |s.order| + i - |s.log.records|;
        assert m.order[j] == m.log.records[i];
        PlaceOf(m.order, j);
      }
    }
  }

  lemma NewlyCovered(s: Engine, m: Engine, x: GC.Request)
    requires WriterMove(s, m) && x in m.sure && x !in s.sure && Floor(m) <= |m.log.file|
    requires m.log.acked != s.log.acked ==> Floor(m) == |m.log.file|
    ensures Covered(m.order, AtFloor(m), x)
  {
    hide BoundaryOf, Floor;
    assert Answers(m.order, m.log.records, s.log.acked, x);
  }

  lemma FloorGrows(s: Engine, m: Engine)
    requires WriterMove(s, m)
    ensures Floor(s) <= Floor(m) <= |m.log.file|
    ensures m.log.acked != s.log.acked ==> Floor(m) == |m.log.file|
  {
    hide GC.EndOf;
  }

  // ------------------------------------------------------------ threads

  /** The writer is at rest whenever an administrative operation holds every lock. */
  lemma NoneExclusive(s: Engine, g: GC.Event, u: nat)
    requires Inv(s) && CanWrite(s, g) && PcOf(s, u).Admin?
    ensures !Exclusive(PcOf(s, u).kind, PcOf(s, u).stage)
  {
    hide Inv, CopyOk, Holds, LogBytes, GC.Inv, Threads;
    InvParts(s);
    ThreadHolds(s, u);
    if Exclusive(PcOf(s, u).kind, PcOf(s, u).stage) {
      QuietWhenHeld(s, u);
      NothingToDo(s.log, g);
    }
  }

  lemma ThreadHolds(s: Engine, u: nat)
    requires Threads(s) && u in s.threads
    ensures ThreadOk(s, u)
  {
  }

  lemma NothingToDo(l: GC.Log, g: GC.Event)
    requires GC.Inv(l) && l.batch == [] && l.queue == [] && !g.Submit? && !g.Reject?
    ensures !GC.Enabled(l, g)
  {
    hide GC.FrameBytes, LogBytes, BoundaryOf, Bounded, GC.Completions, GC.Contents, GC.AcceptedBounded, GC.Durable;
  }

  lemma WriterAdmin(s: Engine, m: Engine, u: nat)
    requires GC.Inv(s.log) && Numbers(s) && WriterMove(s, m)
    requires ThreadOk(s, u) && PcOf(s, u).Admin? && !Exclusive(PcOf(s, u).kind, PcOf(s, u).stage)
    ensures ThreadOk(m, u)
  {
    hide CopyOk, Holds, Advance, GC.Inv, Numbers;
    var stage := PcOf(s, u).stage;
    if HasCopy(stage) { CopyGrows(s, m, stage.copy); }
  }

  lemma WriterCall(s: Engine, m: Engine, u: nat)
    requires GC.Inv(s.log) && WriterMove(s, m) && ThreadOk(s, u) && HasRequest(PcOf(s, u))
    ensures ThreadOk(m, u)
  {
    hide GC.Inv, AdminOk, Acks;
    PendingAccepted(s.log);
    assert s.log.batch != [] ==> s.log.batch[0] in s.log.batch;
    if PcOf(s, u).Locked? { StillNew(s, m, PcOf(s, u).r); }
  }

  lemma StillNew(s: Engine, m: Engine, r: GC.Request)
    requires GC.Inv(s.log) && WriterMove(s, m) && GC.Fresh(s.log, r) && NewTo(s.order, r)
    ensures NewTo(m.order, r)
  {
    hide GC.Inv, Acks;
    PendingAccepted(s.log);
    if m.order != s.order {
      forall i | 0 <= i < |m.order|
        ensures m.order[i].id != r.id
      {
        if i >= |s.order| { assert m.order[i] in s.log.batch; }
      }
    }
  }

  lemma PendingAccepted(l: GC.Log)
    requires GC.Inv(l)
    ensures forall q :: q in l.batch || q in l.queue ==> q in l.submitted
  {
    hide GC.Pipeline, GC.Completions, GC.Contents, GC.AcceptedBounded, GC.Durable;
    PendingAreLater(l);
  }

  lemma WriterThreads(s: Engine, g: GC.Event)
    requires Inv(s) && CanWrite(s, g)
    ensures Threads(DoWrite(s, g))
  {
    hide Inv, ThreadOk, GC.Inv, CanWrite, DoWrite, Advance, Exclusive, Numbers, Account, Stale, LogOk, Snapshots,
      Ordered, Memory;
    InvParts(s);
    var m := DoWrite(s, g);
    WriteMoves(s, g);
    forall u | u in m.threads
      ensures ThreadOk(m, u)
    {
      if PcOf(s, u).Admin? {
        NoneExclusive(s, g, u);
        WriterAdmin(s, m, u);
      } else if HasRequest(PcOf(s, u)) {
        WriterCall(s, m, u);
      } else {
        RestingOk(m, u);
      }
    }
  }

  lemma RestingOk(m: Engine, u: nat)
    requires PcOf(m, u).Resting?
    ensures ThreadOk(m, u)
  {
  }

  lemma WriterNumbers(s: Engine, m: Engine)
    requires GC.Inv(s.log) && GC.Inv(m.log) && WriterMove(s, m) && Numbers(s) && Queued(s)
    ensures Numbers(m) && Queued(m)
  {
    hide GC.Inv, Acks, GC.Distinct, Bounded;
    PendingAccepted(s.log);
    MoveNumbers(s, m);
    assert s.log.batch != [] ==> s.log.batch[0] in s.log.batch;
    NumberedAreBounded(s, m);
    UnnumberedAreNew(s, m);
  }

  lemma NumberedAreBounded(s: Engine, m: Engine)
    requires GC.Inv(s.log) && WriterMove(s, m) && Numbers(s)
    ensures forall i :: 0 <= i < |m.order| ==> m.order[i].id < m.nextId && Bounded(m.order[i].op)
  {
    hide GC.Inv, Acks, GC.Distinct, Bounded;
    PendingAccepted(s.log);
    AcceptedAreBounded(s.log);
    forall i | 0 <= i < |m.order|
      ensures m.order[i].id < m.nextId && Bounded(m.order[i].op)
    {
      if i >= |s.order| { assert m.order[i] in s.log.batch && m.order[i] in s.log.submitted; }
    }
  }

  lemma AcceptedAreBounded(l: GC.Log)
    requires GC.Inv(l)
    ensures forall i :: 0 <= i < |l.submitted| ==> Bounded(l.submitted[i].op)
  {
    hide Bounded, GC.Pipeline, GC.Completions, GC.Contents, GC.Durable;
  }

  lemma UnnumberedAreNew(s: Engine, m: Engine)
    requires GC.Inv(s.log) && GC.Inv(m.log) && WriterMove(s, m) && Numbers(s)
    ensures forall i :: |m.log.records| <= i < |m.log.submitted| ==> NewTo(m.order, m.log.submitted[i])
  {
    hide GC.Inv, GC.EndOf, Bounded, Acks, GC.Distinct;
    AcceptedOnce(m.log);
    forall i | |m.log.records| <= i < |m.log.submitted|
      ensures NewTo(m.order, m.log.submitted[i])
    {
      if m.order != s.order {
        forall j | 0 <= j < |s.log.batch|
          ensures s.log.batch[j].id != m.log.submitted[i].id
        {
          assert m.log.records[|s.log.records| + j] == s.log.batch[j];
          DifferentIds(m.log.submitted, |s.log.records| + j, i);
        }
      }
    }
  }

  lemma AcceptedOnce(l: GC.Log)
    requires GC.Inv(l)
    ensures GC.Distinct(l.submitted) && |l.records| <= |l.submitted|
    ensures forall j :: 0 <= j < |l.records| ==> l.records[j] == l.submitted[j]
  {
    hide LogBytes, BoundaryOf, Bounded, GC.Contents, GC.AcceptedBounded, GC.Durable, GC.Distinct;
  }

  lemma DifferentIds(rs: seq<GC.Request>, i: nat, j: nat)
    requires GC.Distinct(rs) && i < j < |rs|
    ensures rs[i].id != rs[j].id
  {
  }

  lemma WriterAccount(s: Engine, m: Engine)
    requires GC.Inv(s.log) && WriterMove(s, m) && Numbers(s) && Queued(s) && Account(s)
    requires InOrder(s.order, s.log.records, s.start)
    ensures Account(m)
  {
    hide GC.Inv, GC.Distinct, Bounded, GC.EndOf;
    HistoryKept(s, m, s.live);
    HistoryKept(s, m, s.sure);
    if m.log.acked != s.log.acked {
      AckAccount(s, m);
    } else {
      assert forall i :: |s.log.records| <= i < |m.log.records| ==> m.log.records[i] in s.log.batch;
    }
  }

  /** The acknowledged request belongs to a call that waits for it. */
  lemma AckAccount(s: Engine, m: Engine)
    requires GC.Inv(s.log) && WriterMove(s, m) && Numbers(s) && Queued(s) && Account(s) && m.log.acked != s.log.acked
    requires InOrder(s.order, s.log.records, s.start)
    ensures Account(m)
  {
    hide GC.Inv, GC.Distinct, Bounded, GC.EndOf;
    var r := s.log.records[s.log.acked];
    assert r == s.log.batch[0] && r in s.log.batch;
    assert Underway(s, r) && Underway(m, r);
    RecordsDistinct(s.log);
    assert forall i :: s.log.acked < i < |s.log.records| ==> s.log.records[i] != r by {
      DistinctElements(s.log.records, s.log.acked);
    }
  }

  lemma DistinctElements(rs: seq<GC.Request>, p: nat)
    requires GC.Distinct(rs) && p < |rs|
    ensures forall i :: 0 <= i < |rs| && i != p ==> rs[i] != rs[p]
  {
  }

  lemma RecordsDistinct(l: GC.Log)
    requires GC.Inv(l)
    ensures GC.Distinct(l.records)
  {
    hide LogBytes, BoundaryOf, Bounded, GC.Contents, GC.Durable, GC.AcceptedBounded;
    assert forall j :: 0 <= j < |l.records| ==> l.records[j] == l.submitted[j];
  }

  /** Two calls that are under way write to different shards. */
  lemma CallsApart(s: Engine, a: GC.Request, b: GC.Request)
    requires Threads(s) && a != b && Underway(s, a) && Underway(s, b)
    ensures ShardOf(s, a.op.key) != ShardOf(s, b.op.key)
  {
    hide AdminOk, GC.Fresh;
    assert ThreadOk(s, a.tid) && ThreadOk(s, b.tid);
  }

  /** A new record shares no shard with an earlier one whose call is still under way. */
  lemma WriterOrdered(s: Engine, m: Engine)
    requires GC.Inv(s.log) && WriterMove(s, m) && Threads(s) && Numbers(s) && Queued(s) && Ordered(s)
    ensures Ordered(m)
  {
    hide GC.Inv, Threads, Acks, GC.Distinct, Bounded;
    assert forall k :: ShardOf(m, k) == ShardOf(s, k);
    assert forall r: GC.Request :: Underway(m, r) == Underway(s, r);
    MoveNumbers(s, m);
    forall p, q | 0 <= p < q < |m.order| && Underway(m, m.order[p])
      ensures ShardOf(m, m.order[p].op.key) != ShardOf(m, m.order[q].op.key)
    {
      if q >= |s.order| {
        assert m.order[q] in s.log.batch;
        DistinctElements(m.order, q);
        CallsApart(s, m.order[p], m.order[q]);
      }
    }
  }

  lemma WriterInv(s: Engine, g: GC.Event)
    requires Inv(s) && CanWrite(s, g)
    ensures Inv(DoWrite(s, g))
  {
    hide *;
    var m := DoWrite(s, g);
    InvParts(s);
    WriteMoves(s, g);
    WriterLog(s, g);
    WriterThreads(s, g);
    WriterNumbers(s, m);
    LogInOrder(s);
    WriterAccount(s, m);
    WriterOrdered(s, m);
    WriterMemory(s, m);
    WriterLogOk(s, m);
    WriterSnapshots(s, m);
    WriterStale(s, g);
    WriterPast(s, m);
    InvWhole(m);
  }

  lemma LogInOrder(s: Engine)
    requires LogOk(s)
    ensures s.start <= |s.order| && InOrder(s.order, s.log.records, s.start)
  {
  }

  lemma WriterMemory(s: Engine, m: Engine)
    requires GC.Inv(s.log) && Numbers(s) && Account(s) && WriterMove(s, m) && Memory(s)
    ensures Memory(m)
  {
    hide GC.Inv, Live, Advance, Numbers;
    HistoryKept(s, m, s.live);
  }

  lemma WriterPast(s: Engine, m: Engine)
    requires WriterMove(s, m) && Past(s)
    ensures Past(m)
  {
    hide Advance;
  }

  lemma WriterLog(s: Engine, g: GC.Event)
    requires GC.Inv(s.log) && |s.log.file| <= MAX_STREAM_OFFSET && CanWrite(s, g)
    ensures GC.Inv(DoWrite(s, g).log) && |DoWrite(s, g).log.file| <= MAX_STREAM_OFFSET
  {
    hide GC.Inv, GC.Enabled, GC.Step;
    GC.StepInv(s.log, g);
    StepAdvance(s.log, g);
  }
}
