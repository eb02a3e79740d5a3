/**
 * Foreground calls keep the engine's invariant.
 */
module EngineCalls {
  import opened Record
  import opened Replay
  import opened Recovery
  import opened Histories
  import opened Engine
  import opened EngineInv
  import GC = GroupCommit

  // ------------------------------------------------------------ what the log says about one request

  /** A request that completed since the open completed without error exactly if it is among the acknowledged records. */
  lemma CompletedOk(l: GC.Log, r: GC.Request)
    requires GC.Inv(l) && l.found <= |l.submitted| && r in l.submitted[l.found..] && r.id in l.outcomes
    ensures l.found <= l.acked <= |l.records|
    ensures l.outcomes[r.id] ==> r in l.records[l.found..l.acked]
    ensures r !in l.batch && r !in l.queue
    ensures !l.outcomes[r.id] ==> r !in l.records[l.found..l.acked]
  {
    hide LogBytes, BoundaryOf, Bounded, GC.Contents, GC.Durable, GC.AcceptedBounded;
    var i :| 0 <= i < |l.submitted| - l.found && l.submitted[l.found..][i] == r;
    assert l.submitted[l.found + i] == r;
    assert forall j :: 0 <= j < |l.records| ==> l.records[j] == l.submitted[j];
    if l.outcomes[r.id] { assert l.records[l.found..l.acked][i] == r; }
    PendingAreLater(l);
  }

  /** Requests in the batch or the queue come after every completed one. */
  lemma PendingAreLater(l: GC.Log)
    requires GC.Pipeline(l) && GC.Completions(l)
    ensures forall q :: q in l.batch || q in l.queue ==> q in l.submitted && q.id !in l.outcomes
  {
    hide Bounded;
    var n := GC.Completed(l);
    assert l.batch + l.queue == l.submitted[n..] by {
      if !l.failed && !l.phase.Idle? && !l.phase.Taken? {
        assert l.submitted[l.acked..] == l.submitted[..|l.records|][l.acked..] + l.submitted[|l.records|..];
      }
    }
    forall q | q in l.batch || q in l.queue
      ensures q in l.submitted && q.id !in l.outcomes
    {
      assert q in l.batch + l.queue;
      var i :| 0 <= i < |l.submitted[n..]| && l.submitted[n..][i] == q;
      assert l.submitted[n + i] == q;
    }
  }

  // ------------------------------------------------------------ taking the invariant apart

  lemma InvParts(s: Engine)
    requires Inv(s)
    ensures GC.Inv(s.log) && |s.log.file| <= MAX_STREAM_OFFSET && Threads(s) && Numbers(s) && Queued(s)
    ensures Account(s) && Ordered(s) && Memory(s) && LogOk(s) && Snapshots(s) && Stale(s) && Past(s)
  {
    hide GC.Inv, Threads, Numbers, Queued, Account, Ordered, Memory, LogOk, Snapshots, Stale, Past;
  }

  lemma InvWhole(s: Engine)
    requires GC.Inv(s.log) && |s.log.file| <= MAX_STREAM_OFFSET && Threads(s) && Numbers(s) && Queued(s)
    requires Account(s) && Ordered(s) && Memory(s) && LogOk(s) && Snapshots(s) && Stale(s) && Past(s)
    ensures Inv(s)
  {
    hide GC.Inv, Threads, Numbers, Queued, Account, Ordered, Memory, LogOk, Snapshots, Stale, Past;
  }

  // ------------------------------------------------------------ a call moves

  /** Thread `t`, in a call before or after, changes its place; the log only gains requests and outcomes. */
  ghost predicate CallMove(s: Engine, m: Engine, t: nat, pc: Pc) {
    && m.threads == s.threads[t := pc] && !PcOf(s, t).Admin? && !pc.Admin?
    && m.hash == s.hash && m.adminLock == s.adminLock && m.snapshotLock == s.snapshotLock
    && m.visible == s.visible && m.durable == s.durable && m.stale == s.stale
    && m.order == s.order && m.sure == s.sure && m.start == s.start && s.nextId <= m.nextId
    && m.base == s.base && m.plain == s.plain
    && OthersKeepLocks(s, m, t) && SameLog(s.log, m.log)
    && (forall u :: u in s.threads && s.threads[u].Admin? && Exclusive(s.threads[u].kind, s.threads[u].stage) ==>
        m.live == s.live)
  }

  ghost predicate SameLog(l: GC.Log, m: GC.Log) {
    && m.policy == l.policy && m.maxBatch == l.maxBatch && m.generation == l.generation
    && m.file == l.file && m.synced == l.synced && m.records == l.records && m.found == l.found
    && m.acked == l.acked && m.failed == l.failed && m.phase == l.phase
  }

  /** Copies, snapshots and log images do not depend on calls. */
  lemma FilesKept(s: Engine, m: Engine, t: nat, pc: Pc)
    requires CallMove(s, m, t, pc)
    ensures forall c :: CopyOk(s, c) ==> CopyOk(m, c)
    ensures Snapshots(s) ==> Snapshots(m)
    ensures Stale(s) ==> Stale(m)
    ensures LogOk(s) ==> LogOk(m)
  {
    hide Holds, Live, OthersKeepLocks, GoodImage, InOrder, BoundaryOf, Exclusive;
    assert forall saved, offset, cover :: SavedOk(s, saved, offset, cover) ==> SavedOk(m, saved, offset, cover);
    assert forall p :: SnapOk(s, p) ==> SnapOk(m, p);
    ImagesKept(s, m);
  }

  lemma OtherAdminKept(s: Engine, m: Engine, t: nat, pc: Pc, u: nat)
    requires Threads(s) && CallMove(s, m, t, pc) && u in s.threads && u != t && s.threads[u].Admin?
    ensures ThreadOk(m, u)
  {
    hide Threads, Holds, CopyOk, RequestOk, SameLog, OthersKeepLocks, AdminOk, Exclusive, Snapshots, Stale, LogOk;
    AdminHolds(s, u);
    FilesKept(s, m, t, pc);
    ShardsKept(s, m, t, u);
    AdminSame(s, m, u, s.threads[u].kind, s.threads[u].stage);
  }

  lemma AdminHolds(s: Engine, u: nat)
    requires Threads(s) && u in s.threads && s.threads[u].Admin?
    ensures AdminOk(s, u, s.threads[u].kind, s.threads[u].stage)
  {
    hide AdminOk, RequestOk;
    assert ThreadOk(s, u);
  }

  lemma ShardsKept(s: Engine, m: Engine, t: nat, u: nat)
    requires OthersKeepLocks(s, m, t) && u != t
    ensures forall i :: i in s.shards && s.shards[i] == u ==> i in m.shards && m.shards[i] == u
  {
  }

  /** An administrative operation keeps its place while its locks, its copy and the snapshots stay. */
  lemma AdminSame(s: Engine, m: Engine, u: nat, kind: Kind, stage: Stage)
    requires AdminOk(s, u, kind, stage) && m.snapshotLock == s.snapshotLock && m.adminLock == s.adminLock
    requires m.visible == s.visible && m.durable == s.durable && (Exclusive(kind, stage) ==> m.live == s.live)
    requires forall i :: i in s.shards && s.shards[i] == u ==> i in m.shards && m.shards[i] == u
    requires forall c :: CopyOk(s, c) ==> CopyOk(m, c)
    ensures AdminOk(m, u, kind, stage)
  {
    hide Holds, CopyOk, Exclusive;
  }

  /** Another call keeps its place: its request is still there, and still new if it was. */
  lemma OtherCallKept(s: Engine, m: Engine, t: nat, pc: Pc, u: nat)
    requires Threads(s) && CallMove(s, m, t, pc) && u in s.threads && u != t && HasRequest(s.threads[u])
    requires s.threads[u].r !in s.live ==> s.threads[u].r !in m.live
    requires s.log.found <= |s.log.submitted| <= |m.log.submitted|
    requires s.threads[u].r in s.log.submitted[s.log.found..] ==> s.threads[u].r in m.log.submitted[m.log.found..]
    requires GC.Fresh(s.log, s.threads[u].r) ==> GC.Fresh(m.log, s.threads[u].r)
    ensures ThreadOk(m, u)
  {
    hide GC.Fresh, AdminOk, Exclusive;
    assert ThreadOk(s, u);
  }

  /** Order and memory depend on the history and on which calls are under way. */
  lemma MemoryKept(s: Engine, m: Engine, t: nat, pc: Pc)
    requires CallMove(s, m, t, pc) && m.live == s.live && m.mem == s.mem && Ordered(s) && Memory(s)
    requires forall i :: 0 <= i < |s.order| && Underway(m, s.order[i]) ==> Underway(s, s.order[i])
    ensures Ordered(m) && Memory(m)
  {
    hide Live, OthersKeepLocks, SameLog, Underway, Exclusive;
    assert forall k :: ShardOf(m, k) == ShardOf(s, k);
  }

  lemma PastKept(s: Engine, m: Engine, t: nat, pc: Pc)
    requires CallMove(s, m, t, pc) && m.returned == s.returned && Past(s)
    ensures Past(m)
  {
    hide OthersKeepLocks, SameLog, Exclusive;
  }

  /** The account stays balanced while the moving call was not under way. */
  lemma AccountKept(s: Engine, m: Engine, t: nat, pc: Pc)
    requires CallMove(s, m, t, pc) && m.live == s.live && Account(s)
    requires !PcOf(s, t).Waiting? && !PcOf(s, t).Logged?
    ensures Account(m)
  {
    hide OthersKeepLocks, Exclusive;
  }

  // ------------------------------------------------------------ taking and giving back the shard

  lemma BeginInv(s: Engine, t: nat, op: Op)
    requires Inv(s) && CanBegin(s, t, op)
    ensures Inv(DoBegin(s, t, op))
  {
    hide *;
    var m := DoBegin(s, t, op);
    var pc := PcOf(m, t);
    InvParts(s);
    BeginMove(s, t, op);
    BeginThreads(s, t, op);
    BeginQueued(s, t, op);
    FilesKept(s, m, t, pc);
    MemoryKept(s, m, t, pc);
    PastKept(s, m, t, pc);
    AccountKept(s, m, t, pc);
    InvWhole(m);
  }

  lemma BeginMove(s: Engine, t: nat, op: Op)
    requires CanBegin(s, t, op)
    ensures var m := DoBegin(s, t, op);
            && CallMove(s, m, t, PcOf(m, t)) && m.log == s.log && m.live == s.live && m.mem == s.mem
            && m.returned == s.returned && !PcOf(s, t).Waiting? && !PcOf(s, t).Logged?
            && (forall r: GC.Request :: Underway(m, r) ==> Underway(s, r))
  {
  }

  lemma BeginQueued(s: Engine, t: nat, op: Op)
    requires CanBegin(s, t, op) && Queued(s) && Numbers(s)
    ensures Queued(DoBegin(s, t, op)) && Numbers(DoBegin(s, t, op))
  {
    hide GC.Distinct, Bounded;
  }

  lemma BeginThreads(s: Engine, t: nat, op: Op)
    requires GC.Inv(s.log) && Threads(s) && Numbers(s) && Account(s) && CanBegin(s, t, op)
    ensures Threads(DoBegin(s, t, op))
  {
    hide AdminOk, CallMove, GC.Inv, GC.Distinct, Bounded;
    SubmittedCoversRecords(s.log);
    var m := DoBegin(s, t, op);
    var pc := PcOf(m, t);
    BeginMove(s, t, op);
    forall u | u in m.threads
      ensures ThreadOk(m, u)
    {
      if u != t {
        assert ThreadOk(s, u);
        if s.threads[u].Admin? { OtherAdminKept(s, m, t, pc, u); }
      }
    }
    forall u | u in s.threads && HasRequest(s.threads[u])
      ensures s.threads[u].r.id < s.nextId
    {
      assert ThreadOk(s, u);
    }
  }

  lemma ReturnInv(s: Engine, t: nat)
    requires Inv(s) && (PcOf(s, t).Stored? || PcOf(s, t).Refused?)
    ensures Inv(DoReturn(s, t))
  {
    hide *;
    var m := DoReturn(s, t);
    InvParts(s);
    ReturnMove(s, t);
    ReturnThreads(s, t);
    ReturnQueued(s, t);
    ReturnPast(s, t);
    FilesKept(s, m, t, Resting);
    MemoryKept(s, m, t, Resting);
    AccountKept(s, m, t, Resting);
    InvWhole(m);
  }

  lemma ReturnMove(s: Engine, t: nat)
    requires Threads(s) && (PcOf(s, t).Stored? || PcOf(s, t).Refused?)
    ensures var m := DoReturn(s, t);
            && CallMove(s, m, t, Resting) && m.log == s.log && m.live == s.live && m.mem == s.mem
            && !PcOf(s, t).Waiting? && !PcOf(s, t).Logged?
            && (forall r: GC.Request :: Underway(m, r) ==> Underway(s, r))
  {
    hide AdminOk, GC.Fresh;
    assert ThreadOk(s, t);
  }

  lemma ReturnQueued(s: Engine, t: nat)
    requires Queued(s) && Numbers(s) && (PcOf(s, t).Stored? || PcOf(s, t).Refused?)
    ensures Queued(DoReturn(s, t)) && Numbers(DoReturn(s, t))
  {
  }

  lemma ReturnThreads(s: Engine, t: nat)
    requires Threads(s) && (PcOf(s, t).Stored? || PcOf(s, t).Refused?)
    ensures Threads(DoReturn(s, t))
  {
    hide AdminOk, GC.Fresh, CallMove;
    var m := DoReturn(s, t);
    ReturnMove(s, t);
    forall u | u in m.threads
      ensures ThreadOk(m, u)
    {
      if u != t {
        assert ThreadOk(s, u);
        if s.threads[u].Admin? { OtherAdminKept(s, m, t, Resting, u); }
        else if HasRequest(s.threads[u]) { OtherCallKept(s, m, t, Resting, u); }
      }
    }
  }

  /** A call that returned was acknowledged. */
  lemma ReturnPast(s: Engine, t: nat)
    requires Threads(s) && Past(s) && (PcOf(s, t).Stored? || PcOf(s, t).Refused?)
    ensures Past(DoReturn(s, t))
  {
    hide GC.Fresh, AdminOk;
    assert ThreadOk(s, t);
  }

  // ------------------------------------------------------------ submitting

  lemma AppendInv(s: Engine, t: nat)
    requires Inv(s) && CanAppend(s, t)
    ensures Inv(DoAppend(s, t))
  {
    hide *;
    var m := DoAppend(s, t);
    var pc := PcOf(m, t);
    InvParts(s);
    AppendMove(s, t);
    AppendThreads(s, t);
    AppendLog(s, t);
    AppendQueued(s, t);
    FilesKept(s, m, t, pc);
    MemoryKept(s, m, t, pc);
    AccountKept(s, m, t, pc);
    PastKept(s, m, t, pc);
    InvWhole(m);
  }

  /** What the append changes: at most the accepted requests, the queue and the outcomes. */
  ghost predicate Appended(s: Engine, m: Engine, t: nat) {
    && PcOf(s, t).Locked?
    && var r := PcOf(s, t).r;
       && m.live == s.live && m.mem == s.mem && m.shards == s.shards && m.nextId == s.nextId
       && m.returned == s.returned && m.log.batch == s.log.batch
       && (m.log.outcomes == s.log.outcomes || m.log.outcomes == s.log.outcomes[r.id := false])
       && (|| (m.log.queue == s.log.queue && m.log.submitted == s.log.submitted && PcOf(m, t) == Refused(r))
           || (m.log.queue == s.log.queue + [r] && m.log.submitted == s.log.submitted + [r]
             && PcOf(m, t) == Waiting(r)))
  }

  lemma AppendMove(s: Engine, t: nat)
    requires CanAppend(s, t)
    ensures CallMove(s, DoAppend(s, t), t, PcOf(DoAppend(s, t), t)) && Appended(s, DoAppend(s, t), t)
    ensures !PcOf(s, t).Waiting? && !PcOf(s, t).Logged?
    ensures DoAppend(s, t).live == s.live && DoAppend(s, t).mem == s.mem && DoAppend(s, t).returned == s.returned
  {
    hide Bounded, GC.Fresh, OthersKeepLocks, CallMove, Appended;
    var r := PcOf(s, t).r;
    if !Bounded(r.op) {
      SubmittedMove(s, t, s.log, Refused(r));
    } else {
      SubmittedMove(s, t, DoAppend(s, t).log, PcOf(DoAppend(s, t), t));
    }
  }

  lemma SubmittedMove(s: Engine, t: nat, l: GC.Log, pc: Pc)
    requires PcOf(s, t).Locked?
    requires var r := PcOf(s, t).r;
             || (pc == Refused(r) && l == s.log)
             || (pc == Refused(r) && l == s.log.(outcomes := s.log.outcomes[r.id := false]))
             || (pc == Waiting(r) && l == s.log.(submitted := s.log.submitted + [r], queue := s.log.queue + [r]))
    ensures var m := At(s, t, pc).(log := l);
            CallMove(s, m, t, pc) && Appended(s, m, t)
  {
  }

  lemma AppendThreads(s: Engine, t: nat)
    requires GC.Inv(s.log) && Account(s) && Threads(s) && CanAppend(s, t)
    ensures Threads(DoAppend(s, t))
  {
    hide GC.Inv, CanAppend, DoAppend, ThreadOk, CallMove;
    var m := DoAppend(s, t);
    AppendMove(s, t);
    MoveKeepsThreads(s, m, t, PcOf(m, t));
    AppendSelf(s, m, t);
    forall u | u in m.threads && u != t
      ensures ThreadOk(m, u)
    {
      AppendOther(s, m, t, u);
    }
  }

  lemma MoveKeepsThreads(s: Engine, m: Engine, t: nat, pc: Pc)
    requires CallMove(s, m, t, pc)
    ensures m.threads == s.threads[t := pc]
  {
  }

  lemma AppendSelf(s: Engine, m: Engine, t: nat)
    requires GC.Inv(s.log) && Account(s) && Threads(s) && CallMove(s, m, t, PcOf(m, t)) && Appended(s, m, t)
    ensures ThreadOk(m, t)
  {
    hide GC.Inv, AdminOk, OthersKeepLocks, Exclusive;
    var r := PcOf(s, t).r;
    assert ThreadOk(s, t);
    NotLive(s, r);
    var n := |s.log.submitted|;
    assert (s.log.submitted + [r])[s.log.found..] == s.log.submitted[s.log.found..] + [r];
  }

  /** A request that is still new is not in effect. */
  lemma NotLive(s: Engine, r: GC.Request)
    requires Account(s) && NewTo(s.order, r)
    ensures r !in s.live
  {
  }

  lemma AppendOther(s: Engine, m: Engine, t: nat, u: nat)
    requires Threads(s) && CallMove(s, m, t, PcOf(m, t)) && Appended(s, m, t) && u in s.threads && u != t
    ensures ThreadOk(m, u)
  {
    hide AdminOk, OthersKeepLocks, Exclusive;
    var pc := PcOf(m, t);
    assert ThreadOk(s, t) && ThreadOk(s, u);
    assert (s.log.submitted + [PcOf(s, t).r])[s.log.found..] == s.log.submitted[s.log.found..] + [PcOf(s, t).r];
    if s.threads[u].Admin? {
      OtherAdminKept(s, m, t, pc, u);
    } else if HasRequest(s.threads[u]) {
      assert s.threads[u].r.id != PcOf(s, t).r.id;
      OtherCallKept(s, m, t, pc, u);
    }
  }

  lemma AppendLog(s: Engine, t: nat)
    requires GC.Inv(s.log) && |s.log.file| <= MAX_STREAM_OFFSET && CanAppend(s, t)
    ensures var m := DoAppend(s, t);
            GC.Inv(m.log) && |m.log.file| <= MAX_STREAM_OFFSET
  {
    hide Bounded, GC.Inv, GC.Fresh;
    var r := PcOf(s, t).r;
    if Bounded(r.op) {
      GC.StepInv(s.log, if s.log.failed then GC.Reject(r) else GC.Submit(r));
    }
  }

  lemma AppendQueued(s: Engine, t: nat)
    requires GC.Inv(s.log) && Threads(s) && Numbers(s) && Queued(s) && CanAppend(s, t)
    ensures Numbers(DoAppend(s, t)) && Queued(DoAppend(s, t))
    ensures var m := DoAppend(s, t);
            forall i :: 0 <= i < |s.order| && Underway(m, s.order[i]) ==> Underway(s, s.order[i])
  {
    hide AdminOk, GC.Inv, GC.Fresh, CanAppend, DoAppend, OthersKeepLocks, Exclusive, GC.Distinct, Bounded;
    AppendMove(s, t);
    SubmittedCoversRecords(s.log);
    assert ThreadOk(s, t);
  }

  lemma SubmittedCoversRecords(l: GC.Log)
    requires GC.Inv(l)
    ensures |l.records| <= |l.submitted|
  {
  }

  // ------------------------------------------------------------ completion

  lemma WakeInv(s: Engine, t: nat)
    requires Inv(s) && CanWake(s, t)
    ensures Inv(DoWake(s, t))
  {
    hide *;
    var m := DoWake(s, t);
    var pc := PcOf(m, t);
    InvParts(s);
    WakeMove(s, t);
    WakeThreads(s, t);
    WakeQueued(s, t);
    FilesKept(s, m, t, pc);
    MemoryKept(s, m, t, pc);
    PastKept(s, m, t, pc);
    InvWhole(m);
  }

  lemma WakeMove(s: Engine, t: nat)
    requires CanWake(s, t)
    ensures var m := DoWake(s, t);
            && CallMove(s, m, t, PcOf(m, t)) && m.log == s.log && m.live == s.live && m.mem == s.mem
            && m.returned == s.returned
            && (forall r: GC.Request :: Underway(m, r) ==> Underway(s, r))
  {
  }

  /** A completion says whether the request was acknowledged. */
  lemma WakeThreads(s: Engine, t: nat)
    requires GC.Inv(s.log) && Account(s) && Threads(s) && CanWake(s, t)
    ensures Threads(DoWake(s, t))
  {
    hide GC.Inv, AdminOk, GC.Fresh, CallMove;
    var m := DoWake(s, t);
    WakeMove(s, t);
    assert ThreadOk(s, t);
    var r := PcOf(s, t).r;
    CompletedOk(s.log, r);
    if s.log.outcomes[r.id] { AckedIsSure(s, r); }
    forall u | u in m.threads && u != t
      ensures ThreadOk(m, u)
    {
      assert ThreadOk(s, u);
      if s.threads[u].Admin? { OtherAdminKept(s, m, t, PcOf(m, t), u); }
      else if HasRequest(s.threads[u]) { OtherCallKept(s, m, t, PcOf(m, t), u); }
    }
  }

  lemma AckedIsSure(s: Engine, r: GC.Request)
    requires Account(s) && r in s.log.records[s.log.found..s.log.acked]
    ensures r in s.sure
  {
    var i :| 0 <= i < s.log.acked - s.log.found && s.log.records[s.log.found..s.log.acked][i] == r;
    assert s.log.records[s.log.found + i] == r;
  }

  /** A request the log refused was never acknowledged. */
  lemma RefusedNotSure(s: Engine, r: GC.Request)
    requires GC.Inv(s.log) && Account(s) && Numbers(s) && s.log.found <= |s.log.submitted|
    requires r in s.log.submitted[s.log.found..] && r.id in s.log.outcomes && !s.log.outcomes[r.id]
    ensures r !in s.sure
  {
    hide LogBytes, BoundaryOf, Bounded, GC.Contents, GC.Durable, GC.AcceptedBounded;
    var i :| 0 <= i < |s.log.submitted| - s.log.found && s.log.submitted[s.log.found..][i] == r;
    assert s.log.submitted[s.log.found + i] == r;
    var j := s.log.found + i;
    if j < |s.log.records| { assert s.log.records[j] == r; } else { assert NewTo(s.order, r); }
  }

  lemma WakeQueued(s: Engine, t: nat)
    requires GC.Inv(s.log) && Threads(s) && Numbers(s) && Queued(s) && Account(s) && CanWake(s, t)
    ensures Numbers(DoWake(s, t)) && Queued(DoWake(s, t)) && Account(DoWake(s, t))
  {
    hide GC.Inv, AdminOk, GC.Fresh, GC.Distinct, Bounded;
    assert ThreadOk(s, t);
    var r := PcOf(s, t).r;
    CompletedOk(s.log, r);
    if !s.log.outcomes[r.id] { RefusedNotSure(s, r); }
  }

  // ------------------------------------------------------------ changing memory

  lemma MutateInv(s: Engine, t: nat)
    requires Inv(s) && PcOf(s, t).Logged?
    ensures Inv(DoMutate(s, t))
  {
    hide *;
    var m := DoMutate(s, t);
    var pc := PcOf(m, t);
    InvParts(s);
    MutateMove(s, t);
    MutateThreads(s, t);
    MutateMemory(s, t);
    MutateQueued(s, t);
    FilesKept(s, m, t, pc);
    PastKept(s, m, t, pc);
    InvWhole(m);
  }

  lemma MutateMove(s: Engine, t: nat)
    requires Threads(s) && PcOf(s, t).Logged?
    ensures var m := DoMutate(s, t);
            CallMove(s, m, t, PcOf(m, t)) && m.log == s.log && m.returned == s.returned
  {
    hide Apply, GC.Fresh, CopyOk, Holds;
    assert ThreadOk(s, t);
    forall u | u in s.threads && s.threads[u].Admin?
      ensures !Exclusive(s.threads[u].kind, s.threads[u].stage)
    {
      assert ThreadOk(s, u);
      if Exclusive(s.threads[u].kind, s.threads[u].stage) { NoCallsWhenHeld(s, u, t); }
    }
  }

  lemma MutateThreads(s: Engine, t: nat)
    requires Threads(s) && PcOf(s, t).Logged?
    ensures Threads(DoMutate(s, t))
  {
    hide AdminOk, GC.Fresh, CallMove, Apply;
    var m := DoMutate(s, t);
    MutateMove(s, t);
    assert ThreadOk(s, t);
    forall u | u in m.threads && u != t
      ensures ThreadOk(m, u)
    {
      assert ThreadOk(s, u);
      if s.threads[u].Admin? { OtherAdminKept(s, m, t, PcOf(m, t), u); }
      else if HasRequest(s.threads[u]) { OtherCallKept(s, m, t, PcOf(m, t), u); }
    }
  }

  lemma MutateQueued(s: Engine, t: nat)
    requires Threads(s) && Numbers(s) && Queued(s) && Account(s) && Ordered(s) && PcOf(s, t).Logged?
    ensures var m := DoMutate(s, t);
            Numbers(m) && Queued(m) && Account(m) && Ordered(m)
  {
    hide Apply, AdminOk, GC.Fresh, GC.Distinct, Bounded;
    var m := DoMutate(s, t);
    assert forall k :: ShardOf(m, k) == ShardOf(s, k);
    assert forall r: GC.Request :: Underway(m, r) ==> Underway(s, r);
    assert ThreadOk(s, t);
  }

  /** Applying a logged operation to memory last is the same as applying it in log order. */
  lemma MutateMemory(s: Engine, t: nat)
    requires Threads(s) && Numbers(s) && Account(s) && Ordered(s) && Memory(s) && PcOf(s, t).Logged?
    ensures Memory(DoMutate(s, t))
  {
    hide Apply, AdminOk, GC.Fresh, Live, Bounded, GC.Distinct;
    var r := PcOf(s, t).r;
    assert ThreadOk(s, t);
    var p := Place(s.order, r);
    assert Underway(s, s.order[p]);
    LiveInsert(s.order, s.live, p);
  }
}
