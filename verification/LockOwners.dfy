/**
 * Who holds which lock: in every reachable state each lock is held by exactly the thread
 * whose call has reached a stage that needs it. No lock outlives the call that took it.
 */
module LockOwners {
  import opened Record
  import opened Snapshot
  import opened Recovery
  import opened Engine
  import opened EngineInv
  import opened EngineCalls
  import opened Durability
  import opened Guarantees
  import GC = GroupCommit

  /** From where its call stands, the thread must hold this shard: its key's, or those its operation locked. */
  ghost predicate NeedsShard(s: Engine, t: nat, i: nat) {
    var pc := PcOf(s, t);
    || (HasRequest(pc) && ShardOf(s, pc.r.op.key) == i)
    || (pc.Admin? && pc.stage.Locking? && i < pc.stage.n)
    || (pc.Admin? && Exclusive(pc.kind, pc.stage) && i < SHARDS)
  }

  ghost predicate NeedsAdmin(s: Engine, t: nat) {
    var pc := PcOf(s, t);
    pc.Admin? && (pc.stage.Locking? || Exclusive(pc.kind, pc.stage))
  }

  /** No lock is held without need. */
  ghost predicate NoneLeft(s: Engine) {
    && (forall i :: i in s.shards ==> NeedsShard(s, s.shards[i], i))
    && (s.adminLock.Some? ==> NeedsAdmin(s, s.adminLock.value))
    && (s.snapshotLock.Some? ==> PcOf(s, s.snapshotLock.value).Admin?)
  }

  /** One thread moves: its own locks are needed where it now stands, and the others' are as before. */
  ghost predicate MovesAlone(s: Engine, m: Engine, t: nat) {
    && m.hash == s.hash && m.threads == s.threads[t := PcOf(m, t)]
    && (forall i :: i in m.shards ==>
          if m.shards[i] == t then NeedsShard(m, t, i) else i in s.shards && s.shards[i] == m.shards[i])
    && (m.adminLock == s.adminLock || m.adminLock.None? || m.adminLock == Some(t))
    && (m.adminLock == Some(t) ==> NeedsAdmin(m, t))
    && (m.snapshotLock == s.snapshotLock || m.snapshotLock.None? || m.snapshotLock == Some(t))
    && (m.snapshotLock == Some(t) ==> PcOf(m, t).Admin?)
  }

  lemma MoveLeavesNone(s: Engine, m: Engine, t: nat)
    requires NoneLeft(s) && MovesAlone(s, m, t)
    ensures NoneLeft(m)
  {
    hide Exclusive;
    forall i | i in m.shards
      ensures NeedsShard(m, m.shards[i], i)
    {
      if m.shards[i] != t { assert PcOf(m, m.shards[i]) == PcOf(s, m.shards[i]); }
    }
  }

  /** A thread that keeps its locks, and still needs all it needed. */
  ghost predicate KeepsLocks(s: Engine, m: Engine, t: nat) {
    && m.hash == s.hash && m.threads == s.threads[t := PcOf(m, t)]
    && m.shards == s.shards && m.adminLock == s.adminLock && m.snapshotLock == s.snapshotLock
    && (forall i :: NeedsShard(s, t, i) ==> NeedsShard(m, t, i))
    && (NeedsAdmin(s, t) ==> NeedsAdmin(m, t)) && (PcOf(s, t).Admin? ==> PcOf(m, t).Admin?)
  }

  lemma KeepLeavesNone(s: Engine, m: Engine, t: nat)
    requires NoneLeft(s) && KeepsLocks(s, m, t)
    ensures NoneLeft(m)
  {
    hide NeedsShard, NeedsAdmin;
    MoveLeavesNone(s, m, t);
  }

  predicate TakesOrGives(call: Call) {
    call.Begin? || call.Return?
  }

  lemma SameRequest(s: Engine, m: Engine, t: nat)
    requires m.hash == s.hash && m.threads == s.threads[t := PcOf(m, t)]
    requires m.shards == s.shards && m.adminLock == s.adminLock && m.snapshotLock == s.snapshotLock
    requires HasRequest(PcOf(s, t)) && HasRequest(PcOf(m, t)) && PcOf(m, t).r == PcOf(s, t).r
    ensures KeepsLocks(s, m, t)
  {
    hide Exclusive;
  }

  lemma CallKeeps(s: Engine, t: nat, call: Call)
    requires CanCall(s, t, call) && !TakesOrGives(call)
    ensures KeepsLocks(s, DoCall(s, t, call), t)
  {
    hide CanAppend, CanWake, DoAppend, DoWake, DoMutate, KeepsLocks, PcOf;
    match call
    case Append => AppendKeeps(s, t);
    case Wake => WakeKeeps(s, t);
    case Mutate => MutateKeeps(s, t);
  }

  lemma AppendKeeps(s: Engine, t: nat)
    requires CanAppend(s, t)
    ensures KeepsLocks(s, DoAppend(s, t), t)
  {
    hide CanAppend, DoAppend, KeepsLocks, OthersKeepLocks, SameLog, Exclusive;
    AppendMove(s, t);
    SameRequest(s, DoAppend(s, t), t);
  }

  lemma WakeKeeps(s: Engine, t: nat)
    requires CanWake(s, t)
    ensures KeepsLocks(s, DoWake(s, t), t)
  {
    hide KeepsLocks;
    SameRequest(s, DoWake(s, t), t);
  }

  lemma MutateKeeps(s: Engine, t: nat)
    requires PcOf(s, t).Logged?
    ensures KeepsLocks(s, DoMutate(s, t), t)
  {
    hide KeepsLocks, Apply;
    SameRequest(s, DoMutate(s, t), t);
  }

  lemma CallMoves(s: Engine, t: nat, call: Call)
    requires NoneLeft(s) && CanCall(s, t, call) && TakesOrGives(call)
    ensures MovesAlone(s, DoCall(s, t, call), t)
  {
    hide Exclusive;
  }

  lemma CallLeavesNone(s: Engine, t: nat, call: Call)
    requires NoneLeft(s) && CanCall(s, t, call)
    ensures NoneLeft(DoCall(s, t, call))
  {
    hide NoneLeft, DoCall, CanCall, KeepsLocks, MovesAlone;
    if TakesOrGives(call) {
      CallMoves(s, t, call);
      MoveLeavesNone(s, DoCall(s, t, call), t);
    } else {
      CallKeeps(s, t, call);
      KeepLeavesNone(s, DoCall(s, t, call), t);
    }
  }

  lemma FileActKeeps(s: Engine, t: nat, action: Action)
    requires CanAct(s, t, action) && !IsLocking(action)
    ensures KeepsLocks(s, DoAct(s, t, action), t)
  {
    hide LoadPath, EndsWhole, Rotated, ImagesOf, Enumerates, AllEncodable, SnapshotBytes, CopyFor;
  }

  lemma LockActMoves(s: Engine, t: nat, action: Action)
    requires NoneLeft(s) && CanAct(s, t, action) && IsLocking(action)
    requires PcOf(s, t).Admin? ==> s.snapshotLock == Some(t)
    ensures MovesAlone(s, DoAct(s, t, action), t)
  {
    hide NoneLeft, MovesAlone, CanSerialize, CanLockAdmin, CanLockShard, CanRelease, DoSerialize, DoLockAdmin,
      DoLockShard, DoRelease, DoFinish, PcOf;
    match action
    case Serialize(kind) => SerializeMoves(s, t, kind);
    case LockAdmin => LockAdminMoves(s, t);
    case LockShard => LockShardMoves(s, t);
    case Release => ReleaseMoves(s, t);
    case Finish => FinishMoves(s, t);
  }

  lemma SerializeMoves(s: Engine, t: nat, kind: Kind)
    requires NoneLeft(s) && CanSerialize(s, t)
    ensures MovesAlone(s, DoSerialize(s, t, kind), t)
  {
  }

  lemma LockAdminMoves(s: Engine, t: nat)
    requires NoneLeft(s) && CanLockAdmin(s, t)
    ensures MovesAlone(s, DoLockAdmin(s, t), t)
  {
  }

  lemma LockShardMoves(s: Engine, t: nat)
    requires NoneLeft(s) && CanLockShard(s, t)
    ensures MovesAlone(s, DoLockShard(s, t), t)
  {
  }

  lemma ReleaseMoves(s: Engine, t: nat)
    requires NoneLeft(s) && CanRelease(s, t)
    ensures MovesAlone(s, DoRelease(s, t), t)
  {
  }

  lemma FinishMoves(s: Engine, t: nat)
    requires NoneLeft(s) && PcOf(s, t).Admin? && s.snapshotLock == Some(t)
    ensures MovesAlone(s, DoFinish(s, t), t)
  {
  }

  lemma ActLeavesNone(s: Engine, t: nat, action: Action)
    requires NoneLeft(s) && CanAct(s, t, action) && (PcOf(s, t).Admin? ==> s.snapshotLock == Some(t))
    ensures NoneLeft(DoAct(s, t, action))
  {
    hide NoneLeft, DoAct, CanAct, KeepsLocks, MovesAlone;
    if IsLocking(action) {
      LockActMoves(s, t, action);
      MoveLeavesNone(s, DoAct(s, t, action), t);
    } else {
      FileActKeeps(s, t, action);
      KeepLeavesNone(s, DoAct(s, t, action), t);
    }
  }

  lemma StepLeavesNone(s: Engine, e: Event)
    requires Inv(s) && NoneLeft(s) && Possible(s, e)
    ensures NoneLeft(Step(s, e))
  {
    hide Inv, CanCall, DoCall, CanAct, DoAct, CanWrite, GC.Step, CanCrash, Recover, Reopened;
    match e
    case Foreground(t, call) => CallLeavesNone(s, t, call);
    case Writer(_) =>
    case Background(t, action) =>
      AdminSerial(s, t);
      ActLeavesNone(s, t, action);
    case Crash(_, _, _) =>
  }

  lemma AdminSerial(s: Engine, t: nat)
    requires Inv(s)
    ensures PcOf(s, t).Admin? ==> s.snapshotLock == Some(t)
  {
    hide GC.Inv, Numbers, Queued, Account, Ordered, Memory, LogOk, Snapshots, Stale, Past, RequestOk, CopyOk;
  }

  lemma {:induction false} RunLeavesNone(s: Engine, events: seq<Event>)
    requires Inv(s) && NoneLeft(s) && Runs(s, events)
    ensures NoneLeft(AfterRun(s, events))
    decreases events
  {
    hide Inv, Enabled, Step, NoneLeft;
    if events != [] {
      EnabledIsPossible(s, events[0]);
      StepInv(s, events[0]);
      StepLeavesNone(s, events[0]);
      RunLeavesNone(Step(s, events[0]), events[1..]);
    }
  }

  /**
   * In every reachable state a thread holds exactly the shards, and the admin and snapshot
   * locks, that its call has taken and not yet given back; so a thread at rest holds nothing.
   */
  lemma LocksAreExact(s: Engine, t: nat, i: nat)
    requires Reachable(s)
    ensures (i in s.shards && s.shards[i] == t) <==> NeedsShard(s, t, i)
    ensures s.adminLock == Some(t) <==> NeedsAdmin(s, t)
    ensures s.snapshotLock == Some(t) <==> PcOf(s, t).Admin?
    ensures PcOf(s, t).Resting? ==>
              s.snapshotLock != Some(t) && s.adminLock != Some(t) && (i in s.shards ==> s.shards[i] != t)
  {
    hide Inv, Initial, Runs, AfterRun, NoneLeft;
    var start, events :| Initial(start) && Runs(start, events) && s == AfterRun(start, events);
    InitialInv(start);
    RunInv(start, events);
    NoneAtFirst(start);
    RunLeavesNone(start, events);
    Exact(s, t, i);
  }

  lemma NoneAtFirst(s: Engine)
    requires Initial(s)
    ensures NoneLeft(s)
  {
  }

  lemma Exact(s: Engine, t: nat, i: nat)
    requires Inv(s) && NoneLeft(s)
    ensures (i in s.shards && s.shards[i] == t) <==> NeedsShard(s, t, i)
    ensures s.adminLock == Some(t) <==> NeedsAdmin(s, t)
    ensures s.snapshotLock == Some(t) <==> PcOf(s, t).Admin?
  {
    hide GC.Inv, Numbers, Queued, Account, Ordered, Memory, LogOk, Snapshots, Stale, Past, CopyOk, GC.Fresh, NewTo;
  }
}
