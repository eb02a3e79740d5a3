/**
 * Nothing the engine does depends on which requests count as acknowledged: that is history
 * only. A run stays a run, event by event, if more requests are counted.
 */
module Vouching {
  import opened Record
  import opened Replay
  import opened Snapshot
  import opened Recovery
  import opened Histories
  import opened Engine
  import opened EngineInv
  import opened Durability
  import GC = GroupCommit

  /** The same state, with more requests counted as acknowledged. */
  ghost function Vouched(s: Engine, more: set<GC.Request>): Engine {
    s.(sure := s.sure + more)
  }

  /** No step depends on it. */
  lemma StepVouched(s: Engine, e: Event, more: set<GC.Request>)
    requires Possible(s, e)
    ensures Possible(Vouched(s, more), e) && Enabled(Vouched(s, more), e) == Enabled(s, e)
    ensures Step(Vouched(s, more), e) == Vouched(Step(s, e), more)
  {
    hide CanCall, CanWrite, CanAct, CanCrash, DoCall, DoWrite, DoAct, DoCrash, Vouched, Aligned;
    match e
    case Foreground(t, call) => CallVouched(s, t, call, more);
    case Writer(g) => WriteVouched(s, g, more);
    case Background(t, action) => ActVouched(s, t, action, more);
    case Crash(loss, image, snap) => CrashVouched(s, loss, image, snap, more);
  }

  lemma CallVouched(s: Engine, t: nat, call: Call, more: set<GC.Request>)
    requires CanCall(s, t, call)
    ensures CanCall(Vouched(s, more), t, call) && DoCall(Vouched(s, more), t, call) == Vouched(DoCall(s, t, call), more)
  {
    hide CanBegin, CanAppend, CanWake, DoBegin, DoAppend, DoWake, DoMutate, DoReturn, Vouched, PcOf;
    match call
    case Begin(op) => BeginVouched(s, t, op, more);
    case Append => AppendVouched(s, t, more);
    case Wake => WakeVouched(s, t, more);
    case Mutate => MutateVouched(s, t, more);
    case Return => ReturnVouched(s, t, more);
  }

  lemma BeginVouched(s: Engine, t: nat, op: Op, more: set<GC.Request>)
    requires CanBegin(s, t, op)
    ensures CanBegin(Vouched(s, more), t, op) && DoBegin(Vouched(s, more), t, op) == Vouched(DoBegin(s, t, op), more)
  {
  }

  lemma AppendVouched(s: Engine, t: nat, more: set<GC.Request>)
    requires CanAppend(s, t)
    ensures CanAppend(Vouched(s, more), t) && DoAppend(Vouched(s, more), t) == Vouched(DoAppend(s, t), more)
  {
    hide GC.Enabled, GC.Step, Bounded, Vouched, At;
    var r := PcOf(s, t).r;
    SameView(s, t, more);
    if !Bounded(r.op) {
      MoveVouched(s, t, Refused(r), s.log, more);
    } else if s.log.failed {
      MoveVouched(s, t, Refused(r), GC.Step(s.log, GC.Reject(r)), more);
    } else {
      MoveVouched(s, t, Waiting(r), GC.Step(s.log, GC.Submit(r)), more);
    }
  }

  lemma SameView(s: Engine, t: nat, more: set<GC.Request>)
    ensures PcOf(Vouched(s, more), t) == PcOf(s, t) && Vouched(s, more).log == s.log
  {
  }

  lemma MoveVouched(s: Engine, t: nat, pc: Pc, l: GC.Log, more: set<GC.Request>)
    ensures At(Vouched(s, more), t, pc) == Vouched(At(s, t, pc), more)
    ensures At(Vouched(s, more), t, pc).(log := l) == Vouched(At(s, t, pc).(log := l), more)
  {
  }

  lemma WakeVouched(s: Engine, t: nat, more: set<GC.Request>)
    requires CanWake(s, t)
    ensures CanWake(Vouched(s, more), t) && DoWake(Vouched(s, more), t) == Vouched(DoWake(s, t), more)
  {
  }

  lemma MutateVouched(s: Engine, t: nat, more: set<GC.Request>)
    requires PcOf(s, t).Logged?
    ensures PcOf(Vouched(s, more), t).Logged? && DoMutate(Vouched(s, more), t) == Vouched(DoMutate(s, t), more)
  {
    hide Apply;
  }

  lemma ReturnVouched(s: Engine, t: nat, more: set<GC.Request>)
    requires PcOf(s, t).Stored? || PcOf(s, t).Refused?
    ensures PcOf(Vouched(s, more), t) == PcOf(s, t) && DoReturn(Vouched(s, more), t) == Vouched(DoReturn(s, t), more)
  {
  }

  lemma WriteVouched(s: Engine, g: GC.Event, more: set<GC.Request>)
    requires CanWrite(s, g)
    ensures CanWrite(Vouched(s, more), g) && DoWrite(Vouched(s, more), g) == Vouched(DoWrite(s, g), more)
  {
    hide GC.Step, Bounded, GC.IsBatch, GC.Fresh;
    if g.Ack? {
      assert s.sure + more + {s.log.batch[0]} == s.sure + {s.log.batch[0]} + more;
    }
  }

  lemma ActVouched(s: Engine, t: nat, action: Action, more: set<GC.Request>)
    requires CanAct(s, t, action)
    ensures CanAct(Vouched(s, more), t, action)
    ensures DoAct(Vouched(s, more), t, action) == Vouched(DoAct(s, t, action), more)
  {
    hide CanTruncate, DoTruncate, CanRename, DoRename, CanAct, DoAct, Vouched;
    if action.Truncate? {
      ActMoves(s, t, action);
      TruncateVouched(s, t, more);
    } else if IsLocking(action) {
      LockVouched(s, t, action, more);
    } else {
      FileVouched(s, t, action, more);
    }
  }

  lemma TruncateVouched(s: Engine, t: nat, more: set<GC.Request>)
    requires CanTruncate(s, t) && DoAct(s, t, Truncate) == DoTruncate(s, t)
    ensures CanAct(Vouched(s, more), t, Truncate)
    ensures DoAct(Vouched(s, more), t, Truncate) == Vouched(DoAct(s, t, Truncate), more)
  {
    hide LoadOf;
    assert ImagesOf(Vouched(s, more)) == ImagesOf(s);
  }

  lemma LockVouched(s: Engine, t: nat, action: Action, more: set<GC.Request>)
    requires CanAct(s, t, action) && IsLocking(action)
    ensures CanAct(Vouched(s, more), t, action)
    ensures DoAct(Vouched(s, more), t, action) == Vouched(DoAct(s, t, action), more)
  {
    hide CanSerialize, CanLockAdmin, CanLockShard, CanRelease, DoSerialize, DoLockAdmin, DoLockShard, DoRelease,
      DoFinish, Vouched, PcOf;
    SameView(s, t, more);
    match action
    case Serialize(kind) => SerializeVouched(s, t, kind, more);
    case LockAdmin => LockAdminVouched(s, t, more);
    case LockShard => LockShardVouched(s, t, more);
    case Release => ReleaseVouched(s, t, more);
    case Finish => FinishVouched(s, t, more);
  }

  lemma SerializeVouched(s: Engine, t: nat, kind: Kind, more: set<GC.Request>)
    requires CanSerialize(s, t)
    ensures CanSerialize(Vouched(s, more), t)
    ensures DoSerialize(Vouched(s, more), t, kind) == Vouched(DoSerialize(s, t, kind), more)
  {
  }

  lemma LockAdminVouched(s: Engine, t: nat, more: set<GC.Request>)
    requires CanLockAdmin(s, t)
    ensures CanLockAdmin(Vouched(s, more), t) && DoLockAdmin(Vouched(s, more), t) == Vouched(DoLockAdmin(s, t), more)
  {
  }

  lemma LockShardVouched(s: Engine, t: nat, more: set<GC.Request>)
    requires CanLockShard(s, t)
    ensures CanLockShard(Vouched(s, more), t) && DoLockShard(Vouched(s, more), t) == Vouched(DoLockShard(s, t), more)
  {
  }

  lemma ReleaseVouched(s: Engine, t: nat, more: set<GC.Request>)
    requires CanRelease(s, t)
    ensures CanRelease(Vouched(s, more), t) && DoRelease(Vouched(s, more), t) == Vouched(DoRelease(s, t), more)
  {
    hide WithoutOwner;
  }

  lemma FinishVouched(s: Engine, t: nat, more: set<GC.Request>)
    requires PcOf(s, t).Admin?
    ensures PcOf(Vouched(s, more), t) == PcOf(s, t) && DoFinish(Vouched(s, more), t) == Vouched(DoFinish(s, t), more)
  {
    hide WithoutOwner;
  }

  lemma FileVouched(s: Engine, t: nat, action: Action, more: set<GC.Request>)
    requires CanAct(s, t, action) && !IsLocking(action) && !action.Truncate?
    ensures CanAct(Vouched(s, more), t, action)
    ensures DoAct(Vouched(s, more), t, action) == Vouched(DoAct(s, t, action), more)
  {
    hide Enumerates, Encodable, SnapshotBytes, ReplayFrom, DoTruncate, DoSerialize, DoLockAdmin, DoLockShard, DoRelease,
      DoFinish;
  }

  lemma CrashVouched(s: Engine, loss: bool, image: Image, snap: Snap, more: set<GC.Request>)
    requires CanCrash(s, loss, image, snap)
    ensures CanCrash(Vouched(s, more), loss, image, snap)
    ensures DoCrash(Vouched(s, more), loss, image, snap) == Vouched(DoCrash(s, loss, image, snap), more)
  {
    hide Recover, ReplayedRecords, OffsetOf, CutBack, KeptRecords, StoreOf, Placed, Replayed;
  }

  lemma {:induction false} RunVouched(s: Engine, events: seq<Event>, more: set<GC.Request>)
    requires Runs(s, events)
    ensures Runs(Vouched(s, more), events) && AfterRun(Vouched(s, more), events) == Vouched(AfterRun(s, events), more)
    decreases events
  {
    hide Enabled, Step, Possible, Vouched;
    if events != [] {
      EnabledIsPossible(s, events[0]);
      StepVouched(s, events[0], more);
      RunVouched(Step(s, events[0]), events[1..], more);
    }
  }
}
