/**
 * Nothing is made up: every request in a history, and so everything recovery applies,
 * is a call that some thread began.
 */
module Provenance {
  import opened Record
  import opened Recovery
  import opened Histories
  import opened Engine
  import opened EngineInv
  import opened EngineCalls
  import opened EngineWriter
  import opened EngineRestart
  import opened Durability
  import GC = GroupCommit

  /** The calls begun so far, after one more event; a request's number is its place among them. */
  function Noted(begun: seq<GC.Request>, e: Event): seq<GC.Request> {
    if e.Foreground? && e.call.Begin? then begun + [GC.Request(|begun|, e.t, e.call.op)] else begun
  }

  function CallsBegun(begun: seq<GC.Request>, events: seq<Event>): seq<GC.Request>
    decreases events
  {
    if events == [] then begun else CallsBegun(Noted(begun, events[0]), events[1..])
  }

  predicate Known(begun: seq<GC.Request>, r: GC.Request) {
    r.id < |begun| && begun[r.id] == r
  }

  predicate AllKnown(begun: seq<GC.Request>, rs: seq<GC.Request>) {
    forall i :: 0 <= i < |rs| ==> Known(begun, rs[i])
  }

  ghost predicate ThreadsKnown(s: Engine, begun: seq<GC.Request>) {
    forall t :: t in s.threads && HasRequest(s.threads[t]) ==> Known(begun, s.threads[t].r)
  }

  ghost predicate Genuine(s: Engine, begun: seq<GC.Request>) {
    && |begun| == s.nextId && ThreadsKnown(s, begun)
    && AllKnown(begun, s.order) && AllKnown(begun, s.log.submitted)
  }

  lemma CallGenuine(s: Engine, begun: seq<GC.Request>, t: nat, call: Call)
    requires Genuine(s, begun) && CanCall(s, t, call)
    ensures Genuine(DoCall(s, t, call), Noted(begun, Foreground(t, call)))
  {
    hide Apply, Bounded, GC.Fresh;
    if call.Append? { AppendGenuine(s, begun, t); }
  }

  lemma AppendGenuine(s: Engine, begun: seq<GC.Request>, t: nat)
    requires Genuine(s, begun) && CanAppend(s, t)
    ensures Genuine(DoAppend(s, t), begun)
  {
    hide CanAppend, DoAppend, OthersKeepLocks, Exclusive, SameLog;
    AppendMove(s, t);
  }

  lemma WriterGenuine(s: Engine, begun: seq<GC.Request>, g: GC.Event)
    requires Inv(s) && Genuine(s, begun) && CanWrite(s, g)
    ensures Genuine(DoWrite(s, g), begun)
  {
    hide Inv, GC.Inv, CanWrite, DoWrite, Known, Threads, Numbers, Queued, Account, Ordered, Memory, LogOk,
      Snapshots, Stale, Past, Acks;
    InvParts(s);
    WriteMoves(s, g);
    PendingAccepted(s.log);
    var m := DoWrite(s, g);
    forall i | 0 <= i < |m.order|
      ensures Known(begun, m.order[i])
    {
      if i >= |s.order| { assert m.order[i] in s.log.batch && m.order[i] in s.log.submitted; }
    }
  }

  lemma ActGenuine(s: Engine, begun: seq<GC.Request>, t: nat, action: Action)
    requires Genuine(s, begun) && CanAct(s, t, action)
    ensures Genuine(DoAct(s, t, action), begun)
  {
    hide CanAct, DoAct, AllKnown, Genuine, HasRequest;
    ActMoves(s, t, action);
    var m := DoAct(s, t, action);
    AdminGenuine(s, begun, t, m, PcOf(m, t));
  }

  lemma AdminGenuine(s: Engine, begun: seq<GC.Request>, t: nat, m: Engine, pc: Pc)
    requires Genuine(s, begun) && m.order == s.order && m.nextId == s.nextId
    requires m.log.submitted == s.log.submitted || m.log.submitted == []
    requires m.threads == s.threads[t := pc] && !HasRequest(pc)
    ensures Genuine(m, begun)
  {
    hide Known;
  }

  lemma CrashGenuine(s: Engine, begun: seq<GC.Request>, loss: bool, image: Image, p: Snap)
    requires Inv(s) && Genuine(s, begun) && CanCrash(s, loss, image, p) && Aligned(image, p)
    ensures Genuine(DoCrash(s, loss, image, p), begun)
  {
    hide Inv, GC.Inv, Known, Recover, CutBack, KeptRecords, OffsetOf, MayLeave, Threads, Numbers, Queued, Account,
      Ordered, Memory, LogOk, Snapshots, Stale, Past, RecoveredSet, Settles, StoreOf, ImageOk, Aligned, Survivors,
      Covers;
    InvParts(s);
    CrashLeaves(s, loss, image, p);
    LeftIsOk(s, loss, image, p);
    KeptGenuine(s, begun, image);
  }

  lemma KeptGenuine(s: Engine, begun: seq<GC.Request>, image: Image)
    requires AllKnown(begun, s.order) && ImageOk(s, image)
    ensures AllKnown(begun, KeptRecords(image))
  {
    hide Known, KeptRecords, GoodImage, Covers, Survivors;
    KeptAre(image);
    forall i | 0 <= i < Survivors(image)
      ensures Known(begun, image.records[i])
    {
      assert s.order[Place(s.order, image.records[i])] == image.records[i];
    }
  }

  lemma StepGenuine(s: Engine, begun: seq<GC.Request>, e: Event)
    requires Inv(s) && Genuine(s, begun) && Enabled(s, e)
    ensures Genuine(Step(s, e), Noted(begun, e))
  {
    hide Inv, Aligned, CanCall, CanWrite, CanAct, CanCrash, DoCall, DoWrite, DoAct, DoCrash, Genuine;
    match e
    case Foreground(t, call) => CallGenuine(s, begun, t, call);
    case Writer(g) => WriterGenuine(s, begun, g);
    case Background(t, action) => ActGenuine(s, begun, t, action);
    case Crash(loss, image, snap) => CrashGenuine(s, begun, loss, image, snap);
  }

  lemma {:induction false} RunGenuine(s: Engine, begun: seq<GC.Request>, events: seq<Event>)
    requires Inv(s) && Genuine(s, begun) && Runs(s, events)
    ensures Genuine(AfterRun(s, events), CallsBegun(begun, events))
    decreases events
  {
    hide Inv, Enabled, Step, Genuine, Noted;
    if events != [] {
      EnabledIsPossible(s, events[0]);
      StepInv(s, events[0]);
      StepGenuine(s, begun, events[0]);
      RunGenuine(Step(s, events[0]), Noted(begun, events[0]), events[1..]);
    }
  }

  /**
   * In every run from the empty store, each request of the history is the call with that
   * number among the calls begun: same thread, same operation. With the history listing a
   * number at most once, no call takes effect twice and no effect lacks a call.
   */
  lemma HistoryIsGenuine(start: Engine, events: seq<Event>, i: nat)
    requires Initial(start) && Runs(start, events) && i < |AfterRun(start, events).order|
    ensures Known(CallsBegun([], events), AfterRun(start, events).order[i])
  {
    hide Inv, Runs, AfterRun, CallsBegun, Known;
    InitialInv(start);
    RunGenuine(start, [], events);
  }
}
