/**
 * Threads, locks and the log's writer as a transition system; no reachable state
 * with an unfinished operation is stuck.
 */
module LockProgress {
  import opened Deadlock

  datatype Event =
    | Start(t: nat, op: Operation, route: Route)
    | Run(t: nat)           // a thread performs its next lock operation
    | Throw(t: nat)         // an exception unwinds a thread: every lock is given back
    | TakeBatch(n: nat)     // the writer moves requests from the queue to its batch
    | LockIo
    | UnlockIo(ok: bool)    // the batch is on disk, or a write or sync failed
    | Drain                 // after a failure, everything queued joins the batch
    | Complete              // one request of the batch completes

  // ------------------------------------------------------------ steps of threads

  predicate Wants(th: Thread, lock: nat, mode: Mode) {
    th.todo != [] && th.todo[0] == Acquire(lock, mode)
  }

  /** Nobody else's hold on the lock stands in the way. */
  ghost predicate Grantable(s: State, t: nat, lock: nat, mode: Mode) {
    && (forall u :: 0 <= u < |s.threads| && u != t && lock in s.threads[u].held ==>
          mode == Shared && s.threads[u].held[lock] == Shared)
    && (lock == IO ==> !s.writer.Writing?)
  }

  /** A reader is kept waiting while some writer waits for the same lock. */
  ghost predicate CanAcquire(s: State, t: nat, lock: nat, mode: Mode) {
    && Grantable(s, t, lock, mode)
    && (mode == Shared ==> forall u :: 0 <= u < |s.threads| ==> !Wants(s.threads[u], lock, Exclusive))
  }

  ghost predicate CanRun(s: State, t: nat) {
    && t < |s.threads| && s.threads[t].todo != []
    && match s.threads[t].todo[0]
       case Acquire(l, m) => CanAcquire(s, t, l, m)
       case Await => !s.threads[t].pending
       case _ => true
  }

  function Advance(th: Thread, failed: bool): Thread
    requires th.todo != []
  {
    match th.todo[0]
    case Acquire(l, m) => Thread(th.held[l := m], th.todo[1..], th.pending)
    case Release(l) => Thread(th.held - {l}, th.todo[1..], th.pending)
    case Submit => Thread(th.held, th.todo[1..], !failed)
    case _ => Thread(th.held, th.todo[1..], th.pending)
  }

  function DoRun(s: State, t: nat): State
    requires t < |s.threads| && s.threads[t].todo != []
  {
    s.(threads := s.threads[t := Advance(s.threads[t], s.failed)],
       queue := if s.threads[t].todo[0].Submit? && !s.failed then s.queue + [t] else s.queue)
  }

  // ------------------------------------------------------------ steps of the writer

  ghost predicate Free(s: State, lock: nat) {
    forall u :: 0 <= u < |s.threads| ==> lock !in s.threads[u].held
  }

  function Batch(w: Writer): seq<nat> {
    if w.Idle? || w.Stopped? then [] else w.batch
  }

  function Completed(threads: seq<Thread>, t: nat): seq<Thread>
    requires t < |threads|
  {
    threads[t := threads[t].(pending := false)]
  }

  function DoComplete(s: State): State
    requires Batch(s.writer) != [] && Batch(s.writer)[0] < |s.threads|
  {
    var b := Batch(s.writer);
    s.(threads := Completed(s.threads, b[0]),
       writer := if s.writer.FailCompleting? then (if |b| == 1 then Stopped else FailCompleting(b[1..]))
                 else (if |b| == 1 then Idle else Completing(b[1..])))
  }

  ghost predicate Enabled(s: State, e: Event) {
    match e
    case Start(t, op, _) => t < |s.threads| && s.threads[t].todo == []
    case Run(t) => CanRun(s, t)
    case Throw(t) => t < |s.threads| && s.threads[t].todo != [] && !s.threads[t].pending
    case TakeBatch(n) => s.writer.Idle? && 1 <= n <= |s.queue| && Free(s, QUEUE)
    case LockIo => s.writer.Taken? && Free(s, IO)
    case UnlockIo(_) => s.writer.Writing?
    case Drain => s.writer.Failing? && Free(s, QUEUE)
    case Complete =>
      (s.writer.Completing? || s.writer.FailCompleting?) && s.writer.batch != [] && s.writer.batch[0] < |s.threads|
  }

  ghost function Step(s: State, e: Event): State
    requires Enabled(s, e)
  {
    match e
    case Start(t, op, route) => s.(threads := s.threads[t := Thread(map[], Program(op, route), false)])
    case Run(t) => DoRun(s, t)
    case Throw(t) => s.(threads := s.threads[t := Thread(map[], [], false)])
    case TakeBatch(n) => s.(writer := Taken(s.queue[..n]), queue := s.queue[n..])
    case LockIo => s.(writer := Writing(s.writer.batch))
    case UnlockIo(ok) => s.(writer := if ok then Completing(s.writer.batch) else Failing(s.writer.batch))
    case Drain => s.(writer := FailCompleting(s.writer.batch + s.queue), queue := [], failed := true)
    case Complete => DoComplete(s)
  }

  // ------------------------------------------------------------ the invariant

  ghost predicate ThreadsOrdered(s: State) {
    forall t :: 0 <= t < |s.threads| ==> Ordered(s.threads[t].held, s.threads[t].todo, s.threads[t].pending)
  }

  /** Requests known to the log, each once. */
  function Requests(s: State): seq<nat> {
    Batch(s.writer) + s.queue
  }

  ghost predicate RequestsOk(s: State) {
    && (forall i, j :: 0 <= i < j < |Requests(s)| ==> Requests(s)[i] != Requests(s)[j])
    && (forall i :: 0 <= i < |Requests(s)| ==> Requests(s)[i] < |s.threads| && s.threads[Requests(s)[i]].pending)
    && (forall t :: 0 <= t < |s.threads| && s.threads[t].pending ==> t in Requests(s))
  }

  predicate WriterOk(s: State) {
    && (!s.writer.Idle? && !s.writer.Stopped? ==> s.writer.batch != [])
    && (s.writer.Stopped? || s.writer.FailCompleting? ==> s.failed)
    && (s.failed ==> (s.writer.Stopped? || s.writer.FailCompleting?) && s.queue == [])
  }

  ghost predicate Inv(s: State) {
    ThreadsOrdered(s) && RequestsOk(s) && WriterOk(s)
  }

  lemma RunThread(s: State, t: nat)
    requires Inv(s) && CanRun(s, t)
    ensures ThreadsOrdered(DoRun(s, t))
    ensures s.threads[t].todo[0].Submit? ==> !s.threads[t].pending
  {
    var th := s.threads[t];
    assert Ordered(th.held, th.todo, th.pending);
    if th.todo[0].Submit? {
      OrderedCompleted(th.held, th.todo[1..]);
    }
  }

  lemma RunRequests(s: State, t: nat)
    requires Inv(s) && CanRun(s, t) && (s.threads[t].todo[0].Submit? ==> !s.threads[t].pending)
    ensures RequestsOk(DoRun(s, t)) && WriterOk(DoRun(s, t))
  {
    hide Ordered;
    var m := DoRun(s, t);
    if s.threads[t].todo[0].Submit? && !s.failed {
      assert Requests(m) == Requests(s) + [t];
      assert t !in Requests(s);
      assert forall i :: 0 <= i < |Requests(s)| ==> Requests(s)[i] in Requests(s);
    } else {
      assert Requests(m) == Requests(s);
    }
  }

  lemma CompleteInv(s: State)
    requires Inv(s) && Enabled(s, Complete)
    ensures Inv(DoComplete(s))
  {
    hide Ordered, Requests;
    var m := DoComplete(s);
    var b := s.writer.batch;
    CompletedRequests(s);
    var th := s.threads[b[0]];
    OrderedCompleted(th.held, th.todo);
    OneLess(s, m);
  }

  lemma CompletedRequests(s: State)
    requires Enabled(s, Complete)
    ensures Requests(s) != [] && Requests(s)[0] == s.writer.batch[0]
    ensures Requests(DoComplete(s)) == Requests(s)[1..]
  {
  }

  /** The first request is done and no longer pending; the rest are as they were. */
  lemma OneLess(s: State, m: State)
    requires RequestsOk(s) && Requests(s) != [] && Requests(m) == Requests(s)[1..]
    requires Requests(s)[0] < |s.threads| && m.threads == Completed(s.threads, Requests(s)[0])
    ensures RequestsOk(m)
  {
    hide Requests;
    var first := Requests(s)[0];
    assert forall i :: 0 <= i < |Requests(m)| ==> Requests(m)[i] == Requests(s)[i + 1];
    forall t | 0 <= t < |m.threads| && m.threads[t].pending
      ensures t in Requests(m)
    {
      assert t in Requests(s) && t != first;
      var i :| 0 <= i < |Requests(s)| && Requests(s)[i] == t;
      assert Requests(m)[i - 1] == t;
    }
  }

  lemma IdleThread(s: State, t: nat)
    requires Inv(s) && t < |s.threads| && s.threads[t].todo == []
    ensures !s.threads[t].pending
  {
  }

  /** A thread with no request is replaced by another with none, in order. */
  lemma ReplaceInv(s: State, t: nat, todo: seq<Instr>)
    requires Inv(s) && t < |s.threads| && !s.threads[t].pending && Ordered(map[], todo, false)
    ensures Inv(s.(threads := s.threads[t := Thread(map[], todo, false)]))
  {
    hide Ordered;
    var m := s.(threads := s.threads[t := Thread(map[], todo, false)]);
    assert Requests(m) == Requests(s);
    assert forall i :: 0 <= i < |Requests(s)| ==> Requests(s)[i] != t;
  }

  lemma WriterInv(s: State, e: Event)
    requires Inv(s) && Enabled(s, e) && (e.TakeBatch? || e.LockIo? || e.UnlockIo? || e.Drain?)
    ensures Inv(Step(s, e))
  {
    hide Ordered, Free, Requests, Program, DoRun, DoComplete, CanRun;
    SameRequests(s, e);
  }

  /** The writer moves requests from the queue to its batch and loses none. */
  lemma SameRequests(s: State, e: Event)
    requires WriterOk(s) && Enabled(s, e) && (e.TakeBatch? || e.LockIo? || e.UnlockIo? || e.Drain?)
    ensures Requests(Step(s, e)) == Requests(s)
  {
    hide Free, Program, DoRun, DoComplete, CanRun;
    if e.TakeBatch? { assert s.queue[..e.n] + s.queue[e.n..] == s.queue; }
  }

  lemma StepInv(s: State, e: Event)
    requires Inv(s) && Enabled(s, e)
    ensures Inv(Step(s, e))
  {
    hide Inv, Ordered, CanRun, Free, Program, DoRun, DoComplete;
    match e
    case Start(t, op, route) =>
      IdleThread(s, t);
      OperationsAreOrdered(op, route);
      ReplaceInv(s, t, Program(op, route));
    case Run(t) => RunInv(s, t);
    case Throw(t) =>
      OrderedEnd();
      ReplaceInv(s, t, []);
    case Complete => CompleteInv(s);
    case _ => WriterInv(s, e);
  }

  lemma RunInv(s: State, t: nat)
    requires Inv(s) && CanRun(s, t)
    ensures Inv(DoRun(s, t))
  {
    hide Ordered, DoRun;
    RunThread(s, t);
    RunRequests(s, t);
  }

  // ------------------------------------------------------------ no state is stuck

  /** Progress is never owed to a new operation or to an exception. */
  predicate Moves(e: Event) {
    !e.Start? && !e.Throw?
  }

  /** How far from the innermost lock a thread's next operation is. */
  function Level(th: Thread): nat {
    if th.todo == [] then 0
    else if th.todo[0].Await? then 4
    else if th.todo[0].Acquire? && th.todo[0].lock <= IO then 70 - th.todo[0].lock
    else 0
  }

  /** Whoever holds a lock is unfinished, and what it waits for is further in. */
  lemma HolderIsFurther(s: State, u: nat, lock: nat)
    requires Inv(s) && u < |s.threads| && lock in s.threads[u].held && lock <= IO
    ensures s.threads[u].todo != [] && Level(s.threads[u]) < 70 - lock
    ensures lock >= CHECKPOINT ==> !s.threads[u].todo[0].Await?
  {
  }

  /** An unfinished thread can move, or something it waits for can. */
  lemma ThreadMoves(s: State, t: nat) returns (e: Event)
    requires Inv(s) && t < |s.threads| && s.threads[t].todo != []
    ensures Moves(e) && Enabled(s, e)
    decreases Level(s.threads[t])
  {
    hide Inv, Ordered, DoRun;
    var i := s.threads[t].todo[0];
    if CanRun(s, t) {
      return Run(t);
    } else if i.Await? {
      PendingIsRequest(s, t);
      e := WriterMoves(s);
    } else {
      NextInRange(s, t);
      if !Grantable(s, t, i.lock, i.mode) {
        e := BlockerMoves(s, t, i.lock, i.mode);
      } else {
        var u :| 0 <= u < |s.threads| && Wants(s.threads[u], i.lock, Exclusive);
        if CanRun(s, u) { return Run(u); }
        e := BlockerMoves(s, u, i.lock, Exclusive);
      }
    }
  }

  /** Whatever keeps a lock from being granted can move. */
  lemma BlockerMoves(s: State, t: nat, lock: nat, mode: Mode) returns (e: Event)
    requires Inv(s) && t < |s.threads| && lock <= IO && !Grantable(s, t, lock, mode)
    ensures Moves(e) && Enabled(s, e)
    decreases 70 - lock, 0
  {
    hide Inv, Ordered, DoRun;
    if lock == IO && s.writer.Writing? { return UnlockIo(true); }
    var u :| 0 <= u < |s.threads| && u != t && lock in s.threads[u].held;
    HolderIsFurther(s, u, lock);
    e := ThreadMoves(s, u);
  }

  lemma PendingIsRequest(s: State, t: nat)
    requires Inv(s) && t < |s.threads| && s.threads[t].pending
    ensures Requests(s) != []
  {
    hide Ordered;
    assert t in Requests(s);
  }

  lemma NextInRange(s: State, t: nat)
    requires Inv(s) && t < |s.threads| && s.threads[t].todo != [] && s.threads[t].todo[0].Acquire?
    ensures s.threads[t].todo[0].lock <= IO
  {
  }

  /** While a request is in the queue or in the batch, the writer or a holder of a lock it needs can move. */
  lemma WriterMoves(s: State) returns (e: Event)
    requires Inv(s) && Requests(s) != []
    ensures Moves(e) && Enabled(s, e)
    decreases 3, 1
  {
    hide Ordered, DoRun, ThreadsOrdered, Free;
    match s.writer
    case Idle => if Free(s, QUEUE) { e := TakeBatch(1); } else { e := LeafHolderMoves(s, QUEUE); }
    case Taken(_) => if Free(s, IO) { e := LockIo; } else { e := LeafHolderMoves(s, IO); }
    case Writing(_) => e := UnlockIo(true);
    case Failing(_) => if Free(s, QUEUE) { e := Drain; } else { e := LeafHolderMoves(s, QUEUE); }
    case Completing(b) => assert Requests(s)[0] == b[0]; e := Complete;
    case FailCompleting(b) => assert Requests(s)[0] == b[0]; e := Complete;
  }

  lemma LeafHolderMoves(s: State, lock: nat) returns (e: Event)
    requires Inv(s) && QUEUE <= lock <= IO && !Free(s, lock)
    ensures Moves(e) && Enabled(s, e)
    decreases 3, 0
  {
    hide Inv, Ordered, DoRun;
    var u :| 0 <= u < |s.threads| && lock in s.threads[u].held;
    HolderIsFurther(s, u, lock);
    e := ThreadMoves(s, u);
  }

  // ------------------------------------------------------------ runs

  ghost predicate Initial(s: State) {
    && (forall t :: 0 <= t < |s.threads| ==> s.threads[t] == Thread(map[], [], false))
    && s.queue == [] && s.writer == Idle && !s.failed
  }

  ghost predicate Runs(s: State, events: seq<Event>)
    decreases events
  {
    events == [] || (Enabled(s, events[0]) && Runs(Step(s, events[0]), events[1..]))
  }

  ghost function AfterRun(s: State, events: seq<Event>): State
    requires Runs(s, events)
    decreases events
  {
    if events == [] then s else AfterRun(Step(s, events[0]), events[1..])
  }

  lemma {:induction false} RunsKeepInv(s: State, events: seq<Event>)
    requires Inv(s) && Runs(s, events)
    ensures Inv(AfterRun(s, events))
    decreases events
  {
    hide Inv, Enabled, Step;
    if events != [] {
      StepInv(s, events[0]);
      RunsKeepInv(Step(s, events[0]), events[1..]);
    }
  }

  /**
   * In every state that any number of threads can reach through any interleaving of
   * operations, exceptions and log failures: if an operation is unfinished, some thread or
   * the writer can take a step.
   */
  lemma NeverStuck(start: State, events: seq<Event>, t: nat)
    requires Initial(start) && Runs(start, events)
    requires t < |AfterRun(start, events).threads| && AfterRun(start, events).threads[t].todo != []
    ensures exists e :: Moves(e) && Enabled(AfterRun(start, events), e)
  {
    hide Enabled, Step, Runs, AfterRun;
    OrderedEnd();
    assert Inv(start);
    RunsKeepInv(start, events);
    var e := ThreadMoves(AfterRun(start, events), t);
  }

  function Work(threads: seq<Thread>): nat {
    if threads == [] then 0 else |threads[0].todo| + Work(threads[1..])
  }

  lemma {:induction false} WorkUpdate(threads: seq<Thread>, t: nat, th: Thread)
    requires t < |threads|
    ensures Work(threads[t := th]) == Work(threads) - |threads[t].todo| + |th.todo|
    decreases threads
  {
    var after := threads[t := th];
    if t == 0 {
      assert after[1..] == threads[1..];
    } else {
      assert after[1..] == threads[1..][t - 1 := th];
      WorkUpdate(threads[1..], t - 1, th);
    }
  }

  function PhaseWeight(w: Writer): nat {
    match w
    case Idle => 6
    case Taken(_) => 5
    case Writing(_) => 4
    case Failing(_) => 3
    case FailCompleting(_) => 2
    case Completing(_) => 1
    case Stopped => 0
  }

  function Measure(s: State): nat {
    8 * Work(s.threads) + 7 * |Requests(s)| + PhaseWeight(s.writer)
  }

  /** Every step but the start of a new operation uses up some of the work that is left. */
  lemma StepUsesWork(s: State, e: Event)
    requires Inv(s) && Enabled(s, e) && !e.Start?
    ensures Measure(Step(s, e)) < Measure(s)
  {
    hide Inv, Measure;
    match e
    case Run(t) => RunUsesWork(s, t);
    case Throw(t) => ThrowUsesWork(s, t);
    case _ => WriterUsesWork(s, e);
  }

  lemma RunUsesWork(s: State, t: nat)
    requires Enabled(s, Run(t))
    ensures Measure(Step(s, Run(t))) < Measure(s)
  {
    hide CanAcquire, Work;
    WorkUpdate(s.threads, t, Advance(s.threads[t], s.failed));
  }

  lemma ThrowUsesWork(s: State, t: nat)
    requires Enabled(s, Throw(t))
    ensures Measure(Step(s, Throw(t))) < Measure(s)
  {
    hide CanAcquire, Work;
    WorkUpdate(s.threads, t, Thread(map[], [], false));
  }

  lemma WriterUsesWork(s: State, e: Event)
    requires Inv(s) && Enabled(s, e) && !e.Start? && !e.Run? && !e.Throw?
    ensures Measure(Step(s, e)) < Measure(s)
  {
    hide Ordered, Free, CanAcquire, ThreadsOrdered, RequestsOk, Work;
    if e.Complete? {
      var t := s.writer.batch[0];
      WorkUpdate(s.threads, t, s.threads[t].(pending := false));
    }
  }

  /** With no new operations a run is no longer than the work it starts with, whatever the scheduler does. */
  lemma {:induction false} RunsEnd(s: State, events: seq<Event>)
    requires Inv(s) && Runs(s, events) && forall i :: 0 <= i < |events| ==> !events[i].Start?
    ensures |events| <= Measure(s)
    decreases events
  {
    hide Inv, Enabled, Step, Measure;
    if events != [] {
      StepInv(s, events[0]);
      StepUsesWork(s, events[0]);
      RunsEnd(Step(s, events[0]), events[1..]);
    }
  }

  /** And where it can go no further, every operation has finished and every request has completed. */
  lemma QuietIsFinished(s: State)
    requires Inv(s) && forall e :: Moves(e) ==> !Enabled(s, e)
    ensures Requests(s) == [] && forall t :: 0 <= t < |s.threads| ==> s.threads[t] == Thread(map[], [], false)
  {
    hide Enabled;
    if Requests(s) != [] { var e := WriterMoves(s); }
    forall t | 0 <= t < |s.threads|
      ensures s.threads[t] == Thread(map[], [], false)
    {
      if s.threads[t].todo != [] { var e := ThreadMoves(s, t); }
    }
  }

  // ------------------------------------------------------------ the locks exclude

  /** A lock held exclusively is held by nobody else; the I/O lock is the writer's while it writes. */
  ghost predicate Excludes(s: State) {
    && (forall t, u, l ::
          (0 <= t < |s.threads| && 0 <= u < |s.threads| && t != u && l in s.threads[t].held && l in s.threads[u].held)
          ==> s.threads[t].held[l] == Shared)
    && (s.writer.Writing? ==> Free(s, IO))
  }

  lemma StepExcludes(s: State, e: Event)
    requires Excludes(s) && Enabled(s, e)
    ensures Excludes(Step(s, e))
  {
    hide Program, Ordered;
    if e.Run? { RunExcludes(s, e.t); }
  }

  lemma RunExcludes(s: State, t: nat)
    requires Excludes(s) && CanRun(s, t)
    ensures Excludes(DoRun(s, t))
  {
    var m := DoRun(s, t);
    assert forall u :: 0 <= u < |s.threads| && u != t ==> m.threads[u] == s.threads[u];
  }

  lemma {:induction false} LocksExclude(s: State, events: seq<Event>)
    requires (Initial(s) || Excludes(s)) && Runs(s, events)
    ensures Excludes(AfterRun(s, events))
    decreases events
  {
    hide Enabled, Step;
    if events != [] {
      StepExcludes(s, events[0]);
      LocksExclude(Step(s, events[0]), events[1..]);
    }
  }
}
