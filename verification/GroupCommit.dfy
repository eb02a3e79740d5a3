/**
 * The log under concurrency: requests are queued, an ordered writer takes them in
 * batches, writes, syncs and acknowledges. Every action of a submitter or of the
 * writer is one event; the device may stop after any byte and fail at any point.
 * The policies without a writer thread are the special case of a batch of one.
 */
module GroupCommit {
  import opened Bytes
  import opened Record
  import opened Replay
  import opened ReplayLaws
  import opened Wal

  /** One append call: a unique number, the calling thread, and the operation. */
  datatype Request = Request(id: nat, tid: nat, op: Op)

  function Ops(rs: seq<Request>): (ops: seq<Op>)
    ensures |ops| == |rs| && forall i :: 0 <= i < |rs| ==> ops[i] == rs[i].op
  {
    seq(|rs|, i requires 0 <= i < |rs| => rs[i].op)
  }

  lemma OpsAppend(a: seq<Request>, b: seq<Request>)
    ensures Ops(a + b) == Ops(a) + Ops(b)
  {
  }

  lemma OpsTake(rs: seq<Request>, n: nat)
    requires n <= |rs|
    ensures Ops(rs[..n]) == Ops(rs)[..n]
  {
  }

  // ------------------------------------------------------------ forming a batch

  const MAX_BATCH_BYTES: nat := MAX_RECORD + 8

  function FrameBytes(rs: seq<Request>): nat {
    Size(Ops(rs))
  }

  /**
   * `n` requests are what the writer takes: at least one, at most `maxBatch`, within the
   * byte bound, and as many as those limits allow.
   */
  predicate IsBatch(queue: seq<Request>, maxBatch: nat, n: nat) {
    && 1 <= n <= |queue| && n <= maxBatch && FrameBytes(queue[..n]) <= MAX_BATCH_BYTES
    && (n < |queue| && n < maxBatch ==> FrameBytes(queue[..n + 1]) > MAX_BATCH_BYTES)
  }

  lemma FrameBytesOneMore(queue: seq<Request>, n: nat)
    requires n < |queue|
    ensures FrameBytes(queue[..n + 1]) == FrameBytes(queue[..n]) + FrameSize(queue[n].op)
  {
    hide FrameSize;
    assert Ops(queue[..n + 1]) == Ops(queue[..n]) + [queue[n].op];
    SizeAppend(Ops(queue[..n]), [queue[n].op]);
    assert Size([queue[n].op]) == FrameSize(queue[n].op) + Size([]);
  }

  lemma FrameSizeBounded(op: Op)
    requires Bounded(op)
    ensures FrameSize(op) <= MAX_BATCH_BYTES
  {
  }

  /** The writer's loop over the queue. A lone record always fits, so a batch is never empty. */
  method FormBatch(queue: seq<Request>, maxBatch: nat) returns (n: nat)
    requires queue != [] && maxBatch > 0 && forall i :: 0 <= i < |queue| ==> Bounded(queue[i].op)
    ensures IsBatch(queue, maxBatch, n)
    ensures 1 <= n <= |queue| && n <= maxBatch && Size(Ops(queue[..n])) <= 67108872
    ensures n == |queue| || n == maxBatch || Size(Ops(queue[..n + 1])) > 67108872
  {
    hide FrameSize, Bounded, Size;
    n := 0;
    var bytes := 0;
    NoBytes(queue);
    while n < |queue| && n < maxBatch
      invariant 0 <= n <= |queue| && n <= maxBatch
      invariant bytes == FrameBytes(queue[..n]) <= MAX_BATCH_BYTES
    {
      var next := FrameSize(queue[n].op);
      FrameBytesOneMore(queue, n);
      FrameSizeBounded(queue[n].op);
      if n > 0 && bytes + next > MAX_BATCH_BYTES { break; }
      bytes, n := bytes + next, n + 1;
    }
  }

  /** There is only one such number: the limits leave the writer no choice. */
  lemma BatchIsUnique(queue: seq<Request>, maxBatch: nat, m: nat, n: nat)
    requires IsBatch(queue, maxBatch, m) && IsBatch(queue, maxBatch, n)
    ensures m == n
  {
    hide Size;
    if m < n { FewerBytes(queue, m + 1, n); }
    if n < m { FewerBytes(queue, n + 1, m); }
  }

  lemma FewerBytes(queue: seq<Request>, i: nat, j: nat)
    requires i <= j <= |queue|
    ensures FrameBytes(queue[..i]) <= FrameBytes(queue[..j])
  {
    hide Size;
    assert queue[..j] == queue[..i] + queue[i..j];
    OpsAppend(queue[..i], queue[i..j]);
    SizeAppend(Ops(queue[..i]), Ops(queue[i..j]));
  }

  lemma NoBytes(queue: seq<Request>)
    ensures FrameBytes(queue[..0]) == 0
  {
    assert queue[..0] == [];
    SizeNone();
  }

  // ------------------------------------------------------------ the machine

  datatype Phase =
    | Idle                        // the writer is waiting for work
    | Taken                       // a batch has left the queue
    | Writing(rest: seq<byte>)    // its frames are numbered; `rest` is still to be written
    | Synced                      // all of it is on stable storage
    | Acking                      // requests are being completed without error
    | Failing                     // requests are being completed with the error

  datatype Log = Log(
    policy: Policy,
    maxBatch: nat,
    generation: nat,
    file: seq<byte>,
    synced: nat,
    submitted: seq<Request>,      // accepted requests of this generation, in the order they were accepted
    records: seq<Request>,        // requests whose frames have been numbered, in file order
    queue: seq<Request>,
    batch: seq<Request>,
    phase: Phase,
    failed: bool,
    found: nat,                   // how many of the records were already in the file when it was opened
    acked: nat,                   // those, and how many requests completed without error since
    outcomes: map<nat, bool>      // completed requests: true without error, false with it
  )

  datatype Event =
    | Submit(r: Request)
    | Reject(r: Request)
    | Take(n: nat)
    | Finalize
    | Write(n: nat)
    | Flush
    | Ack
    | Fail
    | FailAck

  /** The identity of a call is new. */
  predicate Fresh(l: Log, r: Request) {
    r.id !in l.outcomes && forall i :: 0 <= i < |l.submitted| ==> l.submitted[i].id != r.id
  }

  predicate Enabled(l: Log, e: Event) {
    match e
    case Submit(r) =>
      // The failure check and the push are one critical section of the queue lock; without
      // a writer thread the whole call runs under the I/O lock.
      !l.failed && Bounded(r.op) && Fresh(l, r) && (l.policy != GroupCommit ==> l.phase.Idle? && l.queue == [])
    case Reject(r) => l.failed && Fresh(l, r)
    case Take(n) => l.phase.Idle? && !l.failed && IsBatch(l.queue, l.maxBatch, n)
    case Finalize => l.phase.Taken? && |l.records| + |l.batch| < MAX_U64
    case Write(n) => l.phase.Writing? && 0 < n <= |l.phase.rest| && |l.file| + n <= MAX_STREAM_OFFSET
    case Flush => l.phase.Synced? || (l.phase.Writing? && l.phase.rest == [])
    case Ack => l.phase.Acking? && l.batch != []
    // A write or sync error, a fault point that throws, or exhausted sequences.
    case Fail => l.phase.Taken? || l.phase.Writing? || l.phase.Synced?
    case FailAck => l.phase.Failing? && l.batch != []
  }

  function Step(l: Log, e: Event): Log
    requires Enabled(l, e)
  {
    match e
    case Submit(r) => l.(submitted := l.submitted + [r], queue := l.queue + [r])
    case Reject(r) => l.(outcomes := l.outcomes[r.id := false])
    case Take(n) => l.(batch := l.queue[..n], queue := l.queue[n..], phase := Taken)
    case Finalize =>
      l.(records := l.records + l.batch,
         phase := Writing(Emission(l.file == [], l.generation, |l.records| + 1, Ops(l.batch))))
    case Write(n) => l.(file := l.file + l.phase.rest[..n], phase := Writing(l.phase.rest[n..]))
    case Flush =>
      if l.phase.Synced? || l.policy == Buffered then l.(phase := Acking)
      else l.(synced := |l.file|, phase := Synced)
    case Ack =>
      l.(outcomes := l.outcomes[l.batch[0].id := true], acked := l.acked + 1, batch := l.batch[1..],
         phase := if |l.batch| == 1 then Idle else Acking)
    case Fail => l.(failed := true, batch := l.batch + l.queue, queue := [], phase := Failing)
    case FailAck => l.(outcomes := l.outcomes[l.batch[0].id := false], batch := l.batch[1..])
  }

  // ------------------------------------------------------------ the invariant

  /** How many accepted requests have completed, with or without error. */
  function Completed(l: Log): int {
    if l.failed then |l.submitted| - |l.batch| else l.acked
  }

  /** Requests move from the queue through the batch into the file in the order they were accepted. */
  predicate Pipeline(l: Log) {
    && l.found <= l.acked <= |l.records| <= |l.submitted| && l.records == l.submitted[..|l.records|]
    && (!l.failed ==> !l.phase.Failing?)
    && (l.failed ==> l.phase.Failing? && l.queue == [] && |l.batch| <= |l.submitted| - l.acked
                     && l.batch == l.submitted[|l.submitted| - |l.batch|..])
    && (l.phase.Idle? || l.phase.Taken? ==>
          l.acked == |l.records| && l.submitted[|l.records|..] == l.batch + l.queue
            && (l.phase.Idle? ==> l.batch == []))
    && (l.phase.Writing? || l.phase.Synced? || l.phase.Acking? ==>
          l.batch == l.records[l.acked..] && l.submitted[|l.records|..] == l.queue)
    && (l.phase.Taken? || l.phase.Writing? || l.phase.Synced? || l.phase.Acking? ==> l.batch != [])
  }

  predicate Distinct(rs: seq<Request>) {
    forall i, j :: 0 <= i < j < |rs| ==> rs[i].id != rs[j].id
  }

  /** A request completes without error, with error, or not yet, by its place in the order alone. */
  predicate Completions(l: Log) {
    && Distinct(l.submitted) && l.acked <= Completed(l) <= |l.submitted|
    && (forall i :: 0 <= i < |l.submitted| ==>
          if i < Completed(l) then l.submitted[i].id in l.outcomes && l.outcomes[l.submitted[i].id] == (i < l.acked)
          else l.submitted[i].id !in l.outcomes)
  }

  predicate AcceptedBounded(l: Log) {
    && GenerationFits(l.generation) && |l.records| < MAX_U64
    && (forall i :: 0 <= i < |l.submitted| ==> Bounded(l.submitted[i].op))
    && l.maxBatch > 0
  }

  /** The file is the log of the numbered requests, as far as it has been written. */
  predicate Contents(l: Log) {
    var log := LogBytes(l.generation, Ops(l.records));
    && (l.phase.Idle? || l.phase.Taken? ==> l.file == log || (l.file == [] && l.records == []))
    && (l.phase.Writing? ==> l.file + l.phase.rest == log)
    && (l.phase.Synced? || l.phase.Acking? ==> l.file == log)
    && (l.phase.Failing? ==> l.file <= log)
  }

  /** Byte offset just after the first `n` numbered requests. */
  function EndOf(l: Log, n: nat): nat
    requires n <= |l.records|
  {
    BoundaryOf(Ops(l.records[..n]))
  }

  /**
   * Acknowledged frames are wholly in the file. If the policy syncs, the first acknowledgement
   * after an open has everything before it synced; what was found in the file may not be.
   */
  predicate Durable(l: Log) {
    && l.synced <= |l.file| && l.found <= l.acked <= |l.records|
    && (l.acked > 0 ==> EndOf(l, l.acked) <= |l.file|)
    && (l.acked > l.found && l.policy != Buffered ==> EndOf(l, l.acked) <= l.synced)
    && (l.phase.Synced? || l.phase.Acking? ==> l.policy != Buffered ==> l.synced == |l.file|)
  }

  predicate Inv(l: Log) {
    Pipeline(l) && Completions(l) && AcceptedBounded(l) && Contents(l) && Durable(l)
  }

  lemma StepPipeline(l: Log, e: Event)
    requires Enabled(l, e) && Pipeline(l)
    ensures Pipeline(Step(l, e))
  {
    hide *;
    if e.Submit? || e.Take? || e.Finalize? {
      PipelineForward(l, e);
    } else if e.Ack? || e.Fail? || e.FailAck? {
      PipelineComplete(l, e);
    } else {
      PipelineOutput(l, e);
    }
  }

  lemma PipelineOutput(l: Log, e: Event)
    requires (e.Reject? || e.Write? || e.Flush?) && Enabled(l, e) && Pipeline(l)
    ensures Pipeline(Step(l, e))
  {
    hide Fresh;
  }

  lemma PipelineForward(l: Log, e: Event)
    requires (e.Submit? || e.Take? || e.Finalize?) && Enabled(l, e) && Pipeline(l)
    ensures Pipeline(Step(l, e))
  {
    hide Emission, IsBatch, Fresh, Bounded;
    var m := Step(l, e);
    if e.Submit? {
      assert m.submitted[|l.records|..] == l.submitted[|l.records|..] + [e.r];
      assert (l.batch + l.queue) + [e.r] == l.batch + (l.queue + [e.r]);
    } else if e.Take? {
      TakeSplits(l, e.n);
    } else {
      assert l.submitted == l.submitted[..|l.records|] + (l.batch + l.queue);
      assert m.submitted[|m.records|..] == l.queue;
      assert m.submitted[..|m.records|] == m.records;
      assert m.records[l.acked..] == l.batch;
    }
  }

  lemma PipelineComplete(l: Log, e: Event)
    requires (e.Ack? || e.Fail? || e.FailAck?) && Enabled(l, e) && Pipeline(l)
    ensures Pipeline(Step(l, e))
  {
    hide Emission, IsBatch, Fresh, Bounded;
    if e.Fail? {
      FailDrains(l);
    } else if e.Ack? {
      PipelineAck(l);
    }
  }

  lemma PipelineAck(l: Log)
    requires Enabled(l, Ack) && Pipeline(l)
    ensures Pipeline(Step(l, Ack))
  {
    hide Emission;
    if |l.batch| == 1 {
      assert l.acked + 1 == |l.records|;
      assert [] + l.queue == l.queue;
    }
  }

  lemma TakeSplits(l: Log, n: nat)
    requires Enabled(l, Take(n))
    ensures 0 < n <= |l.queue| && l.queue == l.queue[..n] + l.queue[n..]
  {
    hide FrameBytes;
  }

  /** Everything not yet acknowledged is in the batch once a failure has drained the queue. */
  lemma FailDrains(l: Log)
    requires Enabled(l, Fail) && Pipeline(l)
    ensures l.batch + l.queue == l.submitted[l.acked..]
  {
    hide Bounded;
    if l.phase.Taken? {
      assert l.submitted[|l.records|..] == l.batch + l.queue;
    } else {
      assert l.submitted[l.acked..] == l.submitted[..|l.records|][l.acked..] + l.submitted[|l.records|..];
    }
  }

  lemma StepCompletions(l: Log, e: Event)
    requires Enabled(l, e) && Pipeline(l) && Completions(l)
    ensures Completions(Step(l, e))
  {
    hide *;
    if e.Submit? {
      SubmitCompletions(l, e.r);
    } else if e.Fail? {
      FailCompletions(l);
    } else if e.Ack? || e.FailAck? {
      CompleteNext(l, e);
    } else {
      WriterCompletions(l, e);
    }
  }

  lemma FailCompletions(l: Log)
    requires Enabled(l, Fail) && Pipeline(l) && Completions(l)
    ensures Completions(Step(l, Fail))
  {
    hide Distinct;
    FailDrains(l);
  }

  lemma WriterCompletions(l: Log, e: Event)
    requires (e.Reject? || e.Take? || e.Finalize? || e.Write? || e.Flush?) && Enabled(l, e) && Completions(l)
    ensures Completions(Step(l, e))
  {
    hide Emission, IsBatch, Distinct;
  }

  lemma SubmitCompletions(l: Log, r: Request)
    requires Enabled(l, Submit(r)) && Pipeline(l) && Completions(l)
    ensures Completions(Step(l, Submit(r)))
  {
    hide Bounded;
    assert forall i :: 0 <= i < |l.submitted| ==> (l.submitted + [r])[i] == l.submitted[i];
  }

  /** Completing the head of the batch completes the next request in acceptance order. */
  lemma CompleteNext(l: Log, e: Event)
    requires (e.Ack? || e.FailAck?) && Enabled(l, e) && Pipeline(l) && Completions(l)
    ensures Completions(Step(l, e))
  {
    hide Bounded;
    var n := Completed(l);
    assert l.batch[0] == l.submitted[n];
    assert forall i :: 0 <= i < |l.submitted| && i != n ==> l.submitted[i].id != l.submitted[n].id;
  }

  lemma StepBounded(l: Log, e: Event)
    requires Enabled(l, e) && AcceptedBounded(l)
    ensures AcceptedBounded(Step(l, e))
  {
    hide Emission, IsBatch, Bounded, Fresh;
  }

  lemma StepContents(l: Log, e: Event)
    requires Enabled(l, e) && Pipeline(l) && Contents(l)
    ensures Contents(Step(l, e))
  {
    hide Emission, LogBytes, IsBatch, Bounded, Fresh, Ops;
    if e.Finalize? {
      FinalizeContents(l);
    } else if e.Write? || e.Flush? {
      OutputContents(l, e);
    } else if e.Fail? && l.phase.Writing? {
      assert l.file <= l.file + l.phase.rest;
    }
  }

  lemma FinalizeContents(l: Log)
    requires Enabled(l, Finalize) && Pipeline(l) && Contents(l)
    ensures Contents(Step(l, Finalize))
  {
    hide Emission, LogBytes, IsBatch, Bounded, Fresh;
    OpsAppend(l.records, l.batch);
    EmissionExtendsFile(l);
  }

  lemma OutputContents(l: Log, e: Event)
    requires (e.Write? || e.Flush?) && Enabled(l, e) && Contents(l)
    ensures Contents(Step(l, e))
  {
    hide Emission, LogBytes, IsBatch, Bounded, Fresh, Ops;
    if e.Write? {
      assert (l.file + l.phase.rest[..e.n]) + l.phase.rest[e.n..] == l.file + l.phase.rest;
    } else if l.phase.Writing? {
      assert l.file + [] == l.file;
    }
  }

  lemma EmissionExtendsFile(l: Log)
    requires l.file == LogBytes(l.generation, Ops(l.records)) || (l.file == [] && l.records == [])
    ensures var ops := Ops(l.batch);
            l.file + Emission(l.file == [], l.generation, |l.records| + 1, ops)
            == LogBytes(l.generation, Ops(l.records) + ops)
  {
    hide Header, Frames;
    var rs, ops := Ops(l.records), Ops(l.batch);
    LogExtends(l.generation, rs, ops);
    if l.file == [] {
      assert rs == [] && rs + ops == ops;
      assert [] + Emission(true, l.generation, 1, ops) == LogBytes(l.generation, ops);
    } else {
      assert [] + Frames(ops, |rs| + 1) == Frames(ops, |rs| + 1);
    }
  }

  /** The end of the last numbered request is the length of the whole log. */
  lemma EndOfAll(l: Log)
    ensures EndOf(l, |l.records|) == |LogBytes(l.generation, Ops(l.records))|
  {
    hide LogBytes;
    assert l.records[..|l.records|] == l.records;
    LogParts(l.generation, Ops(l.records), 0);
  }

  lemma EndOfMonotone(l: Log, i: nat, j: nat)
    requires i <= j <= |l.records|
    ensures EndOf(l, i) <= EndOf(l, j)
  {
    hide Size;
    OpsTake(l.records, i);
    OpsTake(l.records, j);
    SizeMonotone(Ops(l.records), i, j);
  }

  lemma StepDurable(l: Log, e: Event)
    requires Enabled(l, e) && Pipeline(l) && Contents(l) && Durable(l)
    ensures Durable(Step(l, e))
  {
    hide *;
    if e.Ack? {
      AckDurable(l);
    } else if e.Finalize? {
      FinalizeDurable(l);
    } else if e.Write? || e.Flush? {
      OutputDurable(l, e);
    } else {
      QueueDurable(l, e);
    }
  }

  lemma QueueDurable(l: Log, e: Event)
    requires (e.Submit? || e.Reject? || e.Take? || e.Fail? || e.FailAck?) && Enabled(l, e) && Durable(l)
    ensures Durable(Step(l, e))
  {
    hide IsBatch, Bounded, Fresh, EndOf;
    SameEnd(l, Step(l, e));
  }

  lemma SameEnd(l: Log, m: Log)
    requires m.records == l.records && m.acked == l.acked
    ensures l.acked <= |l.records| ==> EndOf(m, m.acked) == EndOf(l, l.acked)
  {
    hide BoundaryOf;
  }

  lemma AckDurable(l: Log)
    requires Enabled(l, Ack) && Pipeline(l) && Contents(l) && Durable(l)
    ensures Durable(Step(l, Ack))
  {
    hide LogBytes, BoundaryOf;
    EndOfMonotone(l, l.acked + 1, |l.records|);
    EndOfAll(l);
  }

  lemma FinalizeDurable(l: Log)
    requires Enabled(l, Finalize) && Pipeline(l) && Durable(l)
    ensures Durable(Step(l, Finalize))
  {
    hide Emission, BoundaryOf;
    assert (l.records + l.batch)[..l.acked] == l.records[..l.acked];
  }

  lemma OutputDurable(l: Log, e: Event)
    requires (e.Write? || e.Flush?) && Enabled(l, e) && Pipeline(l) && Durable(l)
    ensures Durable(Step(l, e))
  {
    hide EndOf, Emission, IsBatch, Bounded, Fresh, LogBytes;
    SameEnd(l, Step(l, e));
  }

  lemma StepInv(l: Log, e: Event)
    requires Enabled(l, e) && Inv(l)
    ensures Inv(Step(l, e))
  {
    hide Enabled, Step, Pipeline, Completions, AcceptedBounded, Contents, Durable;
    StepPipeline(l, e);
    StepCompletions(l, e);
    StepBounded(l, e);
    StepContents(l, e);
    StepDurable(l, e);
  }

  // ------------------------------------------------------------ runs

  /** A log just opened on an empty file, or on a clean one holding `records`, of which `synced` bytes are safe. */
  function Opened(policy: Policy, maxBatch: nat, generation: nat, file: seq<byte>, synced: nat, records: seq<Request>): Log {
    Log(policy, maxBatch, generation, file, synced, records, records, [], [], Idle, false, |records|, |records|,
        map r | r in records :: r.id := true)
  }

  predicate CleanStart(policy: Policy, maxBatch: nat, generation: nat, file: seq<byte>, records: seq<Request>) {
    && maxBatch > 0 && GenerationFits(generation) && Distinct(records) && |records| < MAX_U64
    && (forall i :: 0 <= i < |records| ==> Bounded(records[i].op))
    && (file == LogBytes(generation, Ops(records)) || (file == [] && records == []))
  }

  lemma OpenedInv(policy: Policy, maxBatch: nat, generation: nat, file: seq<byte>, synced: nat, records: seq<Request>)
    requires CleanStart(policy, maxBatch, generation, file, records) && synced <= |file|
    ensures Inv(Opened(policy, maxBatch, generation, file, synced, records))
  {
    hide LogBytes, Bounded, BoundaryOf;
    var l := Opened(policy, maxBatch, generation, file, synced, records);
    assert records[..|records|] == records && records[|records|..] == [] + [];
    assert forall i :: 0 <= i < |records| ==> records[i] in records;
    EndOfAll(l);
  }

  predicate Runs(l: Log, events: seq<Event>)
    decreases events
  {
    events == [] || (Enabled(l, events[0]) && Runs(Step(l, events[0]), events[1..]))
  }

  function AfterRun(l: Log, events: seq<Event>): Log
    requires Runs(l, events)
    decreases events
  {
    if events == [] then l else AfterRun(Step(l, events[0]), events[1..])
  }

  /** Every run keeps the invariant. */
  lemma {:induction false} RunInv(l: Log, events: seq<Event>)
    requires Inv(l) && Runs(l, events)
    ensures Inv(AfterRun(l, events))
    decreases events
  {
    hide Enabled, Step, Inv;
    if events != [] {
      StepInv(l, events[0]);
      RunInv(Step(l, events[0]), events[1..]);
    }
  }

  // ------------------------------------------------------------ what every run guarantees

  predicate Succeeded(l: Log, i: nat)
    requires i < |l.submitted|
  {
    l.submitted[i].id in l.outcomes && l.outcomes[l.submitted[i].id]
  }

  /**
   * In every state of every run: the i-th accepted request, once acknowledged, is the
   * i-th frame of the file and carries sequence i+1; unless the policy never syncs, it
   * lies wholly within the synced prefix, and so does everything found at the open, as
   * soon as one request has been acknowledged since.
   */
  lemma AcknowledgedIsInPlace(start: Log, events: seq<Event>, i: nat)
    requires Inv(start) && Runs(start, events)
    requires i < |AfterRun(start, events).submitted| && Succeeded(AfterRun(start, events), i)
    ensures var l := AfterRun(start, events);
            && i < |l.records| && EndOf(l, i) <= EndOf(l, i + 1) <= |l.file|
            && l.file[EndOf(l, i)..EndOf(l, i + 1)] == Frame(i + 1, l.submitted[i].op)
            && (l.policy != Buffered && l.acked > l.found ==> EndOf(l, i + 1) <= l.synced)
            && (i >= l.found ==> l.acked > l.found)
  {
    hide LogBytes, Frame, BoundaryOf, Bounded, Runs, AfterRun;
    RunInv(start, events);
    var l := AfterRun(start, events);
    assert i < l.acked;
    EndOfMonotone(l, i + 1, l.acked);
    OpsTake(l.records, i);
    OpsTake(l.records, i + 1);
    FrameAt(l.generation, Ops(l.records), i);
    FileIsPrefix(l);
  }

  lemma FileIsPrefix(l: Log)
    requires Contents(l)
    ensures l.file <= LogBytes(l.generation, Ops(l.records))
  {
    hide LogBytes;
  }

  /** Acknowledged requests are a prefix of the accepted ones; what is written but not acknowledged follows it. */
  lemma UnacknowledgedIsSuffix(l: Log, i: nat, j: nat)
    requires Inv(l) && i < j < |l.submitted| && Succeeded(l, j)
    ensures Succeeded(l, i)
  {
    hide LogBytes, BoundaryOf, Bounded;
  }

  lemma FailedStep(l: Log, e: Event)
    requires l.failed && l.phase.Failing? && Enabled(l, e)
    ensures var m := Step(l, e);
            && m.failed && m.phase.Failing? && m.acked == l.acked && m.file == l.file && m.submitted == l.submitted
            && forall id :: id in m.outcomes && m.outcomes[id] ==> id in l.outcomes && l.outcomes[id]
  {
    hide Emission, IsBatch, Bounded;
  }

  /** After the first error nothing is written, accepted or acknowledged any more. */
  lemma {:induction false} FailureIsFinal(l: Log, events: seq<Event>)
    requires l.failed && l.phase.Failing? && Runs(l, events)
    ensures var m := AfterRun(l, events);
            && m.failed && m.acked == l.acked && m.file == l.file && m.submitted == l.submitted
            && forall id :: id in m.outcomes && m.outcomes[id] ==> id in l.outcomes && l.outcomes[id]
    decreases events
  {
    hide Enabled, Step;
    if events != [] {
      FailedStep(l, events[0]);
      FailureIsFinal(Step(l, events[0]), events[1..]);
    }
  }

  function Repeat(n: nat): (es: seq<Event>)
    ensures |es| == n
  {
    if n == 0 then [] else [FailAck] + Repeat(n - 1)
  }

  /** No request is stranded by a failure: the writer completes all of them, and every one not acknowledged gets the error. */
  lemma {:induction false} NoneStranded(l: Log)
    requires Inv(l) && l.failed
    ensures Runs(l, Repeat(|l.batch|))
    ensures var m := AfterRun(l, Repeat(|l.batch|));
            && m.submitted == l.submitted && m.acked == l.acked
            && forall i :: 0 <= i < |m.submitted| ==>
                 m.submitted[i].id in m.outcomes && m.outcomes[m.submitted[i].id] == (i < m.acked)
    decreases |l.batch|
  {
    hide Inv, Enabled, Step;
    if l.batch == [] {
      AllCompleted(l);
    } else {
      CanFailAck(l);
      var m := Step(l, FailAck);
      StepInv(l, FailAck);
      NoneStranded(m);
      assert Repeat(|l.batch|)[1..] == Repeat(|m.batch|);
    }
  }

  lemma AllCompleted(l: Log)
    requires Inv(l) && l.failed && l.batch == []
    ensures forall i :: 0 <= i < |l.submitted| ==>
              l.submitted[i].id in l.outcomes && l.outcomes[l.submitted[i].id] == (i < l.acked)
  {
    hide LogBytes, BoundaryOf, Bounded, Pipeline, Contents, Durable;
  }

  lemma CanFailAck(l: Log)
    requires Inv(l) && l.failed && l.batch != []
    ensures Enabled(l, FailAck)
    ensures var m := Step(l, FailAck);
            m.failed && m.submitted == l.submitted && m.acked == l.acked && |m.batch| == |l.batch| - 1
  {
    hide LogBytes, BoundaryOf, Bounded, Completions, Contents, Durable;
  }
}
