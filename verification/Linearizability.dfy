/**
 * Calls on the running store, reads included, act on one map one after the other: each
 * write takes effect when it is acknowledged, each read when it looks, and every answer is
 * the one that map gives at that point.
 */
module Linearizability {
  import opened Record
  import opened Replay
  import opened Snapshot
  import opened Recovery
  import opened Histories
  import opened Engine
  import opened EngineInv
  import opened EngineCalls
  import opened EngineWriter
  import opened Durability
  import opened Guarantees
  import GC = GroupCommit

  // ------------------------------------------------------------ runs with reads

  /** What happens next: a step of the engine, or a read under shared locks. */
  datatype Act = Take(e: Event) | Look(k: Key) | Count

  ghost predicate Can(s: Engine, a: Act) {
    match a
    case Take(e) => Enabled(s, e)
    case Look(k) => ShardOf(s, k) !in s.shards
    case Count => forall i :: 0 <= i < SHARDS ==> i !in s.shards
  }

  ghost function Next(s: Engine, a: Act): Engine
    requires Can(s, a)
  {
    if a.Take? then Step(s, a.e) else s
  }

  ghost predicate Happens(s: Engine, acts: seq<Act>)
    decreases acts
  {
    acts == [] || (Can(s, acts[0]) && Happens(Next(s, acts[0]), acts[1..]))
  }

  ghost function After(s: Engine, acts: seq<Act>): Engine
    requires Happens(s, acts)
    decreases acts
  {
    if acts == [] then s else After(Next(s, acts[0]), acts[1..])
  }

  // ------------------------------------------------------------ one map, one operation at a time

  /** What a run amounts to, with the answers that were given. */
  datatype Atom =
    | Wrote(r: GC.Request, found: bool)       // Set or Delete; whether its key was there
    | Saw(k: Key, v: Option<Value>)           // Get and Contains
    | Counted(n: nat)                         // Size
    | Restarted(order: seq<GC.Request>, acknowledged: set<GC.Request>, kept: set<GC.Request>)

  function Lookup(store: Store, k: Key): Option<Value> {
    if k in store then Some(store[k]) else None
  }

  /** The atom of an event: a write at its acknowledgement, a read where it looks. */
  ghost function AtomOf(s: Engine, a: Act): seq<Atom>
    requires Can(s, a)
  {
    match a
    case Look(k) => [Saw(k, Lookup(s.mem, k))]
    case Count => [Counted(|s.mem|)]
    case Take(e) =>
      if IsAck(e) && s.log.batch != [] then [Wrote(s.log.batch[0], s.log.batch[0].op.key in s.mem)]
      else if e.Crash? then [Restarted(s.order, s.sure, Step(s, e).live)]
      else []
  }

  ghost function Atoms(s: Engine, acts: seq<Act>): seq<Atom>
    requires Happens(s, acts)
    decreases acts
  {
    if acts == [] then [] else AtomOf(s, acts[0]) + Atoms(Next(s, acts[0]), acts[1..])
  }

  /** One map gives all these answers, in this order; a restart keeps every acknowledged write. */
  ghost predicate Legal(store: Store, atoms: seq<Atom>)
    decreases atoms
  {
    if atoms == [] then true
    else
      match atoms[0]
      case Wrote(r, found) => found == (r.op.key in store) && Legal(Apply(store, r.op), atoms[1..])
      case Saw(k, v) => v == Lookup(store, k) && Legal(store, atoms[1..])
      case Counted(n) => n == |store| && Legal(store, atoms[1..])
      case Restarted(order, acknowledged, kept) => acknowledged <= kept && Legal(Live(order, kept), atoms[1..])
  }

  // ------------------------------------------------------------ the theorem

  lemma LegalOne(store: Store, a: Atom, next: Store, rest: seq<Atom>)
    requires Legal(next, rest)
    requires a.Wrote? ==> a.found == (a.r.op.key in store) && next == Apply(store, a.r.op)
    requires a.Saw? ==> a.v == Lookup(store, a.k) && next == store
    requires a.Counted? ==> a.n == |store| && next == store
    requires a.Restarted? ==> a.acknowledged <= a.kept && next == Live(a.order, a.kept)
    ensures Legal(store, [a] + rest)
  {
    hide Live, Apply;
    assert ([a] + rest)[1..] == rest;
  }

  lemma StepIsLegal(s: Engine, a: Act, rest: seq<Atom>)
    requires Inv(s) && Can(s, a) && Legal(Abstract(Next(s, a)), rest)
    ensures Legal(Abstract(s), AtomOf(s, a) + rest)
  {
    hide Inv, Abstract, Legal, Enabled, Step, Apply, Live;
    match a
    case Look(k) =>
      ReadIsLegal(s, k);
      LegalOne(Abstract(s), Saw(k, Lookup(s.mem, k)), Abstract(s), rest);
    case Count =>
      CountIsLegal(s);
      LegalOne(Abstract(s), Counted(|s.mem|), Abstract(s), rest);
    case Take(e) =>
      EventIsLegal(s, e, rest);
  }

  lemma ReadIsLegal(s: Engine, k: Key)
    requires Inv(s) && ShardOf(s, k) !in s.shards
    ensures Lookup(s.mem, k) == Lookup(Abstract(s), k)
  {
    hide Inv, Abstract;
    FreeRead(s, k);
  }

  lemma CountIsLegal(s: Engine)
    requires Inv(s) && forall i :: 0 <= i < SHARDS ==> i !in s.shards
    ensures s.mem == Abstract(s)
  {
    hide Inv, Abstract, AgreeOn;
    forall k: Key
      ensures AgreeOn(s.mem, Abstract(s), k)
    {
      ShardInRange(s, k);
      FreeRead(s, k);
    }
    AgreeEverywhere(s.mem, Abstract(s));
  }

  lemma EventIsLegal(s: Engine, e: Event, rest: seq<Atom>)
    requires Inv(s) && Enabled(s, e) && Legal(Abstract(Step(s, e)), rest)
    ensures Legal(Abstract(s), AtomOf(s, Take(e)) + rest)
  {
    hide Inv, Abstract, Legal, Enabled, Step, Apply, Live;
    EnabledIsPossible(s, e);
    EffectsStep(s, e);
    if IsAck(e) {
      var r := s.log.batch[0];
      AckSees(s, e);
      LegalOne(Abstract(s), Wrote(r, r.op.key in s.mem), Abstract(Step(s, e)), rest);
    } else if e.Crash? {
      RestartMap(s, e);
      LegalOne(Abstract(s), Restarted(s.order, s.sure, Step(s, e).live), Abstract(Step(s, e)), rest);
    } else {
      assert [] + rest == rest;
    }
  }

  lemma RestartMap(s: Engine, e: Event)
    requires Inv(s) && Enabled(s, e) && e.Crash?
    ensures var m := Step(s, e);
            s.sure <= m.live && Abstract(m) == Live(s.order, m.live)
  {
    hide Inv, Live, CanCrash, DoCrash, Aligned;
    CrashEffects(s, e.loss, e.image, e.snap);
    var m := Step(s, e);
    assert Effects(m) == m.live;
  }

  /** At its acknowledgement a write finds its key in memory as it is in the abstract map. */
  lemma AckSees(s: Engine, e: Event)
    requires Inv(s) && Enabled(s, e) && IsAck(e) && s.log.batch != []
    ensures var k := s.log.batch[0].op.key;
            Lookup(s.mem, k) == Lookup(Abstract(s), k)
  {
    hide Inv, GC.Inv, Threads, Numbers, Ordered, LogOk, Snapshots, Stale, Past, Live, Enabled;
    InvParts(s);
    var r := s.log.batch[0];
    assert r in s.log.batch && Underway(s, r);
    AckCan(s, e);
    AckIsNew(s);
    forall x | x in s.sure && x.op.key == r.op.key
      ensures x in s.live
    {
      OthersAreIn(s, r, x);
    }
    LiveAgrees(s.order, s.live, Effects(s), r.op.key);
  }

  lemma AckCan(s: Engine, e: Event)
    requires Enabled(s, e) && IsAck(e)
    ensures CanWrite(s, GC.Ack)
  {
    hide GC.Enabled;
  }

  lemma AckIsNew(s: Engine)
    requires Inv(s) && CanWrite(s, GC.Ack) && s.log.batch != []
    ensures s.log.batch[0] !in s.sure
  {
    hide Inv, GC.Inv, GC.EndOf, Threads, Numbers, Queued, Ordered, Memory, LogOk, Snapshots, Stale, Past;
    InvParts(s);
    StepAck(s.log);
  }

  /**
   * Every run of the store, reads and restarts included, is legal for one map: each write
   * acts at its acknowledgement, while its call is waiting for it, and answers whether its
   * key was there; each read answers what the map holds when it looks.
   */
  lemma {:induction false} Linearizable(s: Engine, acts: seq<Act>)
    requires Inv(s) && Happens(s, acts)
    ensures Legal(Abstract(s), Atoms(s, acts))
    decreases acts
  {
    hide Inv, Abstract, Legal, Can, Next, AtomOf;
    if acts == [] {
      NothingHappened(Abstract(s));
    } else {
      NextInv(s, acts[0]);
      Linearizable(Next(s, acts[0]), acts[1..]);
      StepIsLegal(s, acts[0], Atoms(Next(s, acts[0]), acts[1..]));
    }
  }

  lemma NothingHappened(store: Store)
    ensures Legal(store, [])
  {
  }

  lemma NextInv(s: Engine, a: Act)
    requires Inv(s) && Can(s, a)
    ensures Inv(Next(s, a))
  {
    hide Inv, Enabled, Step;
    if a.Take? {
      EnabledIsPossible(s, a.e);
      StepInv(s, a.e);
    }
  }

  // ------------------------------------------------------------ every call acts exactly once

  /** How often a request acts. */
  function Times(atoms: seq<Atom>, r: GC.Request): nat
    decreases atoms
  {
    if atoms == [] then 0
    else (if atoms[0].Wrote? && atoms[0].r == r then 1 else 0) + Times(atoms[1..], r)
  }

  lemma TimesOne(a: seq<Atom>, rest: seq<Atom>, r: GC.Request)
    requires |a| <= 1
    ensures Times(a + rest, r) == Times(a, r) + Times(rest, r)
  {
    if a == [] {
      assert a + rest == rest;
    } else {
      assert (a + rest)[0] == a[0] && (a + rest)[1..] == rest && a[1..] == [];
    }
  }

  /** One act counts for a request exactly if it acknowledges it. */
  lemma ActCounts(s: Engine, a: Act, r: GC.Request)
    requires Inv(s) && Can(s, a)
    ensures |AtomOf(s, a)| <= 1 && s.sure <= Next(s, a).sure
    ensures Times(AtomOf(s, a), r) == if r in Next(s, a).sure && r !in s.sure then 1 else 0
  {
    hide Inv, Enabled, Step, Abstract, Apply;
    if a.Take? {
      EnabledIsPossible(s, a.e);
      EffectsStep(s, a.e);
      if IsAck(a.e) {
        AckCan(s, a.e);
        AckIsNew(s);
      }
    }
  }

  /** Over any run a request acts once if it is acknowledged in it, and otherwise never. */
  lemma {:induction false} ActsOnce(s: Engine, acts: seq<Act>, r: GC.Request)
    requires Inv(s) && Happens(s, acts)
    ensures s.sure <= After(s, acts).sure && Inv(After(s, acts))
    ensures Times(Atoms(s, acts), r) == if r in After(s, acts).sure && r !in s.sure then 1 else 0
    decreases acts
  {
    hide Inv, Can, Next, AtomOf;
    if acts != [] {
      NextInv(s, acts[0]);
      ActsOnce(Next(s, acts[0]), acts[1..], r);
      ActCounts(s, acts[0], r);
      TimesOne(AtomOf(s, acts[0]), Atoms(Next(s, acts[0]), acts[1..]), r);
    }
  }

  /**
   * Every call that has returned, in a run from an empty store, acted exactly once: one
   * request of that number stands in the history of the run, once, and no other.
   */
  lemma ReturnedActedOnce(s: Engine, acts: seq<Act>, id: nat) returns (r: GC.Request)
    requires Initial(s) && Happens(s, acts) && id in After(s, acts).returned
    ensures r.id == id && Times(Atoms(s, acts), r) == 1
    ensures forall q: GC.Request :: q.id == id && q != r ==> Times(Atoms(s, acts), q) == 0
  {
    hide Inv, Happens, Atoms, After, Times;
    InitialInv(s);
    var m := After(s, acts);
    ActsOnce(s, acts, GC.Request(id, 0, Delete([])));
    r := ReturnedRequest(m, id);
    ActsOnce(s, acts, r);
    forall q: GC.Request | q.id == id && q != r
      ensures Times(Atoms(s, acts), q) == 0
    {
      ActsOnce(s, acts, q);
      if q in m.sure { SureDiffer(m, q, r); }
    }
  }

  lemma ReturnedRequest(m: Engine, id: nat) returns (r: GC.Request)
    requires Inv(m) && id in m.returned
    ensures r in m.sure && r.id == id
  {
    hide GC.Inv, Threads, Numbers, Queued, Account, Ordered, Memory, LogOk, Snapshots, Stale;
    r :| r in m.sure && r.id == id;
  }

  lemma SureDiffer(m: Engine, q: GC.Request, r: GC.Request)
    requires Inv(m) && q in m.sure && r in m.sure && q != r
    ensures q.id != r.id
  {
    hide GC.Inv, Threads, Queued, Ordered, Memory, LogOk, Snapshots, Stale, Past, Bounded;
    var i := Place(m.order, q);
    var j := Place(m.order, r);
  }

  // ------------------------------------------------------------ inside the call, and with the same answer

  /** A write acts between the beginning and the return of its call. */
  lemma ActsWithinCall(s: Engine, e: Event)
    requires Inv(s) && Enabled(s, e) && IsAck(e) && s.log.batch != []
    ensures var r := s.log.batch[0];
            PcOf(s, r.tid) == Waiting(r) && Underway(Step(s, e), r) && r in Step(s, e).sure
  {
    hide Inv, GC.Inv, Threads, Numbers, Account, Ordered, Memory, LogOk, Snapshots, Stale, Past;
    InvParts(s);
    var r := s.log.batch[0];
    assert r in s.log.batch;
  }

  predicate Mutates(e: Event, r: GC.Request) {
    e.Foreground? && e.t == r.tid && e.call.Mutate?
  }

  /** Between the acknowledgement of a write and its change of memory nobody else touches its key. */
  lemma KeyStays(s: Engine, e: Event, r: GC.Request)
    requires Inv(s) && Enabled(s, e) && r in s.sure && Underway(s, r) && !e.Crash? && !Mutates(e, r)
    ensures var m := Step(s, e);
            r in m.sure && Underway(m, r) && AgreeOn(m.mem, s.mem, r.op.key)
  {
    hide Inv, AgreeOn, CanCall, CanWrite, CanAct, DoCall, DoWrite, DoAct;
    match e
    case Foreground(t, call) => CallKeepsKey(s, t, call, r);
    case Writer(g) => WriterKeepsKey(s, g, r);
    case Background(t, action) => ActKeepsKey(s, t, action, r);
  }

  lemma CallKeepsKey(s: Engine, t: nat, call: Call, r: GC.Request)
    requires Inv(s) && CanCall(s, t, call) && r in s.sure && Underway(s, r) && !(t == r.tid && call.Mutate?)
    ensures var m := DoCall(s, t, call);
            r in m.sure && Underway(m, r) && AgreeOn(m.mem, s.mem, r.op.key)
  {
    hide Inv, CanAppend, DoAppend, OthersKeepLocks, SameLog, Exclusive, Threads, GC.Inv, Numbers, Queued, Account,
      Ordered, Memory, LogOk, Snapshots, Stale, Past;
    InvParts(s);
    if call.Append? {
      AppendMove(s, t);
    } else if call.Wake? && t == r.tid {
      WokenIsLogged(s, t);
    } else if call.Mutate? {
      OwnRequest(s, t);
      CallsApart(s, PcOf(s, t).r, r);
    }
  }

  lemma OwnRequest(s: Engine, t: nat)
    requires Threads(s) && PcOf(s, t).Logged?
    ensures PcOf(s, t).r.tid == t
  {
    hide AdminOk, GC.Fresh;
    assert ThreadOk(s, t);
  }

  lemma WokenIsLogged(s: Engine, t: nat)
    requires Inv(s) && CanWake(s, t) && PcOf(s, t).r in s.sure
    ensures s.log.outcomes[PcOf(s, t).r.id]
  {
    hide Inv, GC.Inv, Numbers, Queued, Account, Ordered, Memory, LogOk, Snapshots, Stale, Past, AdminOk, GC.Fresh;
    InvParts(s);
    assert ThreadOk(s, t);
    if !s.log.outcomes[PcOf(s, t).r.id] { RefusedNotSure(s, PcOf(s, t).r); }
  }

  lemma WriterKeepsKey(s: Engine, g: GC.Event, r: GC.Request)
    requires CanWrite(s, g) && r in s.sure && Underway(s, r)
    ensures var m := DoWrite(s, g);
            r in m.sure && Underway(m, r) && AgreeOn(m.mem, s.mem, r.op.key)
  {
    hide GC.Enabled, GC.Step;
  }

  lemma ActKeepsKey(s: Engine, t: nat, action: Action, r: GC.Request)
    requires CanAct(s, t, action) && r in s.sure && Underway(s, r)
    ensures var m := DoAct(s, t, action);
            r in m.sure && Underway(m, r) && AgreeOn(m.mem, s.mem, r.op.key)
  {
    hide CanAct, DoAct;
    ActMoves(s, t, action);
  }

  lemma {:induction false} AnswerIsFixed(s: Engine, events: seq<Event>, r: GC.Request)
    requires Inv(s) && Runs(s, events) && r in s.sure && Underway(s, r)
    requires forall i :: 0 <= i < |events| ==> !events[i].Crash? && !Mutates(events[i], r)
    ensures Underway(AfterRun(s, events), r) && AgreeOn(AfterRun(s, events).mem, s.mem, r.op.key)
    decreases events
  {
    hide Inv, Enabled, Step;
    if events != [] {
      EnabledIsPossible(s, events[0]);
      StepInv(s, events[0]);
      KeyStays(s, events[0], r);
      AnswerIsFixed(Step(s, events[0]), events[1..], r);
    }
  }

  /**
   * So a deletion, which looks at its key when it changes memory, reports what it found at
   * its acknowledgement: whether the key was in the one map when the deletion acted.
   */
  lemma DeletionAnswers(s: Engine, ack: Event, events: seq<Event>)
    requires Inv(s) && Enabled(s, ack) && IsAck(ack) && s.log.batch != [] && Runs(Step(s, ack), events)
    requires forall i :: 0 <= i < |events| ==> !events[i].Crash? && !Mutates(events[i], s.log.batch[0])
    ensures var r := s.log.batch[0];
            r.op.key in AfterRun(Step(s, ack), events).mem <==> r.op.key in Abstract(s)
  {
    hide Inv, Enabled, Step, Abstract, Runs, AfterRun;
    EnabledIsPossible(s, ack);
    AckSees(s, ack);
    ActsWithinCall(s, ack);
    StepInv(s, ack);
    AckKeepsMemory(s, ack);
    AnswerIsFixed(Step(s, ack), events, s.log.batch[0]);
  }

  lemma AckKeepsMemory(s: Engine, e: Event)
    requires Possible(s, e) && IsAck(e)
    ensures Step(s, e).mem == s.mem
  {
    hide GC.Enabled, GC.Step;
  }
}
