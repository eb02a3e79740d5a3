/**
 * Which maps a history explains. A map is that of some set of requests, among them all that
 * must be in it, exactly if each key is explained by itself; and so recovery from a
 * truncated log that is brought back, wherever in it the replay starts, is right exactly if
 * the last operation read on each key is accounted for.
 */
module Explanations {
  import opened Record
  import opened Replay
  import opened Recovery
  import opened Histories
  import opened Engine
  import opened EngineInv
  import opened EngineCalls
  import opened EngineRestart
  import opened Guarantees
  import GC = GroupCommit

  // ------------------------------------------------------------ one key at a time

  /** The request at this place decides the key as the map has it, and comes after all that must be in effect there. */
  ghost predicate Decides(order: seq<GC.Request>, must: set<GC.Request>, store: Store, k: Key, i: nat) {
    && i < |order| && order[i].op.key == k && AgreeOn(store, Apply(map[], order[i].op), k)
    && (forall x :: x in must && x.op.key == k ==> x in order && Place(order, x) <= i)
  }

  /** The map lacks the key and nothing must be in effect on it; or some request decides it. */
  ghost predicate Explains(order: seq<GC.Request>, must: set<GC.Request>, store: Store, k: Key) {
    || (k !in store && forall x :: x in must ==> x.op.key != k)
    || (exists i :: Decides(order, must, store, k, i))
  }

  /** A key on which nothing is in effect is not in the map. */
  lemma {:induction false} NothingOn(order: seq<GC.Request>, live: set<GC.Request>, k: Key)
    requires forall i :: 0 <= i < |order| && order[i].op.key == k ==> order[i] !in live
    ensures k !in Live(order, live)
    decreases |order|
  {
    if order != [] {
      NothingOn(order[..|order| - 1], live, k);
    }
  }

  /** The last request in effect on a key, if there is one. */
  lemma {:induction false} LastOnKey(order: seq<GC.Request>, live: set<GC.Request>, k: Key) returns (i: int)
    ensures i < |order|
    ensures i >= 0 ==> order[i] in live && order[i].op.key == k
    ensures forall q :: 0 <= q < |order| && q > i && order[q] in live ==> order[q].op.key != k
    decreases |order|
  {
    if order == [] {
      i := -1;
    } else {
      var n := |order| - 1;
      if order[n] in live && order[n].op.key == k { i := n; } else { i := LastOnKey(order[..n], live, k); }
    }
  }

  lemma MapExplains(order: seq<GC.Request>, must: set<GC.Request>, live: set<GC.Request>, k: Key)
    requires GC.Distinct(order) && Subset(live, order) && must <= live
    ensures Explains(order, must, Live(order, live), k)
  {
    hide Live, Apply, AgreeOn, GC.Distinct;
    var i := LastOnKey(order, live, k);
    if i < 0 {
      NothingOn(order, live, k);
      forall x | x in must
        ensures x.op.key != k
      {
        assert order[Place(order, x)] == x;
      }
    } else {
      LastDecides(order, live, i);
      AgreeBack(Live(order, live), Apply(map[], order[i].op), k);
      forall x | x in must && x.op.key == k
        ensures x in order && Place(order, x) <= i
      {
        assert order[Place(order, x)] == x;
      }
      assert Decides(order, must, Live(order, live), k, i);
    }
  }

  lemma AgreeBack(a: Store, b: Store, k: Key)
    ensures AgreeOn(a, b, k) == AgreeOn(b, a, k)
  {
  }

  /** The place of a request that decides the key, if there is one. */
  ghost function Chosen(order: seq<GC.Request>, must: set<GC.Request>, store: Store, k: Key): int {
    if exists i: nat :: Decides(order, must, store, k, i)
    then var i: nat :| Decides(order, must, store, k, i); i
    else -1
  }

  /** What must be in effect, and one deciding request for each key. */
  ghost function Choice(order: seq<GC.Request>, must: set<GC.Request>, store: Store): set<GC.Request> {
    must + set i | 0 <= i < |order| && Chosen(order, must, store, order[i].op.key) == i :: order[i]
  }

  lemma ChoiceAgrees(order: seq<GC.Request>, must: set<GC.Request>, store: Store, k: Key)
    requires GC.Distinct(order) && Subset(must, order) && Explains(order, must, store, k)
    ensures AgreeOn(Live(order, Choice(order, must, store)), store, k)
  {
    hide Live, Apply, AgreeOn, GC.Distinct, Chosen;
    var live, i := Choice(order, must, store), Chosen(order, must, store, k);
    ChosenIs(order, must, store, k);
    if i >= 0 {
      assert order[i] in live;
      forall q | i < q < |order| && order[q] in live
        ensures order[q].op.key != k
      {
        PlaceOf(order, q);
        OnlyChosen(order, must, store, q);
      }
      LastDecides(order, live, i);
      AgreeSame(Live(order, live), Apply(map[], order[i].op), store, k);
    } else {
      forall q | 0 <= q < |order| && order[q].op.key == k
        ensures order[q] !in live
      {
        if order[q] in live { OnlyChosen(order, must, store, q); }
      }
      NothingOn(order, live, k);
      BothLack(Live(order, live), store, k);
    }
  }

  lemma ChosenIs(order: seq<GC.Request>, must: set<GC.Request>, store: Store, k: Key)
    ensures var i := Chosen(order, must, store, k);
            if i >= 0 then Decides(order, must, store, k, i)
            else i == -1 && forall j: nat :: !Decides(order, must, store, k, j)
  {
    hide Decides;
  }

  lemma OnlyChosen(order: seq<GC.Request>, must: set<GC.Request>, store: Store, q: nat)
    requires GC.Distinct(order) && q < |order| && order[q] in Choice(order, must, store)
    ensures order[q] in must || Chosen(order, must, store, order[q].op.key) == q
  {
    hide Chosen;
    if order[q] !in must {
      var i :| 0 <= i < |order| && Chosen(order, must, store, order[i].op.key) == i && order[i] == order[q];
      assert i == q;
    }
  }

  lemma AgreeSame(a: Store, b: Store, c: Store, k: Key)
    requires AgreeOn(a, b, k) && AgreeOn(c, b, k)
    ensures AgreeOn(a, c, k)
  {
  }

  lemma BothLack(a: Store, b: Store, k: Key)
    requires k !in a && k !in b
    ensures AgreeOn(a, b, k)
  {
  }

  /** The map is that of a set of requests of the history, among them all that must be in it. */
  ghost predicate IsMapOf(order: seq<GC.Request>, must: set<GC.Request>, store: Store) {
    exists live :: must <= live && Subset(live, order) && store == Live(order, live)
  }

  lemma ExplainedIff(order: seq<GC.Request>, must: set<GC.Request>, store: Store)
    requires GC.Distinct(order) && Subset(must, order)
    ensures IsMapOf(order, must, store) <==> forall k :: Explains(order, must, store, k)
  {
    hide Live, Explains, GC.Distinct;
    if IsMapOf(order, must, store) {
      var live :| must <= live && Subset(live, order) && store == Live(order, live);
      forall k
        ensures Explains(order, must, store, k)
      {
        MapExplains(order, must, live, k);
      }
    }
    if forall k :: Explains(order, must, store, k) {
      var live := Choice(order, must, store);
      ChoiceInHistory(order, must, store);
      forall k
        ensures AgreeOn(Live(order, live), store, k)
      {
        ChoiceAgrees(order, must, store, k);
      }
      AgreeEverywhere(Live(order, live), store);
    }
  }

  lemma ChoiceInHistory(order: seq<GC.Request>, must: set<GC.Request>, store: Store)
    requires Subset(must, order)
    ensures must <= Choice(order, must, store) && Subset(Choice(order, must, store), order)
  {
    hide Chosen;
  }

  // ------------------------------------------------------------ what a replay leaves

  /** No later operation of the replay is on the same key. */
  predicate LastOn(ops: seq<Op>, j: nat) {
    j < |ops| && forall q :: j < q < |ops| ==> ops[q].key != ops[j].key
  }

  /**
   * Some request of the history is this operation, and comes after all that must be in effect
   * on the key; or it is a deletion and nothing must be.
   */
  ghost predicate AccountedFor(order: seq<GC.Request>, must: set<GC.Request>, op: Op) {
    || (op.Delete? && forall x :: x in must ==> x.op.key != op.key)
    || (exists i ::
          && 0 <= i < |order| && order[i].op == op
          && (forall x :: x in must && x.op.key == op.key ==> x in order && Place(order, x) <= i))
  }

  lemma SameEffect(a: Op, b: Op)
    requires a.key == b.key
    ensures AgreeOn(Apply(map[], a), Apply(map[], b), a.key) <==> a == b
    ensures a.key !in Apply(map[], a) <==> a.Delete?
  {
  }

  /** The operation read last on a key explains it exactly if it is accounted for. */
  lemma ReadExplains(order: seq<GC.Request>, must: set<GC.Request>, store: Store, op: Op)
    requires AgreeOn(store, Apply(map[], op), op.key)
    ensures Explains(order, must, store, op.key) <==> AccountedFor(order, must, op)
  {
    hide Apply;
    SameEffect(op, op);
    forall i | 0 <= i < |order| && order[i].op.key == op.key
      ensures AgreeOn(store, Apply(map[], order[i].op), op.key) <==> order[i].op == op
    {
      SameEffect(op, order[i].op);
      AgreeBack(store, Apply(map[], order[i].op), op.key);
    }
    if exists i :: Decides(order, must, store, op.key, i) {
      var i: nat :| Decides(order, must, store, op.key, i);
      assert order[i].op == op;
    }
    if i: nat :| i < |order| && order[i].op == op
                 && (forall x :: x in must && x.op.key == op.key ==> x in order && Place(order, x) <= i) {
      assert Decides(order, must, store, op.key, i);
    }
  }

  /** Any replay over a map of the history leaves one exactly if the last operation on each key is accounted for. */
  lemma ReplayIsRightIff(order: seq<GC.Request>, must: set<GC.Request>, saved: set<GC.Request>, ops: seq<Op>)
    requires GC.Distinct(order) && Subset(saved, order) && must <= saved
    ensures IsMapOf(order, must, ApplyAll(Live(order, saved), ops))
            <==> forall j: nat :: LastOn(ops, j) ==> AccountedFor(order, must, ops[j])
  {
    hide Live, Explains, AccountedFor, ApplyAll, IsMapOf, GC.Distinct;
    var store := ApplyAll(Live(order, saved), ops);
    ExplainedIff(order, must, store);
    forall j: nat | LastOn(ops, j)
      ensures Explains(order, must, store, ops[j].key) <==> AccountedFor(order, must, ops[j])
    {
      LastReplayed(Live(order, saved), ops, j);
      ReadExplains(order, must, store, ops[j]);
    }
    forall k
      ensures Explains(order, must, store, k) || exists j: nat :: LastOn(ops, j) && ops[j].key == k
    {
      if Touches(ops, k) {
        var j := LastTouch(ops, k);
        assert LastOn(ops, j);
      } else {
        UntouchedExplained(order, must, saved, ops, k);
      }
    }
  }

  lemma UntouchedExplained(order: seq<GC.Request>, must: set<GC.Request>, saved: set<GC.Request>, ops: seq<Op>, k: Key)
    requires GC.Distinct(order) && Subset(saved, order) && must <= saved && !Touches(ops, k)
    ensures Explains(order, must, ApplyAll(Live(order, saved), ops), k)
  {
    hide Live, ApplyAll, Apply, GC.Distinct;
    MapExplains(order, must, saved, k);
    ApplyUntouched(Live(order, saved), ops, k);
    StillExplains(order, must, Live(order, saved), ApplyAll(Live(order, saved), ops), k);
  }

  lemma StillExplains(order: seq<GC.Request>, must: set<GC.Request>, a: Store, b: Store, k: Key)
    requires Explains(order, must, a, k) && AgreeOn(b, a, k)
    ensures Explains(order, must, b, k)
  {
    hide Apply;
    if i: nat :| Decides(order, must, a, k, i) {
      assert Decides(order, must, b, k, i);
    }
  }

  // ------------------------------------------------------------ logs that come back

  /**
   * A truncated log is brought back under any snapshot a crash may leave, and its replay
   * starts wherever the snapshot's offset falls. Recovery rebuilds the map of a set of requests
   * of the history, with all acknowledged ones in it, if and only if the last operation read
   * on each key is accounted for.
   */
  lemma BroughtBackIsRightIff(s: Engine, image: Image, p: Snap)
    requires Reachable(s) && image in s.stale && MayLeave(s, true, image, p)
    ensures Recover(p.bytes, image.bytes).Ok?
    ensures var ops := ReplayFrom(image.bytes, OffsetOf(p)).ops;
            IsMapOf(s.order, s.sure, Recover(p.bytes, image.bytes).value)
            <==> forall j: nat :: LastOn(ops, j) ==> AccountedFor(s.order, s.sure, ops[j])
  {
    hide Reachable, Inv, GC.Inv, Threads, Numbers, Queued, Account, Ordered, Memory, LogOk, Snapshots, Stale, Past,
      ReplayFrom, Recover, OffsetOf, Live, MayLeave, Holds, SavedOk, ApplyAll, IsMapOf, AccountedFor, LastOn;
    ReachableInv(s);
    InvParts(s);
    OrderDistinct(s);
    var q := LeftSnap(s, true, image, p);
    SavedEnough(s, q);
    RecoverHeld(p.bytes, image.bytes, Live(s.order, p.saved), OffsetOf(p));
    ReplayIsRightIff(s.order, s.sure, p.saved, ReplayFrom(image.bytes, OffsetOf(p)).ops);
  }
}
