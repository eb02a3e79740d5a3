/**
 * Histories: one order in which requests were numbered, over all log generations and
 * restarts, and which of them are in effect. What replaying a log over a map leaves in
 * effect is decided key by key.
 */
module Histories {
  import opened Record
  import GC = GroupCommit

  /** The map that the requests in effect lead to. */
  ghost function Live(order: seq<GC.Request>, live: set<GC.Request>): Store {
    if order == [] then map[]
    else
      var before, last := Live(order[..|order| - 1], live), order[|order| - 1];
      if last in live then Apply(before, last.op) else before
  }

  /** Where a request stands in the order. */
  ghost function Place(order: seq<GC.Request>, x: GC.Request): (i: nat)
    requires x in order
    ensures i < |order| && order[i] == x
  {
    var i :| 0 <= i < |order| && order[i] == x;
    i
  }

  lemma PlaceOf(order: seq<GC.Request>, i: nat)
    requires GC.Distinct(order) && i < |order|
    ensures Place(order, order[i]) == i
  {
  }

  lemma PlaceKept(order: seq<GC.Request>, more: seq<GC.Request>, x: GC.Request)
    requires GC.Distinct(order + more) && x in order
    ensures x in order + more && Place(order + more, x) == Place(order, x)
  {
    var i := Place(order, x);
    assert (order + more)[i] == x;
    PlaceOf(order + more, i);
  }

  /** The requests stand in the order one after the other, from `start` on. */
  ghost predicate InOrder(order: seq<GC.Request>, rs: seq<GC.Request>, start: nat) {
    && (forall i :: 0 <= i < |rs| ==> rs[i] in order && start <= Place(order, rs[i]))
    && (forall i, j :: 0 <= i < j < |rs| ==>
          rs[i] in order && rs[j] in order && Place(order, rs[i]) < Place(order, rs[j]))
  }

  ghost predicate Subset(live: set<GC.Request>, order: seq<GC.Request>) {
    forall x :: x in live ==> x in order
  }

  // ------------------------------------------------------------ one key at a time

  lemma {:induction false} LiveAgrees(order: seq<GC.Request>, a: set<GC.Request>, b: set<GC.Request>, k: Key)
    requires forall i :: 0 <= i < |order| && order[i].op.key == k ==> (order[i] in a <==> order[i] in b)
    ensures AgreeOn(Live(order, a), Live(order, b), k)
    decreases |order|
  {
    if order != [] {
      LiveAgrees(order[..|order| - 1], a, b, k);
    }
  }

  lemma {:induction false} LiveSame(order: seq<GC.Request>, a: set<GC.Request>, b: set<GC.Request>)
    requires forall i :: 0 <= i < |order| ==> (order[i] in a <==> order[i] in b)
    ensures Live(order, a) == Live(order, b)
    decreases |order|
  {
    hide Apply;
    if order != [] {
      LiveSame(order[..|order| - 1], a, b);
    }
  }

  /** The last request in effect on a key decides it. */
  lemma {:induction false} LastDecides(order: seq<GC.Request>, live: set<GC.Request>, p: nat)
    requires p < |order| && order[p] in live
    requires forall q :: p < q < |order| && order[q] in live ==> order[q].op.key != order[p].op.key
    ensures AgreeOn(Live(order, live), Apply(map[], order[p].op), order[p].op.key)
    decreases |order|
  {
    var n := |order| - 1;
    if p < n {
      LastDecides(order[..n], live, p);
    }
  }

  /** So does the last operation of a replay. */
  lemma {:induction false} LastReplayed(store: Store, ops: seq<Op>, p: nat)
    requires p < |ops| && forall q :: p < q < |ops| ==> ops[q].key != ops[p].key
    ensures AgreeOn(ApplyAll(store, ops), Apply(map[], ops[p]), ops[p].key)
  {
    hide ApplyAll;
    var a, b, k := ops[..p + 1], ops[p + 1..], ops[p].key;
    assert a + b == ops && a == ops[..p] + [ops[p]];
    ApplyAppend(store, a, b);
    ApplyAppend(store, ops[..p], [ops[p]]);
    ApplyOne(ApplyAll(store, ops[..p]), ops[p]);
    assert !Touches(b, k);
    ApplyUntouched(ApplyAll(store, a), b, k);
  }

  /** The last operation of a replay that touches a key. */
  lemma {:induction false} LastTouch(ops: seq<Op>, k: Key) returns (p: nat)
    requires Touches(ops, k)
    ensures p < |ops| && ops[p].key == k && forall q :: p < q < |ops| ==> ops[q].key != k
    decreases |ops|
  {
    var n := |ops| - 1;
    if ops[n].key == k {
      p := n;
    } else {
      assert forall i :: 0 <= i < n ==> ops[..n][i] == ops[i];
      p := LastTouch(ops[..n], k);
    }
  }

  // ------------------------------------------------------------ replaying a log over a map

  /** A replay overrides what stood after all of its own operations on the same key. */
  ghost predicate Superseded(order: seq<GC.Request>, rs: seq<GC.Request>, x: GC.Request)
    requires x in order && forall i :: 0 <= i < |rs| ==> rs[i] in order
  {
    && x !in rs && (exists i :: 0 <= i < |rs| && rs[i].op.key == x.op.key)
    && (forall i :: 0 <= i < |rs| && rs[i].op.key == x.op.key ==> Place(order, rs[i]) < Place(order, x))
  }

  /** What is in effect after replaying `rs` over the map of `saved`. */
  ghost function Replayed(order: seq<GC.Request>, saved: set<GC.Request>, rs: seq<GC.Request>): set<GC.Request>
    requires Subset(saved, order) && forall i :: 0 <= i < |rs| ==> rs[i] in order
  {
    (set x | x in saved && !Superseded(order, rs, x)) + set r | r in rs
  }

  /** Replaying any log over any map of this history gives a map of this history. */
  lemma ReplayOver(order: seq<GC.Request>, saved: set<GC.Request>, rs: seq<GC.Request>)
    requires GC.Distinct(order) && Subset(saved, order) && InOrder(order, rs, 0)
    ensures ApplyAll(Live(order, saved), GC.Ops(rs)) == Live(order, Replayed(order, saved, rs))
  {
    hide Live, ApplyAll, Replayed, AgreeOn;
    var a, b := ApplyAll(Live(order, saved), GC.Ops(rs)), Live(order, Replayed(order, saved, rs));
    forall k: Key
      ensures AgreeOn(a, b, k)
    {
      if Touches(GC.Ops(rs), k) {
        TouchedKey(order, saved, rs, k);
      } else {
        UntouchedKey(order, saved, rs, k);
      }
    }
    AgreeEverywhere(a, b);
  }

  lemma UntouchedKey(order: seq<GC.Request>, saved: set<GC.Request>, rs: seq<GC.Request>, k: Key)
    requires GC.Distinct(order) && Subset(saved, order) && InOrder(order, rs, 0) && !Touches(GC.Ops(rs), k)
    ensures AgreeOn(ApplyAll(Live(order, saved), GC.Ops(rs)), Live(order, Replayed(order, saved, rs)), k)
  {
    hide Live, ApplyAll;
    assert forall i :: 0 <= i < |rs| ==> GC.Ops(rs)[i].key != k;
    ApplyUntouched(Live(order, saved), GC.Ops(rs), k);
    LiveAgrees(order, saved, Replayed(order, saved, rs), k);
  }

  lemma TouchedKey(order: seq<GC.Request>, saved: set<GC.Request>, rs: seq<GC.Request>, k: Key)
    requires GC.Distinct(order) && Subset(saved, order) && InOrder(order, rs, 0) && Touches(GC.Ops(rs), k)
    ensures AgreeOn(ApplyAll(Live(order, saved), GC.Ops(rs)), Live(order, Replayed(order, saved, rs)), k)
  {
    hide Live, ApplyAll;
    var after := Replayed(order, saved, rs);
    var p := LastTouch(GC.Ops(rs), k);
    LastReplayed(Live(order, saved), GC.Ops(rs), p);
    var x := rs[p];
    var i := Place(order, x);
    forall q | i < q < |order| && order[q] in after
      ensures order[q].op.key != k
    {
      PlaceOf(order, q);
      if order[q] in rs {
        var j :| 0 <= j < |rs| && rs[j] == order[q];
        assert j > p;
        assert GC.Ops(rs)[j].key != k;
      } else if order[q].op.key == k {
        LaterSuperseded(order, rs, p, q);
      }
    }
    LastDecides(order, after, i);
  }

  lemma LaterSuperseded(order: seq<GC.Request>, rs: seq<GC.Request>, p: nat, q: nat)
    requires GC.Distinct(order) && InOrder(order, rs, 0) && p < |rs| && q < |order| && order[q] !in rs
    requires order[q].op.key == rs[p].op.key && Place(order, rs[p]) < q
    requires forall j :: p < j < |rs| ==> rs[j].op.key != rs[p].op.key
    ensures Superseded(order, rs, order[q])
  {
    PlaceOf(order, q);
  }

  // ------------------------------------------------------------ the order grows

  lemma {:induction false} LiveMore(order: seq<GC.Request>, more: seq<GC.Request>, live: set<GC.Request>)
    requires forall r :: r in more ==> r !in live
    ensures Live(order + more, live) == Live(order, live)
    decreases |more|
  {
    hide Apply;
    if more == [] {
      assert order + more == order;
    } else {
      var n := |more| - 1;
      assert (order + more)[..|order + more| - 1] == order + more[..n];
      assert more[n] in more;
      LiveMore(order, more[..n], live);
    }
  }

  lemma InOrderKept(order: seq<GC.Request>, more: seq<GC.Request>, rs: seq<GC.Request>, start: nat)
    requires GC.Distinct(order + more) && InOrder(order, rs, start)
    ensures InOrder(order + more, rs, start)
  {
    forall i | 0 <= i < |rs|
      ensures rs[i] in order + more && Place(order + more, rs[i]) == Place(order, rs[i])
    {
      PlaceKept(order, more, rs[i]);
    }
  }

  /** New requests stand behind everything that was there. */
  lemma InOrderMore(order: seq<GC.Request>, more: seq<GC.Request>, rs: seq<GC.Request>, start: nat)
    requires GC.Distinct(order + more) && InOrder(order, rs, start) && start <= |order|
    ensures InOrder(order + more, rs + more, start)
  {
    InOrderKept(order, more, rs, start);
    forall j | 0 <= j < |more|
      ensures more[j] in order + more && Place(order + more, more[j]) == |order| + j
    {
      assert (order + more)[|order| + j] == more[j];
      PlaceOf(order + more, |order| + j);
    }
    forall i | 0 <= i < |rs|
      ensures Place(order + more, rs[i]) < |order|
    {
      PlaceKept(order, more, rs[i]);
    }
  }

  lemma InOrderTake(order: seq<GC.Request>, rs: seq<GC.Request>, start: nat, n: nat)
    requires InOrder(order, rs, start) && n <= |rs|
    ensures InOrder(order, rs[..n], start) && InOrder(order, rs[n..], start)
  {
  }

  // ------------------------------------------------------------ one more in effect

  /** A request nothing later touches can take effect last. */
  lemma {:induction false} LiveInsert(order: seq<GC.Request>, live: set<GC.Request>, p: nat)
    requires GC.Distinct(order) && p < |order| && order[p] !in live
    requires forall q :: p < q < |order| && order[q] in live ==> order[q].op.key != order[p].op.key
    ensures Live(order, live + {order[p]}) == Apply(Live(order, live), order[p].op)
    decreases |order|
  {
    var n, r := |order| - 1, order[p];
    var init := order[..n];
    if p == n {
      LiveSame(init, live, live + {r});
    } else {
      assert GC.Distinct(init);
      LiveInsert(init, live, p);
      assert order[n] != r;
      if order[n] in live {
        Commute(Live(init, live), r.op, order[n].op);
      }
    }
  }

  lemma Commute(store: Store, a: Op, b: Op)
    requires a.key != b.key
    ensures Apply(Apply(store, a), b) == Apply(Apply(store, b), a)
  {
  }
}
