/**
 * Startup recovery: load the snapshot, replay the log from its offset. What it
 * returns for a snapshot and a torn log that belong together, and the exact check on
 * the two files under which it stays right after later writes.
 */
module Recovery {
  import opened Bytes
  import opened Record
  import opened Replay
  import opened ReplayLaws
  import opened Snapshot

  /** The recovery sequence on the bytes of the two files. */
  function Recover(snapshot: Option<seq<byte>>, log: seq<byte>): Outcome<Store> {
    match LoadPath(snapshot)
    case LoadThrew => Threw
    case NotLoaded => Ok(ApplyAll(map[], ReplayFrom(log, 0).ops))
    case Loaded(store, _, offset) =>
      if offset > MAX_STREAM_OFFSET then Threw else Ok(ApplyAll(store, ReplayFrom(log, offset).ops))
  }

  /** A snapshot that cannot be loaded stops recovery, whatever the log holds; nothing of the log is used. */
  lemma DamagedStopsRecovery(file: seq<byte>, log: seq<byte>)
    requires Damaged(file)
    ensures Recover(Some(file), log) == Threw
  {
    hide Damaged, LoadOf, ReplayFrom, ApplyAll;
    DamagedThrows(file);
  }

  /** With no snapshot, or with fewer than four bytes of one, recovery replays all of the log over an empty map. */
  lemma NoSnapshotReplaysAll(snapshot: Option<seq<byte>>, log: seq<byte>)
    requires snapshot.None? || |snapshot.value| < 4
    ensures Recover(snapshot, log) == Ok(ApplyAll(map[], ReplayFrom(log, 0).ops))
  {
    hide ReplayFrom, ApplyAll;
  }

  /** A snapshot of the older format is followed by all of the log. */
  lemma LegacyReplaysAll(es: seq<Entry>, log: seq<byte>)
    requires AllEncodable(es) && AllFit(es) && |es| < U32_LIMIT && |es| != SNAPSHOT_MAGIC
    ensures Recover(Some(LegacySnapshot(es)), log) == Ok(ApplyAll(MapOf(map[], es), ReplayFrom(log, 0).ops))
  {
    hide LegacySnapshot, Encodable, EntryFits, MapOf, LoadOf, ReplayFrom, ApplyAll;
    LoadLegacy(es);
  }

  /** What a snapshot contributes: its map and the offset replay starts from. */
  predicate Holds(snapshot: Option<seq<byte>>, store: Store, offset: nat) {
    || (LoadPath(snapshot) == NotLoaded && store == map[] && offset == 0)
    || (LoadPath(snapshot) == Loaded(store, |store|, offset) && offset <= MAX_STREAM_OFFSET)
  }

  lemma RecoverHeld(snapshot: Option<seq<byte>>, log: seq<byte>, store: Store, offset: nat)
    requires Holds(snapshot, store, offset)
    ensures Recover(snapshot, log) == Ok(ApplyAll(store, ReplayFrom(log, offset).ops))
  {
    hide LoadOf, ReplayFrom, ApplyAll;
  }

  /** A printed snapshot of a map that fits holds that map and offset. */
  lemma SavedHolds(order: seq<Entry>, store: Store, offset: nat)
    requires Enumerates(order, store) && AllEncodable(order) && |order| < U32_LIMIT
    requires StoreFits(store) && offset <= MAX_STREAM_OFFSET
    ensures Holds(Some(SnapshotBytes(order, offset)), store, offset)
  {
    hide Enumerates, Encodable, EntryFits, LoadOf, SnapshotBytes;
    FitsInAnyOrder(order, store);
    LoadSaved(order, store, offset);
  }

  /** How many records of a log survive when its file is cut to `n` bytes. */
  function Kept(ops: seq<Op>, n: nat): (k: nat)
    ensures k <= |ops|
  {
    if n < HEADER_LENGTH then 0 else Whole(ops, n - HEADER_LENGTH)
  }

  lemma {:induction false} WholeSplits(ops: seq<Op>, j: nat, cut: nat)
    requires j <= |ops| && Size(ops[..j]) <= cut
    ensures Whole(ops, cut) == j + Whole(ops[j..], cut - Size(ops[..j]))
    decreases j
  {
    hide FrameSize;
    if j == 0 {
      assert ops[..0] == [] && ops[0..] == ops;
    } else {
      SizeOfPrefix(ops, j - 1);
      assert ops[1..][j - 1..] == ops[j..];
      WholeSplits(ops[1..], j - 1, cut - FrameSize(ops[0]));
    }
  }

  /** A cut that keeps the boundary after `j` records keeps at least those records. */
  lemma KeptAtLeast(ops: seq<Op>, j: nat, n: nat)
    requires j <= |ops| && BoundaryOf(ops[..j]) <= n
    ensures j <= Kept(ops, n)
  {
    WholeSplits(ops, j, n - HEADER_LENGTH);
  }

  /** Replay of a cut log from 0 or from a boundary that it keeps, whatever the cut. */
  lemma ReplayKept(generation: nat, ops: seq<Op>, n: nat, j: nat, offset: nat)
    requires GenerationFits(generation) && AllBounded(ops) && |ops| < U64_LIMIT
    requires n <= |LogBytes(generation, ops)| && j <= |ops|
    requires (offset == 0 && j == 0) || (offset == BoundaryOf(ops[..j]) && offset <= n)
    ensures var r := ReplayFrom(LogBytes(generation, ops)[..n], offset);
            var m := Kept(ops, n);
            && j <= m && r.ops == ops[j..m]
            && (r.lastGood == if n < HEADER_LENGTH then 0 else BoundaryOf(ops[..m]))
            && (r.status == CleanEof ==> n == r.lastGood)
  {
    hide ReplayFrom, LogBytes, Size, Bounded, Whole, AllBounded;
    if offset == 0 {
      TornWrite(generation, ops, n);
      var m := Kept(ops, n);
      assert ops[0..m] == ops[..m];
    } else {
      KeptFromBoundary(generation, ops, n, j);
    }
  }

  lemma KeptFromBoundary(generation: nat, ops: seq<Op>, n: nat, j: nat)
    requires GenerationFits(generation) && AllBounded(ops) && |ops| < U64_LIMIT
    requires n <= |LogBytes(generation, ops)| && j <= |ops| && BoundaryOf(ops[..j]) <= n
    ensures var r := ReplayFrom(LogBytes(generation, ops)[..n], BoundaryOf(ops[..j]));
            var m := Kept(ops, n);
            && j <= m && r.ops == ops[j..m] && r.lastGood == BoundaryOf(ops[..m])
              && (r.status == CleanEof ==> n == r.lastGood)
  {
    hide ReplayFrom, LogBytes, Size, Bounded, Whole, AllBounded;
    TornReplay(generation, ops, n, j);
    WholeSplits(ops, j, n - HEADER_LENGTH);
    var m := Kept(ops, n);
    assert ops[j..][..m - j] == ops[j..m];
  }

  /**
   * A snapshot holding the first `cover` records over `base`, whose offset is 0 or the
   * boundary after them, recovers exactly the surviving records over `base` from any cut
   * of the log that keeps that boundary.
   */
  lemma RecoverTorn(snapshot: Option<seq<byte>>, base: Store, generation: nat, ops: seq<Op>, n: nat,
                    store: Store, offset: nat, cover: nat)
    requires GenerationFits(generation) && AllBounded(ops) && |ops| < U64_LIMIT
    requires n <= |LogBytes(generation, ops)|
    requires cover <= |ops| && (cover > 0 || offset > 0 ==> BoundaryOf(ops[..cover]) <= n)
    requires Holds(snapshot, store, offset) && store == ApplyAll(base, ops[..cover])
    requires offset == 0 || offset == BoundaryOf(ops[..cover])
    ensures cover <= Kept(ops, n)
    ensures Recover(snapshot, LogBytes(generation, ops)[..n]) == Ok(ApplyAll(base, ops[..Kept(ops, n)]))
    ensures var r := ReplayFrom(LogBytes(generation, ops)[..n], offset);
            && (r.lastGood == if n < HEADER_LENGTH then 0 else BoundaryOf(ops[..Kept(ops, n)]))
            && (r.status == CleanEof ==> n == r.lastGood)
  {
    hide Holds, Recover, ReplayFrom, LogBytes, ApplyAll, Kept, Size, Bounded;
    var file, m := LogBytes(generation, ops)[..n], Kept(ops, n);
    RecoverHeld(snapshot, file, store, offset);
    if cover > 0 { KeptAtLeast(ops, cover, n); }
    ReplayKept(generation, ops, n, if offset == 0 then 0 else cover, offset);
    var a, b := ops[..cover], ops[cover..m];
    assert a + b == ops[..m];
    if offset == 0 {
      assert ops[0..m] == ops[..m];
      ReplayAbsorbs(base, a, b);
    } else {
      ApplyAppend(base, a, b);
    }
  }

  // ------------------------------------------------------------ an offset beyond the log

  /** From an offset within a frame's head of the end of the log, or beyond it, nothing is replayed. */
  lemma NothingBeyond(generation: nat, ops: seq<Op>, offset: nat)
    requires GenerationFits(generation) && |LogBytes(generation, ops)| <= offset + 8 && offset >= HEADER_LENGTH
    ensures ReplayFrom(LogBytes(generation, ops), offset).ops == []
  {
    hide LogBytes, HeaderValid, FromLE, Size, ReadFrame;
    var log := LogBytes(generation, ops);
    LogParts(generation, ops, |log|);
    assert log[..|log|] == log;
    HeaderReadsBack(generation, log);
  }

  /**
   * What a restart is for: with `store` in memory and `kept` in the log, whatever is logged
   * from then on, a later recovery finds it applied to that map.
   */
  ghost predicate RecoversAlways(snapshot: Option<seq<byte>>, generation: nat, kept: seq<Op>, store: Store) {
    forall more :: AllBounded(more) && |kept| + |more| < U64_LIMIT ==>
      Recover(snapshot, LogBytes(generation, kept + more)) == Ok(ApplyAll(store, more))
  }

  /** The map in memory after the restart. */
  function Restarted(snapshot: Option<seq<byte>>, generation: nat, kept: seq<Op>): Store {
    if Recover(snapshot, LogBytes(generation, kept)).Ok? then Recover(snapshot, LogBytes(generation, kept)).value else map[]
  }

  /**
   * The check on the two files is exact. A snapshot of the first `cover` records, at the
   * boundary after them, is found with a log of which the first `k` records are left. What is
   * logged after the restart is always recovered if and only if the snapshot's offset is
   * not beyond what is left of the log.
   */
  lemma RestartCheckIsExact(snapshot: Option<seq<byte>>, base: Store, generation: nat, ops: seq<Op>, cover: nat, k: nat)
    requires GenerationFits(generation) && AllBounded(ops) && |ops| < U64_LIMIT && cover <= |ops| && k <= |ops|
    requires Holds(snapshot, ApplyAll(base, ops[..cover]), BoundaryOf(ops[..cover]))
    ensures RecoversAlways(snapshot, generation, ops[..k], Restarted(snapshot, generation, ops[..k]))
            <==> BoundaryOf(ops[..cover]) <= BoundaryOf(ops[..k])
    ensures BoundaryOf(ops[..cover]) <= BoundaryOf(ops[..k]) ==>
              Restarted(snapshot, generation, ops[..k]) == ApplyAll(base, ops[..k])
  {
    hide Holds, RecoversAlways, Restarted, BoundaryOf, LogBytes, ApplyAll, AllBounded;
    BoundariesInOrder(ops, cover, k);
    if cover <= k {
      CheckSuffices(snapshot, base, generation, ops, cover, k);
    } else {
      CheckIsNeeded(snapshot, ApplyAll(base, ops[..cover]), generation, ops, cover, k);
    }
  }

  lemma BoundariesInOrder(ops: seq<Op>, i: nat, j: nat)
    requires i <= |ops| && j <= |ops|
    ensures BoundaryOf(ops[..i]) <= BoundaryOf(ops[..j]) <==> i <= j
    ensures i > j ==> BoundaryOf(ops[..i]) >= BoundaryOf(ops[..j]) + 21
  {
    hide Size;
    Grows(ops, i, j);
    Grows(ops, j, i);
  }

  lemma Grows(ops: seq<Op>, i: nat, j: nat)
    requires i <= |ops| && j <= |ops|
    ensures i < j ==> Size(ops[..i]) + 21 <= Size(ops[..j])
    ensures i == j ==> Size(ops[..i]) == Size(ops[..j])
  {
    hide Size;
    if i < j {
      SizeAppend(ops[..i], ops[i..j]);
      assert ops[..i] + ops[i..j] == ops[..j];
      FrameIsLong(ops[i..j]);
    }
  }

  lemma FrameIsLong(ops: seq<Op>)
    requires ops != []
    ensures Size(ops) >= 21
  {
    hide LE;
  }

  lemma CheckSuffices(snapshot: Option<seq<byte>>, base: Store, generation: nat, ops: seq<Op>, cover: nat, k: nat)
    requires GenerationFits(generation) && AllBounded(ops) && |ops| < U64_LIMIT && cover <= k <= |ops|
    requires Holds(snapshot, ApplyAll(base, ops[..cover]), BoundaryOf(ops[..cover]))
    ensures Restarted(snapshot, generation, ops[..k]) == ApplyAll(base, ops[..k])
    ensures RecoversAlways(snapshot, generation, ops[..k], ApplyAll(base, ops[..k]))
  {
    hide Holds, BoundaryOf, LogBytes, ApplyAll, Recover, Bounded;
    forall more | AllBounded(more) && k + |more| < U64_LIMIT
      ensures Recover(snapshot, LogBytes(generation, ops[..k] + more)) == Ok(ApplyAll(ApplyAll(base, ops[..k]), more))
    {
      LaterIsRecovered(snapshot, base, generation, ops[..k], cover, more, ops[..cover]);
    }
    LaterIsRecovered(snapshot, base, generation, ops[..k], cover, [], ops[..cover]);
    assert ops[..k] + [] == ops[..k];
    ApplyNone(ApplyAll(base, ops[..k]));
  }

  lemma LaterIsRecovered(snapshot: Option<seq<byte>>, base: Store, generation: nat, kept: seq<Op>, cover: nat,
                         more: seq<Op>, covered: seq<Op>)
    requires GenerationFits(generation) && AllBounded(kept) && AllBounded(more) && |kept| + |more| < U64_LIMIT
    requires cover <= |kept| && covered == kept[..cover]
    requires Holds(snapshot, ApplyAll(base, covered), BoundaryOf(covered))
    ensures Recover(snapshot, LogBytes(generation, kept + more)) == Ok(ApplyAll(ApplyAll(base, kept), more))
  {
    hide Holds, BoundaryOf, LogBytes, ApplyAll, Recover, Bounded, Kept, ReplayFrom;
    var all := kept + more;
    var log := LogBytes(generation, all);
    assert all[..cover] == covered && all[..|all|] == all && log[..|log|] == log;
    LogParts(generation, all, 0);
    BoundariesInOrder(all, cover, |all|);
    RecoverTorn(snapshot, base, generation, all, |log|, ApplyAll(base, covered), BoundaryOf(covered), cover);
    EverythingKept(all);
    ApplyAppend(base, kept, more);
  }

  lemma EverythingKept(ops: seq<Op>)
    ensures Kept(ops, BoundaryOf(ops)) == |ops|
  {
    hide Size, Whole;
    assert ops[..|ops|] == ops;
    KeptAtLeast(ops, |ops|, BoundaryOf(ops));
  }

  /** One small operation that changes the map, logged after the restart, lies below the offset and is skipped. */
  lemma CheckIsNeeded(snapshot: Option<seq<byte>>, store: Store, generation: nat, ops: seq<Op>, cover: nat, k: nat)
    requires GenerationFits(generation) && AllBounded(ops) && |ops| < U64_LIMIT && k < cover <= |ops|
    requires Holds(snapshot, store, BoundaryOf(ops[..cover]))
    ensures Restarted(snapshot, generation, ops[..k]) == store && !RecoversAlways(snapshot, generation, ops[..k], store)
  {
    hide Holds, BoundaryOf, LogBytes, Recover, Bounded, ReplayFrom;
    var kept, offset := ops[..k], BoundaryOf(ops[..cover]);
    var op := if [] in store then Delete([]) else Set([], []);
    SmallOp(op);
    BoundariesInOrder(ops, cover, k);
    HeaderFirst(ops[..cover]);
    Skipped(snapshot, store, generation, kept, offset, []);
    Skipped(snapshot, store, generation, kept, offset, [op]);
    assert kept + [] == kept;
    OneChange(store, op);
    assert AllBounded([op]) && |kept| + |[op]| < U64_LIMIT;
  }

  lemma HeaderFirst(ops: seq<Op>)
    ensures BoundaryOf(ops) >= HEADER_LENGTH
  {
    hide Size;
  }

  lemma SmallOp(op: Op)
    requires op == Delete([]) || op == Set([], [])
    ensures Bounded(op) && Size([op]) <= 25
  {
    hide LE;
    assert Size([op][1..]) == 0;
  }

  lemma OneChange(store: Store, op: Op)
    requires op == if [] in store then Delete([]) else Set([], [])
    ensures ApplyAll(store, [op]) != store
  {
    assert ApplyAll(store, [op]) == ApplyAll(Apply(store, op), []);
  }

  lemma Skipped(snapshot: Option<seq<byte>>, store: Store, generation: nat, kept: seq<Op>, offset: nat, more: seq<Op>)
    requires GenerationFits(generation) && Holds(snapshot, store, offset) && offset >= HEADER_LENGTH
    requires BoundaryOf(kept) + 21 <= offset && Size(more) <= 25
    ensures Recover(snapshot, LogBytes(generation, kept + more)) == Ok(store)
  {
    hide Holds, LogBytes, Recover, ReplayFrom, Size, ApplyAll;
    LogParts(generation, kept + more, 0);
    SizeAppend(kept, more);
    NothingBeyond(generation, kept + more, offset);
    RecoverHeld(snapshot, LogBytes(generation, kept + more), store, offset);
    ApplyNone(store);
  }

  /**
   * Such files: the write that the snapshot counted was lost from the log, two others were
   * logged in its place, and recovery finds only the second of them.
   */
  lemma AcknowledgedWriteSkipped()
    ensures var snapshot := Some(SnapshotBytes([([1], [1])], BoundaryOf([Set([1], [1])])));
            var log := LogBytes(1, [Set([2], [2]), Set([3], [3])]);
            && ReplayFrom(log, 0).ops == [Set([2], [2]), Set([3], [3])]
            && Recover(snapshot, log) == Ok(map[[1] := [1], [3] := [3]])
  {
    hide Holds, Recover, ReplayFrom, LogBytes, LE, SnapshotBytes, BoundaryOf;
    var lost, second, third := Set([1], [1]), Set([2], [2]), Set([3], [3]);
    var ops := [second, third];
    var offset := BoundaryOf([lost]);
    SameSize(lost, second);
    OneEntry([1], [1]);
    SavedHolds([([1], [1])], map[[1] := [1]], offset);
    SmallBounded(second);
    SmallBounded(third);
    WholeLog(1, ops);
    var log := LogBytes(1, ops);
    assert ops[..1] == [second] && ops[1..] == [third] && log[..|log|] == log && ops[..2] == ops;
    BoundariesInOrder(ops, 1, 2);
    ReplayKept(1, ops, |log|, 1, offset);
    EverythingKept(ops);
    RecoverHeld(Some(SnapshotBytes([([1], [1])], offset)), log, map[[1] := [1]], offset);
    assert ApplyAll(map[[1] := [1]], [third]) == ApplyAll(Apply(map[[1] := [1]], third), []);
  }

  lemma OneEntry(k: Key, v: Value)
    requires |k| <= 1 && |v| <= 1
    ensures Enumerates([(k, v)], map[k := v]) && AllEncodable([(k, v)]) && StoreFits(map[k := v])
  {
    assert [(k, v)][1..] == [];
    assert MapOf(map[], [(k, v)]) == MapOf(map[][k := v], []);
  }

  lemma SameSize(a: Op, b: Op)
    requires a.Set? && b.Set? && |a.key| == |b.key| && |a.value| == |b.value|
    ensures BoundaryOf([a]) == BoundaryOf([b]) == 49 + |a.key| + |a.value|
  {
    hide LE;
    assert Size([a][1..]) == 0 && Size([b][1..]) == 0;
  }

  lemma SmallBounded(op: Op)
    requires op.Set? && |op.key| <= 1 && |op.value| <= 1
    ensures Bounded(op)
  {
    hide LE;
  }
}
