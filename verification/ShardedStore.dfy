/**
 * The store object: 64 shard maps changed in place, the log written before memory,
 * the snapshot file, and the startup sequence. Each method is what one thread does
 * while it holds the locks the operation takes; interleavings are in `Engine`.
 */
module ShardedStore {
  import opened Bytes
  import opened Record
  import opened Replay
  import opened ReplayLaws
  import opened ReplayLoop
  import opened Snapshot
  import opened Recovery
  import opened Wal
  import opened Crc
  import opened Checkpoints

  const SHARD_COUNT: nat := 64

  // ------------------------------------------------------------ the shards as one map

  /** What collecting the shards gives: earlier entries win, as an insert does. */
  function Merged(parts: seq<Store>): Store {
    if parts == [] then map[] else parts[|parts| - 1] + Merged(parts[..|parts| - 1])
  }

  lemma NoParts()
    ensures Merged([]) == map[]
  {
  }

  lemma MergedOneMore(parts: seq<Store>, i: nat)
    requires i < |parts|
    ensures Merged(parts[..i + 1]) == parts[i] + Merged(parts[..i])
  {
    assert parts[..i + 1][..i] == parts[..i];
  }

  /** The low six bits of the key's hash. */
  function ShardIndex(hash: Key -> nat, k: Key): (i: nat)
    ensures i < SHARD_COUNT
  {
    hash(k) % SHARD_COUNT
  }

  lemma LowBits(hash: Key -> nat, k: Key)
    ensures ShardIndex(hash, k) < 64 && exists high: nat :: hash(k) == 64 * high + ShardIndex(hash, k)
  {
    assert hash(k) == 64 * (hash(k) / 64) + ShardIndex(hash, k);
  }

  /** Each key lives in its own shard only. */
  ghost predicate Partitioned(parts: seq<Store>, hash: Key -> nat) {
    forall i, k :: 0 <= i < |parts| && k in parts[i] ==> ShardIndex(hash, k) == i
  }

  /** A key is in the merged map exactly when it is in its own shard, with that value. */
  lemma {:induction false} MergedAt(parts: seq<Store>, hash: Key -> nat, k: Key)
    requires Partitioned(parts, hash)
    ensures k in Merged(parts) <==> ShardIndex(hash, k) < |parts| && k in parts[ShardIndex(hash, k)]
    ensures k in Merged(parts) ==> Merged(parts)[k] == parts[ShardIndex(hash, k)][k]
    decreases |parts|
  {
    hide ShardIndex;
    if parts != [] {
      var n := |parts| - 1;
      assert forall i :: 0 <= i < n ==> parts[..n][i] == parts[i];
      MergedAt(parts[..n], hash, k);
    }
  }

  /** Changing one key in its shard changes that key of the map, and nothing else. */
  lemma MergedUpdate(parts: seq<Store>, hash: Key -> nat, op: Op)
    requires |parts| == SHARD_COUNT && Partitioned(parts, hash)
    ensures var i := ShardIndex(hash, op.key);
            var after := parts[i := Apply(parts[i], op)];
            Partitioned(after, hash) && Merged(after) == Apply(Merged(parts), op)
  {
    hide ShardIndex, Merged;
    var i := ShardIndex(hash, op.key);
    var after := parts[i := Apply(parts[i], op)];
    forall k: Key
      ensures AgreeOn(Merged(after), Apply(Merged(parts), op), k)
    {
      MergedAt(parts, hash, k);
      MergedAt(after, hash, k);
    }
    AgreeEverywhere(Merged(after), Apply(Merged(parts), op));
  }

  /** Sizes of the shards add up to the size of the map. */
  lemma MergedSize(parts: seq<Store>, hash: Key -> nat, n: nat)
    requires Partitioned(parts, hash) && n < |parts|
    ensures |Merged(parts[..n + 1])| == |Merged(parts[..n])| + |parts[n]|
  {
    hide ShardIndex;
    var a, b := parts[n], Merged(parts[..n]);
    assert parts[..n + 1][..n] == parts[..n];
    assert forall i :: 0 <= i < n ==> parts[..n][i] == parts[i];
    forall k | k in a
      ensures k !in b
    {
      MergedAt(parts[..n], hash, k);
    }
    DisjointSize(a, b);
  }

  lemma DisjointSize(a: Store, b: Store)
    requires forall k :: k in a ==> k !in b
    ensures |a + b| == |a| + |b|
  {
    assert (a + b).Keys == a.Keys + b.Keys;
    assert a.Keys !! b.Keys;
  }

  lemma {:induction false} MergedEmpty(parts: seq<Store>)
    requires forall i :: 0 <= i < |parts| ==> parts[i] == map[]
    ensures Merged(parts) == map[]
    decreases |parts|
  {
    if parts != [] {
      MergedEmpty(parts[..|parts| - 1]);
    }
  }

  // ------------------------------------------------------------ files and memory belong together

  /** The log object has appended `ops` to a clean file and nothing else is in it. */
  ghost predicate CleanLog(file: seq<byte>, generation: nat, ops: seq<Op>) {
    && GenerationFits(generation) && AllBounded(ops) && |ops| < U64_LIMIT
    && (file == LogBytes(generation, ops) || (file == [] && ops == []))
  }

  /**
   * The snapshot holds the first `cover` logged operations over `base`, at offset 0 or at
   * the boundary after them, and memory is all of them over `base`.
   */
  ghost predicate Backed(snapshot: Option<seq<byte>>, file: seq<byte>, generation: nat, ops: seq<Op>,
                         base: Store, cover: nat, contents: Store) {
    && CleanLog(file, generation, ops) && cover <= |ops| && contents == ApplyAll(base, ops)
    && (|| Holds(snapshot, ApplyAll(base, ops[..cover]), 0)
        || (file != [] && Holds(snapshot, ApplyAll(base, ops[..cover]), BoundaryOf(ops[..cover]))))
  }

  /** Then recovery from the two files gives exactly the contents of memory. */
  lemma BackedRecovers(snapshot: Option<seq<byte>>, file: seq<byte>, generation: nat, ops: seq<Op>,
                       base: Store, cover: nat, contents: Store)
    requires Backed(snapshot, file, generation, ops, base, cover, contents)
    ensures Recover(snapshot, file) == Ok(contents)
  {
    hide Holds, LogBytes, ApplyAll, Recover, BoundaryOf, AllBounded, ReplayFrom;
    var store := ApplyAll(base, ops[..cover]);
    if file == [] && ops == [] {
      EmptyLogRecovers(snapshot, base, cover, contents);
    } else {
      WholeLogRecovers(snapshot, generation, ops, base, cover, if Holds(snapshot, store, 0) then 0 else BoundaryOf(ops[..cover]));
    }
  }

  lemma WholeLogRecovers(snapshot: Option<seq<byte>>, generation: nat, ops: seq<Op>, base: Store, cover: nat, offset: nat)
    requires GenerationFits(generation) && AllBounded(ops) && |ops| < U64_LIMIT && cover <= |ops|
    requires offset == 0 || offset == BoundaryOf(ops[..cover])
    requires Holds(snapshot, ApplyAll(base, ops[..cover]), offset)
    ensures Recover(snapshot, LogBytes(generation, ops)) == Ok(ApplyAll(base, ops))
  {
    hide Holds, LogBytes, ApplyAll, Recover, BoundaryOf, AllBounded, ReplayFrom, Kept;
    var log := LogBytes(generation, ops);
    LogParts(generation, ops, 0);
    PrefixFits(ops, cover);
    assert log[..|log|] == log && ops[..|ops|] == ops;
    RecoverTorn(snapshot, base, generation, ops, |log|, ApplyAll(base, ops[..cover]), offset, cover);
    EverythingKept(ops);
  }

  lemma EmptyLogRecovers(snapshot: Option<seq<byte>>, base: Store, cover: nat, contents: Store)
    requires cover == 0 && contents == ApplyAll(base, []) && Holds(snapshot, ApplyAll(base, [][..cover]), 0)
    ensures Recover(snapshot, []) == Ok(contents)
  {
    hide LoadOf, Scan;
  }

  lemma PrefixFits(ops: seq<Op>, n: nat)
    requires n <= |ops|
    ensures BoundaryOf(ops[..n]) <= BoundaryOf(ops)
  {
    hide Size;
    SizeMonotone(ops, n, |ops|);
    assert ops[..|ops|] == ops;
  }

  /** One more logged operation, applied to memory, keeps files and memory together. */
  lemma BackedAppend(snapshot: Option<seq<byte>>, file: seq<byte>, generation: nat, ops: seq<Op>,
                     base: Store, cover: nat, contents: Store, op: Op)
    requires Backed(snapshot, file, generation, ops, base, cover, contents)
    requires Bounded(op) && |ops| + 1 < U64_LIMIT
    ensures Backed(snapshot, LogBytes(generation, ops + [op]), generation, ops + [op], base, cover, Apply(contents, op))
  {
    hide Holds, LogBytes, BoundaryOf, Bounded, Apply, ApplyAll;
    var more := ops + [op];
    assert more[..cover] == ops[..cover];
    ApplyAppend(base, ops, [op]);
    ApplyOne(contents, op);
    LogIsLong(generation, more);
  }

  lemma CleanIsShort(file: seq<byte>, generation: nat, ops: seq<Op>)
    requires CleanLog(file, generation, ops)
    ensures |ops| < U64_LIMIT
  {
  }

  /** A log object that has not failed has a clean file. */
  lemma LogIsClean(log: WriteAheadLog)
    requires log.Valid() && log.format.Current() && !log.failed
    ensures CleanLog(log.file, log.format.generation, log.ops)
  {
    hide LogBytes, Stats.Balanced, Bounded;
    assert log.ops + [] == log.ops;
  }

  /** The map saved with the present end of the log replaces the old snapshot. */
  lemma BackedSave(snapshot: Option<seq<byte>>, saved: Option<seq<byte>>, file: seq<byte>, generation: nat, ops: seq<Op>,
                   base: Store, cover: nat, contents: Store, offset: nat)
    requires Backed(snapshot, file, generation, ops, base, cover, contents)
    requires offset == 0 || offset == |file|
    requires LoadPath(saved) == Loaded(contents, |contents|, offset) && offset <= MAX_STREAM_OFFSET
    ensures Backed(saved, file, generation, ops, base, |ops|, contents)
  {
    hide LoadOf, LogBytes, Bounded, ApplyAll, BoundaryOf;
    assert ops[..|ops|] == ops;
    LogParts(generation, ops, 0);
  }

  /** A map saved at offset 0 goes with an empty log of any generation. */
  lemma BackedFresh(saved: Option<seq<byte>>, generation: nat, contents: Store)
    requires GenerationFits(generation) && LoadPath(saved) == Loaded(contents, |contents|, 0)
    ensures Backed(saved, [], generation, [], contents, 0, contents)
  {
    hide LoadOf, LogBytes;
  }

  // ------------------------------------------------------------ the object

  class KVStore {
    const hash: Key -> nat
    const wal: WriteAheadLog?
    const snapshot: SnapshotFile?
    const shards: array<Store>
    var control: Control

    ghost predicate Valid()
      reads this, shards, wal
    {
      && shards.Length == SHARD_COUNT && Partitioned(shards[..], hash)
      && (wal != null ==> wal.Valid() && !wal.format.legacy)
    }

    /** The one map that the shards hold together. */
    ghost function Contents(): Store
      reads this, shards
    {
      Merged(shards[..])
    }

    /** Log, snapshot and memory belong together, and the log has not failed. */
    ghost predicate Recoverable()
      reads this, shards, wal, snapshot
    {
      && wal != null && snapshot != null && wal.format.Current() && !wal.failed
      && exists base, cover ::
           Backed(snapshot.published, wal.file, wal.format.generation, wal.ops, base, cover, Contents())
    }

    constructor (hash: Key -> nat, wal: WriteAheadLog?, snapshot: SnapshotFile?)
      requires wal != null ==> wal.Valid() && !wal.format.legacy
      ensures Valid() && fresh(shards) && Contents() == map[] && control == Control(0, false, 0, false)
      ensures this.hash == hash && this.wal == wal && this.snapshot == snapshot
    {
      this.hash, this.wal, this.snapshot := hash, wal, snapshot;
      shards := new Store[SHARD_COUNT](_ => map[]);
      control := Control(0, false, 0, false);
      new;
      MergedEmpty(shards[..]);
    }

    // ------------------------------------------------------------ reads

    method Get(key: Key) returns (value: Option<Value>)
      requires Valid()
      ensures value == if key in Contents() then Some(Contents()[key]) else None
    {
      hide WriteAheadLog.Valid, ShardIndex;
      MergedAt(shards[..], hash, key);
      var data := shards[ShardIndex(hash, key)];
      if key !in data { return None; }
      return Some(data[key]);
    }

    method Contains(key: Key) returns (found: bool)
      requires Valid()
      ensures found == (key in Contents())
    {
      hide WriteAheadLog.Valid, ShardIndex;
      MergedAt(shards[..], hash, key);
      found := key in shards[ShardIndex(hash, key)];
    }

    method Size() returns (size: nat)
      requires Valid()
      ensures size == |Contents()|
    {
      hide WriteAheadLog.Valid, Merged, Partitioned;
      size := 0;
      ghost var parts := shards[..];
      MergedEmpty(parts[..0]);
      for i := 0 to shards.Length
        invariant size == |Merged(parts[..i])|
      {
        MergedSize(parts, hash, i);
        size := size + |shards[i]|;
      }
      assert parts[..|parts|] == parts;
    }

    method CollectDataLocked() returns (data: Store)
      requires Valid()
      ensures data == Contents()
    {
      hide WriteAheadLog.Valid, Merged, Partitioned;
      data := map[];
      ghost var parts := shards[..];
      NoParts();
      for i := 0 to shards.Length
        invariant data == Merged(parts[..i])
      {
        MergedOneMore(parts, i);
        data := shards[i] + data;
      }
      assert parts[..|parts|] == parts;
    }

    // ------------------------------------------------------------ writes

    /** Changes memory under the shard's lock. */
    method Mutate(op: Op)
      requires Valid()
      modifies shards
      ensures Valid() && Contents() == Apply(old(Contents()), op)
    {
      hide WriteAheadLog.Valid, ShardIndex, Merged, Partitioned, Apply;
      var i := ShardIndex(hash, op.key);
      MergedUpdate(shards[..], hash, op);
      ghost var after := shards[..][i := Apply(shards[i], op)];
      shards[i] := Apply(shards[i], op);
      assert shards[..] == after;
    }

    /**
     * Log first, then memory, then the counter. A failed append, or an earlier checkpoint
     * failure, leaves memory and counter alone; after a successful one recovery would still
     * rebuild exactly what memory holds.
     */
    method Write(op: Op, io: Io) returns (ok: bool)
      requires Valid()
      modifies this`control, shards, wal
      ensures Valid()
      ensures Contents() == if ok then Apply(old(Contents()), op) else old(Contents())
      ensures if ok && snapshot != null then Wrote(old(control), control) else control == old(control)
      ensures snapshot != null && old(control).error ==> !ok && (wal != null ==> wal.ops == old(wal.ops))
      ensures wal != null ==> wal.ops == if ok then old(wal.ops) + [op] else old(wal.ops)
      ensures ok == (!(snapshot != null && old(control).error) && (wal != null ==> old(wal.Admits(op, io))))
      ensures ok && old(Recoverable()) ==> Recoverable()
    {
      hide WriteAheadLog.Valid, Merged, Partitioned, Apply, Emission, Completes, LogBytes, Bounded, Backed;
      if snapshot != null && control.error { return false; }
      ghost var backed := Recoverable();
      ghost var contents := Contents();
      ghost var published := if snapshot == null then None else snapshot.published;
      ghost var file := if wal == null then [] else wal.file;
      ghost var generation := if wal == null then 0 else wal.format.generation;
      ghost var ops := if wal == null then [] else wal.ops;
      ghost var base: Store, cover: nat := map[], 0;
      if backed {
        base, cover :| Backed(published, file, generation, ops, base, cover, contents);
      }
      if wal != null {
        ok := wal.Append(op, io);
        if !ok { return; }
      }
      ok := true;
      Mutate(op);
      if snapshot != null {
        control := control.(writes := control.writes + 1);
        if control.writes == SNAPSHOT_INTERVAL { control := control.(requested := true); }
      }
      if backed {
        LogIsClean(wal);
        CleanIsShort(wal.file, generation, wal.ops);
        BackedAppend(published, file, generation, ops, base, cover, contents, op);
      }
    }

    method Set(key: Key, value: Value, io: Io) returns (ok: bool)
      requires Valid()
      modifies this`control, shards, wal
      ensures Valid() && (ok && old(Recoverable()) ==> Recoverable())
      ensures Contents() == if ok then old(Contents())[key := value] else old(Contents())
      ensures if ok && snapshot != null then Wrote(old(control), control) else control == old(control)
      ensures wal != null ==> wal.ops == if ok then old(wal.ops) + [Op.Set(key, value)] else old(wal.ops)
      ensures ok == (!(snapshot != null && old(control).error)
                     && (wal != null ==> old(wal.Admits(Op.Set(key, value), io))))
    {
      hide WriteAheadLog.Valid, Merged, Partitioned, Backed;
      ok := Write(Op.Set(key, value), io);
    }

    /** A deletion is logged whether or not the key is there; the result says whether it was. */
    method Delete(key: Key, io: Io) returns (erased: Outcome<bool>)
      requires Valid()
      modifies this`control, shards, wal
      ensures Valid() && (erased.Ok? && old(Recoverable()) ==> Recoverable())
      ensures erased.Ok? ==> erased.value == (key in old(Contents())) && Contents() == old(Contents()) - {key}
      ensures erased.Threw? ==> Contents() == old(Contents())
      ensures if erased.Ok? && snapshot != null then Wrote(old(control), control) else control == old(control)
      ensures wal != null ==> wal.ops == if erased.Ok? then old(wal.ops) + [Op.Delete(key)] else old(wal.ops)
      ensures erased.Ok? == (!(snapshot != null && old(control).error)
                             && (wal != null ==> old(wal.Admits(Op.Delete(key), io))))
    {
      hide WriteAheadLog.Valid, Merged, Partitioned, Backed;
      var found := Contains(key);
      var ok := Write(Op.Delete(key), io);
      erased := if ok then Ok(found) else Threw;
    }

    // ------------------------------------------------------------ replacing everything

    method ClearShards()
      requires Valid()
      modifies shards
      ensures Valid() && Contents() == map[]
    {
      hide WriteAheadLog.Valid, Merged;
      for i := 0 to shards.Length
        invariant forall j :: 0 <= j < i ==> shards[j] == map[]
        invariant wal != null ==> wal.Valid() && !wal.format.legacy
      {
        shards[i] := map[];
      }
      MergedEmpty(shards[..]);
    }

    /** Clears memory; nothing is logged. */
    method Clear()
      requires Valid()
      modifies this`control, shards
      ensures Valid() && Contents() == map[] && Captured(old(control), control)
    {
      hide WriteAheadLog.Valid, Merged, Partitioned;
      ClearShards();
      control := control.(writes := 0);
    }

    /** Distributes a map over the shards; collecting afterwards gives it back. */
    method ReplaceDataLocked(data: Store)
      requires Valid()
      modifies shards
      ensures Valid() && Contents() == data
    {
      hide WriteAheadLog.Valid, Merged, Partitioned, ShardIndex;
      ClearShards();
      var rest := data;
      while rest != map[]
        invariant Valid()
        invariant forall k :: k in rest ==> k in data && rest[k] == data[k] && k !in Contents()
        invariant forall k :: k in data && k !in rest ==> k in Contents() && Contents()[k] == data[k]
        invariant forall k :: k in Contents() ==> k in data
        decreases |rest|
      {
        var k :| k in rest;
        ghost var before := Contents();
        Mutate(Op.Set(k, rest[k]));
        Smaller(rest, k);
        rest := rest - {k};
      }
      assert Contents() == data;
    }

    // ------------------------------------------------------------ snapshots and compaction

    /** Saves the map together with the present end of the log. */
    method SaveSnapshot(progress: Progress) returns (saved: Outcome<bool>)
      requires Valid() && (wal != null ==> |wal.file| <= MAX_STREAM_OFFSET)
      modifies this`control, snapshot
      ensures Valid() && Contents() == old(Contents())
      ensures saved == Ok(false) <==> snapshot == null
      ensures saved == Ok(true) ==>
                LoadPath(snapshot.published) == Loaded(Contents(), |Contents()|, if wal == null then 0 else |wal.file|)
      ensures if saved == Ok(true) then Replaced(old(control), control) else Cancelled(old(control), control)
      ensures saved.Threw? ==> snapshot.published == old(snapshot.published)
                               || IsSaved(snapshot.published, Contents(), if wal == null then 0 else |wal.file|)
      ensures saved == Ok(true) <==>
                && snapshot != null && (wal != null ==> wal.streamOpen) && progress == Complete
                && |Contents()| < U32_LIMIT && forall k :: k in Contents() ==> EntryFits((k, Contents()[k]))
      ensures saved == Ok(true) && old(Recoverable()) ==> Recoverable()
    {
      hide WriteAheadLog.Valid, Merged, Partitioned, Backed, LoadOf, EntryFits, IsSaved;
      CancelPendingCheckpoint();
      if snapshot == null { return Ok(false); }
      var offset := Ok(0);
      if wal != null { offset := wal.CurrentOffset(); }
      if offset.Threw? { return Threw; }
      ghost var was := snapshot.published;
      ghost var contents := Contents();
      ghost var backed := Recoverable();
      var data := CollectDataLocked();
      var ok := snapshot.SaveVerified(data, offset.value, progress);
      if !ok { return Threw; }
      control := control.(writes := 0);
      if backed {
        ghost var base, cover :| Backed(was, wal.file, wal.format.generation, wal.ops, base, cover, contents);
        BackedSave(was, snapshot.published, wal.file, wal.format.generation, wal.ops, base, cover, contents, offset.value);
      }
      return Ok(true);
    }

    method CancelPendingCheckpoint()
      modifies this`control
      ensures Cancelled(old(control), control)
    {
      control := control.(epoch := control.epoch + 1, requested := false);
    }

    /** The checkpoint thread takes up a request, if there is one, and notes the epoch. */
    method TakeRequest() returns (epoch: Option<nat>)
      modifies this`control
      ensures if old(control).requested then Took(old(control), control) && epoch == Some(old(control).epoch)
              else control == old(control) && epoch == None
    {
      if !control.requested { return None; }
      control := control.(requested := false);
      return Some(control.epoch);
    }

    /**
     * What the checkpoint thread then does with the request. A request cancelled meanwhile is
     * dropped; a failure is kept and stops later writes.
     */
    method RunCheckpoint(epoch: nat, progress: Progress) returns (ran: bool)
      requires Valid() && snapshot != null && (wal != null ==> |wal.file| <= MAX_STREAM_OFFSET)
      modifies this`control, snapshot
      ensures Valid() && Contents() == old(Contents())
      ensures epoch != old(control).epoch ==> !ran && control == old(control) && unchanged(snapshot)
      ensures epoch == old(control).epoch && !ran ==> Failed(old(control), control)
      ensures ran ==> Captured(old(control), control)
      ensures var stuck := wal != null && !wal.streamOpen;
              && (ran <==> epoch == old(control).epoch && !stuck && progress == Complete && |Contents()| < U32_LIMIT
                           && forall k :: k in Contents() ==> EntryFits((k, Contents()[k])))
              && (epoch == old(control).epoch && stuck ==> unchanged(snapshot) && control.writes == old(control).writes)
              && (epoch == old(control).epoch && !stuck ==> control.writes == 0)
      ensures snapshot.published == old(snapshot.published)
              || IsSaved(snapshot.published, Contents(), if wal == null then 0 else |wal.file|)
      ensures ran ==>
                LoadPath(snapshot.published) == Loaded(Contents(), |Contents()|, if wal == null then 0 else |wal.file|)
      ensures ran && old(Recoverable()) ==> Recoverable()
    {
      hide WriteAheadLog.Valid, Merged, Partitioned, Backed, LoadOf, EntryFits, IsSaved;
      if epoch != control.epoch { return false; }
      var offset := Ok(0);
      var data := CollectDataLocked();
      if wal != null { offset := wal.CurrentOffset(); }
      if offset.Threw? {
        control := control.(error := true, requested := false);
        return false;
      }
      ghost var was, contents, backed := snapshot.published, Contents(), Recoverable();
      control := control.(writes := 0);
      ran := snapshot.SaveVerified(data, offset.value, progress);
      if !ran {
        control := control.(error := true, requested := false);
      } else if backed {
        ghost var base, cover :| Backed(was, wal.file, wal.format.generation, wal.ops, base, cover, contents);
        BackedSave(was, snapshot.published, wal.file, wal.format.generation, wal.ops, base, cover, contents, offset.value);
      }
    }

    /**
     * Saves the map at offset 0 and then empties the log. If the save fails the log is
     * untouched; once it has succeeded recovery gives the map whether or not the rotation does.
     */
    method CompactPersistence(progress: Progress, hook: bool, sync: bool) returns (done: Outcome<bool>)
      requires Valid()
      modifies this`control, wal, snapshot
      ensures Valid() && Contents() == old(Contents())
      ensures done == Ok(false) <==> snapshot == null
      ensures var saves := progress == Complete && |Contents()| < U32_LIMIT
                           && forall k :: k in Contents() ==> EntryFits((k, Contents()[k]));
              && (snapshot != null && !saves ==> done.Threw? && (wal != null ==> unchanged(wal)))
              && (snapshot != null && saves && old(Recoverable()) ==> Recoverable())
              && (done == Ok(true) <==> snapshot != null && saves && (wal != null ==> old(wal.Rotates(hook, sync))))
      ensures if done == Ok(true) then Replaced(old(control), control) else Cancelled(old(control), control)
      ensures snapshot != null ==>
                snapshot.published == old(snapshot.published) || IsSaved(snapshot.published, Contents(), 0)
      ensures done == Ok(true) ==> LoadPath(snapshot.published) == Loaded(Contents(), |Contents()|, 0)
      ensures done == Ok(true) && wal != null ==> wal.file == [] && wal.ops == [] && (!wal.failed ==> Recoverable())
    {
      hide WriteAheadLog.Valid, Merged, Partitioned, Backed, LoadOf, EntryFits, IsSaved;
      CancelPendingCheckpoint();
      if snapshot == null { return Ok(false); }
      ghost var was := snapshot.published;
      ghost var contents := Contents();
      ghost var backed := Recoverable();
      var data := CollectDataLocked();
      var ok := snapshot.SaveVerified(data, 0, progress);
      if !ok { return Threw; }
      if backed {
        ghost var base, cover :| Backed(was, wal.file, wal.format.generation, wal.ops, base, cover, contents);
        BackedSave(was, snapshot.published, wal.file, wal.format.generation, wal.ops, base, cover, contents, 0);
      }
      if wal != null {
        ok := wal.Rotate(hook, sync);
        if !wal.failed && wal.format.Current() && wal.file == [] && wal.ops == [] {
          LogIsClean(wal);
          BackedFresh(snapshot.published, wal.format.generation, contents);
        }
        if !ok { return Threw; }
      }
      control := control.(writes := 0);
      return Ok(true);
    }

    // ------------------------------------------------------------ startup

    /** Replaces memory by the snapshot; with no snapshot memory becomes empty. */
    method LoadSnapshot(source: SnapshotFile) returns (result: LoadResult)
      requires Valid()
      modifies this`control, shards
      ensures Valid() && result == LoadPath(source.published) && Cancelled(old(control), control)
      ensures Contents() == if result.Loaded? then result.store else if result.NotLoaded? then map[] else old(Contents())
    {
      hide WriteAheadLog.Valid, Merged, Partitioned, LoadOf;
      CancelPendingCheckpoint();
      var data;
      result, data := source.Load(map[]);
      if result.LoadThrew? { return; }
      ReplaceDataLocked(data);
    }

    method ReplayFromWal(log: WriteAheadLog, offset: nat) returns (count: Outcome<nat>)
      requires Valid() && log.Valid()
      modifies shards
      ensures Valid() && (count.Threw? <==> offset > MAX_STREAM_OFFSET)
      ensures count.Ok? ==> count.value == |ReplayFrom(log.file, offset).ops|
      ensures Contents() == if count.Ok? then ApplyAll(old(Contents()), ReplayFrom(log.file, offset).ops) else old(Contents())
    {
      hide Merged, Partitioned, ReplayFrom, ApplyAll, FormatOk, Stats.Balanced, IsTable;
      var data := CollectDataLocked();
      var report;
      report, data := ReplayFromDetailed(log.table, log.file, offset, data);
      if report.Threw? { return Threw; }
      ReplaceDataLocked(data);
      return Ok(report.value.applied);
    }

    /**
     * Load the snapshot, then replay the log from its offset: exactly `Recover`. A snapshot
     * that is there but cannot be loaded stops the start, whatever the log holds, and leaves
     * memory as it was; one that is absent, or all but absent, is followed by the whole log.
     */
    method Startup() returns (ok: bool)
      requires Valid() && wal != null && snapshot != null
      modifies this`control, shards
      ensures Valid() && ok == Recover(snapshot.published, wal.file).Ok? && Cancelled(old(control), control)
      ensures ok ==> Contents() == Recover(snapshot.published, wal.file).value
      ensures snapshot.published.Some? && Damaged(snapshot.published.value) ==> !ok && Contents() == old(Contents())
      ensures snapshot.published.None? || |snapshot.published.value| < 4 ==>
                ok && Contents() == ApplyAll(map[], ReplayFrom(wal.file, 0).ops)
      ensures var loaded := LoadPath(snapshot.published);
              !ok ==> Contents() == if loaded.Loaded? then loaded.store else old(Contents())
    {
      hide WriteAheadLog.Valid, Merged, Partitioned, LoadOf, ReplayFrom, ApplyAll, Damaged;
      if snapshot.published.Some? && Damaged(snapshot.published.value) {
        DamagedThrows(snapshot.published.value);
      }
      if snapshot.published.None? || |snapshot.published.value| < 4 {
        NoSnapshotReplaysAll(snapshot.published, wal.file);
      }
      var result := LoadSnapshot(snapshot);
      if result.LoadThrew? { return false; }
      var count := ReplayFromWal(wal, if result.Loaded? then result.offset else 0);
      ok := count.Ok?;
    }
  }

  /** Whenever log, snapshot and memory belong together, a restart finds exactly what memory holds. */
  lemma RestartFindsContents(s: KVStore)
    requires s.Recoverable()
    ensures Recover(s.snapshot.published, s.wal.file) == Ok(s.Contents())
  {
    hide Backed, Recover, Merged;
    var base, cover :|
      Backed(s.snapshot.published, s.wal.file, s.wal.format.generation, s.wal.ops, base, cover, s.Contents());
    BackedRecovers(s.snapshot.published, s.wal.file, s.wal.format.generation, s.wal.ops, base, cover, s.Contents());
  }

  lemma Smaller(m: Store, k: Key)
    requires k in m
    ensures |m - {k}| < |m|
  {
    assert (m - {k}).Keys == m.Keys - {k};
  }
}
