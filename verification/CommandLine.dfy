/**
 * The start of the command line program: it opens the log, loads the snapshot and replays,
 * without cutting a bad tail off; and the first write after it.
 */
module CommandLine {
  import opened Bytes
  import opened Record
  import opened Replay
  import opened Crc
  import opened Snapshot
  import opened Recovery
  import opened Wal
  import opened Opening
  import opened ShardedStore

  /**
   * A version 3 log cut at any byte. The program starts exactly if recovery succeeds; a write
   * then goes through only if the log was empty or ended with a record, and always then if
   * it is within the limit and the device lets it. Otherwise it is refused, although the store
   * has been recovered.
   */
  method StartThenSet(file: seq<byte>, synced: nat, published: Option<seq<byte>>, policy: Policy, maxBatch: nat,
                      table: seq<bv32>, hash: Key -> nat, key: Key, value: Value, io: Io,
                      ghost generation: nat, ghost ops: seq<Op>)
    returns (started: bool, ok: bool, store: KVStore)
    requires GenerationFits(generation) && AllBounded(ops) && |ops| + 2 < U64_LIMIT
    requires file <= LogBytes(generation, ops) && synced <= |file| && 1 <= maxBatch <= 4096 && IsTable(table)
    ensures started == Recover(published, file).Ok?
    ensures ok ==> started && AtRecordEnd(ops, |file|)
    ensures var op := Op.Set(key, value);
            started && Bounded(op) && Completes(policy, io, HEADER_LENGTH + FrameSize(op)) ==>
              (ok <==> AtRecordEnd(ops, |file|))
    ensures started ==>
              var found := Recover(published, file).value;
              store.Contents() == if ok then found[key := value] else found
  {
    hide IsTable, LogBytes, ReplayFrom, Recover, AllBounded, FormatOk, Opened, Frame, Frames, Header, Bounded,
      AtRecordEnd, Merged, Partitioned, LoadOf, Damaged, FrameSize, ApplyAll, Stats.Balanced;
    CurrentIff(generation, ops, |file|);
    assert file == LogBytes(generation, ops)[..|file|];
    var log := new WriteAheadLog(file, synced, policy, maxBatch, table);
    var snapshot := new SnapshotFile(published);
    store := new KVStore(hash, log, snapshot);
    started := store.Startup();
    ok := false;
    if started {
      EmissionSize(log.format.headerPending, log.format.generation, log.format.nextSequence, Op.Set(key, value));
      ok := store.Set(key, value, io);
    }
  }

  lemma EmissionSize(pending: bool, generation: nat, first: nat, op: Op)
    ensures |Emission(pending, generation, first, [op])| <= HEADER_LENGTH + FrameSize(op)
  {
    hide Header, Frame;
    FrameLength(first, op);
    assert [op][1..] == [];
    assert Frames([op], first) == Frame(first, op) + [];
  }
}
