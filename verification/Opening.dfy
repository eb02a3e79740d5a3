/** What an open makes of the files a writer, or a crash, can leave behind. */
module Opening {
  import opened Bytes
  import opened Record
  import opened Replay
  import opened ReplayLaws
  import opened LegacyLog
  import opened Wal

  /**
   * A version 3 log cut at any byte: nothing left starts over at generation 1, part of a
   * header is refused, and anything longer goes on after its last whole record, once the
   * bytes past it are cut off.
   */
  lemma OpenedCut(generation: nat, ops: seq<Op>, cut: nat)
    requires GenerationFits(generation) && AllBounded(ops) && |ops| < U64_LIMIT
    requires cut <= |LogBytes(generation, ops)|
    ensures var f := Opened(LogBytes(generation, ops)[..cut]);
            if cut == 0 then f == Format(false, true, true, false, 1, 1)
            else if cut < 24 then f == Format(false, false, false, false, 0, 1)
            else
              var n := Whole(ops, cut - 24);
              f == Format(false, false, true, cut != 24 + Size(ops[..n]), generation, n + 1)
  {
    hide ReplayFrom, LogBytes, AllBounded, Size, Whole, HeaderValid, FromLE, Portable;
    var file := LogBytes(generation, ops)[..cut];
    TornWrite(generation, ops, cut);
    LogParts(generation, ops, cut);
    HeaderIsLong(file);
    if cut >= HEADER_LENGTH { HeaderReadsBack(generation, file); }
  }

  lemma ShortLog(file: seq<byte>)
    requires |file| < HEADER_LENGTH && Portable(file)
    ensures ReplayFrom(file, 0).lastSequence == 0
  {
  }

  /** Nothing is there, or the file ends where a record does. */
  ghost predicate AtRecordEnd(ops: seq<Op>, cut: nat) {
    cut == 0 || exists j :: 0 <= j <= |ops| && cut == BoundaryOf(ops[..j])
  }

  /** The log can be appended to as it is found exactly if it ends so. */
  lemma CurrentIff(generation: nat, ops: seq<Op>, cut: nat)
    requires GenerationFits(generation) && AllBounded(ops) && |ops| + 2 < U64_LIMIT
    requires cut <= |LogBytes(generation, ops)|
    ensures var file := LogBytes(generation, ops)[..cut];
            && (Opened(file).Current() <==> AtRecordEnd(ops, cut)) && !Opened(file).legacy
            && Opened(file).nextSequence <= |ops| + 1 && ReplayFrom(file, 0).lastSequence < MAX_U64
  {
    hide ReplayFrom, LogBytes, AllBounded, Size, Whole, HeaderValid, FromLE, Portable, Opened;
    var file := LogBytes(generation, ops)[..cut];
    OpenedCut(generation, ops, cut);
    TornWrite(generation, ops, cut);
    LogParts(generation, ops, cut);
    if cut < HEADER_LENGTH {
      ShortLog(file);
    } else {
      var n := Whole(ops, cut - HEADER_LENGTH);
      forall j | 0 <= j <= |ops| && cut == BoundaryOf(ops[..j])
        ensures j == n
      {
        OneBoundary(ops, j, cut - HEADER_LENGTH);
      }
    }
  }

  /** A log closed properly is taken up where it was left. */
  lemma OpenedWhole(generation: nat, ops: seq<Op>)
    requires GenerationFits(generation) && AllBounded(ops) && |ops| < U64_LIMIT
    ensures Opened(LogBytes(generation, ops)) == Format(false, false, true, false, generation, |ops| + 1)
  {
    hide ReplayFrom, LogBytes, AllBounded, Size, Whole, HeaderValid, FromLE, Portable, Opened;
    var all := LogBytes(generation, ops);
    LogIsLong(generation, ops);
    assert all[..|all|] == all;
    OpenedCut(generation, ops, |all|);
    WholeOfAll(ops);
    assert ops[..|ops|] == ops;
  }

  /** A version 2 log opens as such, and needs recovery just when it was cut inside a record. */
  lemma OpenedLegacy(ops: seq<Op>, cut: nat)
    requires AllLegacy(ops) && 0 < cut <= |LegacyFrames(ops)|
    ensures var file := LegacyFrames(ops)[..cut];
            var torn := cut != LegacySize(ops[..LegacyWhole(ops, cut)]);
            Opened(file) == if LooksCurrent(file) then Format(false, false, false, false, 0, 1)
                            else Format(true, false, true, torn, 0, 1)
  {
    hide ReplayFrom, LegacyFrames, AllLegacy, LegacySize, LegacyWhole, HeaderValid, FromLE, Portable, LooksCurrent;
    var file := LegacyFrames(ops)[..cut];
    LegacyIsNotPortable(ops, cut);
    NoneWhole(ops);
    TornLegacyLog(ops, cut, 0);
    HeaderIsLong(file);
    ShortIsCurrent(file);
  }

  lemma ShortIsCurrent(file: seq<byte>)
    ensures LooksCurrent(file) ==> |file| < 4
  {
  }
}
