/**
 * When a background checkpoint is asked for, cancelled and taken up: the counter of
 * writes, the pending request and the epoch that cancellation advances.
 */
module Checkpoints {

  const SNAPSHOT_INTERVAL: nat := 1000

  /** Writes since the last capture, and the state of the background checkpoint. */
  datatype Control = Control(writes: nat, requested: bool, epoch: nat, error: bool)

  // ------------------------------------------------------------ one step, field by field

  /** A write: exactly the one that reaches the interval asks for a checkpoint. */
  predicate Wrote(was: Control, now: Control) {
    && now.writes == was.writes + 1
    && now.requested == (was.requested || now.writes == SNAPSHOT_INTERVAL)
    && now.epoch == was.epoch && now.error == was.error
  }

  /** The map has been captured, or cleared: the count starts again. */
  predicate Captured(was: Control, now: Control) {
    now.writes == 0 && now.requested == was.requested && now.epoch == was.epoch && now.error == was.error
  }

  /** A save, compaction or load drops the request that is pending, and disowns the pass that is running. */
  predicate Cancelled(was: Control, now: Control) {
    now.writes == was.writes && !now.requested && now.epoch == was.epoch + 1 && now.error == was.error
  }

  /** The same, and the map has been saved. */
  predicate Replaced(was: Control, now: Control) {
    now.writes == 0 && !now.requested && now.epoch == was.epoch + 1 && now.error == was.error
  }

  /** The checkpoint thread takes a request up. */
  predicate Took(was: Control, now: Control) {
    was.requested && !now.requested && now.writes == was.writes && now.epoch == was.epoch && now.error == was.error
  }

  /** Its pass fails, before or after the capture. */
  predicate Failed(was: Control, now: Control) {
    (now.writes == was.writes || now.writes == 0) && !now.requested && now.epoch == was.epoch && now.error
  }

  predicate Moves(was: Control, now: Control) {
    || now == was || Wrote(was, now) || Captured(was, now) || Cancelled(was, now) || Replaced(was, now)
    || Took(was, now) || Failed(was, now)
  }

  // ------------------------------------------------------------ runs

  /** A run: each state follows from the one before by one step. */
  predicate IsRun(cs: seq<Control>) {
    cs != [] && forall i :: 0 < i < |cs| ==> Moves(cs[i - 1], cs[i])
  }

  predicate OnlyWrites(cs: seq<Control>) {
    cs != [] && forall i :: 0 < i < |cs| ==> Wrote(cs[i - 1], cs[i])
  }

  /**
   * Over a run of writes alone a checkpoint is requested at the end if and only if one was
   * requested at the start or the count passed 1000 on the way.
   */
  lemma {:induction false} RequestedIffDue(cs: seq<Control>)
    requires OnlyWrites(cs)
    ensures var was, now, n := cs[0], cs[|cs| - 1], |cs| - 1;
            && now.writes == was.writes + n && now.epoch == was.epoch && now.error == was.error
            && (now.requested <==> was.requested || was.writes < 1000 <= was.writes + n)
    decreases |cs|
  {
    var n := |cs| - 1;
    if n > 0 {
      RequestedIffDue(cs[..n]);
      assert Wrote(cs[n - 1], cs[n]);
    }
  }

  /** So from a capture on, it is requested if and only if it was or there were at least 1000 writes. */
  lemma RequestedAfterCapture(cs: seq<Control>)
    requires OnlyWrites(cs) && cs[0].writes == 0
    ensures cs[|cs| - 1].requested <==> cs[0].requested || |cs| - 1 >= 1000
  {
    RequestedIffDue(cs);
  }

  /**
   * A request that is cancelled with the count at 1000 or more, by a save or compaction that
   * then fails, is never made again by any number of writes. Below 1000 it is made again, by
   * the write that completes the count.
   */
  lemma CancelledRequest(cs: seq<Control>, before: Control)
    requires OnlyWrites(cs) && Cancelled(before, cs[0])
    ensures cs[|cs| - 1].requested <==> before.writes < 1000 && before.writes + |cs| - 1 >= 1000
  {
    RequestedIffDue(cs);
  }

  /** The epoch never goes back, and a cancellation anywhere in a run leaves it larger for good. */
  lemma {:induction false} EpochsGrow(cs: seq<Control>)
    requires IsRun(cs)
    ensures cs[0].epoch <= cs[|cs| - 1].epoch
    ensures (exists i :: 0 < i < |cs| && cs[i].epoch == cs[i - 1].epoch + 1) ==> cs[0].epoch < cs[|cs| - 1].epoch
    decreases |cs|
  {
    var n := |cs| - 1;
    if n > 0 {
      EpochsGrow(cs[..n]);
      assert Moves(cs[n - 1], cs[n]);
      if i :| 0 < i < |cs| && cs[i].epoch == cs[i - 1].epoch + 1 && i < n {
        assert cs[..n][i].epoch == cs[..n][i - 1].epoch + 1;
      }
    }
  }

  /** An error of a pass is kept for ever. */
  lemma {:induction false} ErrorsStay(cs: seq<Control>)
    requires IsRun(cs) && cs[0].error
    ensures cs[|cs| - 1].error
    decreases |cs|
  {
    var n := |cs| - 1;
    if n > 0 {
      ErrorsStay(cs[..n]);
      assert Moves(cs[n - 1], cs[n]);
    }
  }

  /** No checkpoint is requested in a run out of nothing: there must have been a write that reached 1000. */
  lemma {:induction false} RequestsAreEarned(cs: seq<Control>)
    requires IsRun(cs) && !cs[0].requested && cs[|cs| - 1].requested
    ensures exists i :: 0 < i < |cs| && Wrote(cs[i - 1], cs[i]) && cs[i].writes == 1000
    decreases |cs|
  {
    var n := |cs| - 1;
    assert n > 0 && Moves(cs[n - 1], cs[n]);
    if cs[n - 1].requested {
      RequestsAreEarned(cs[..n]);
      var i :| 0 < i < n && Wrote(cs[..n][i - 1], cs[..n][i]) && cs[..n][i].writes == 1000;
      assert Wrote(cs[i - 1], cs[i]);
    }
  }
}
