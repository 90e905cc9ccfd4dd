/**
 * The playback cursor and the drift-free tick schedule of the page, as pure
 * transitions. The start button, the file input (split into its accepting
 * step and its completion) and the draw tick each move a Cursor; the draw
 * tick also advances a Clock.
 */
module Playback {
  import opened Wrappers

  /** `emptyArrayOnDisplay`: the two-zero frame shown while nothing plays. */
  const EmptyFrame: seq<real> := [0.0, 0.0]

  /** `frameNumber`, `processing` and `parsedArray`; cursor -1 means idle. */
  datatype Cursor = Cursor(frameNumber: int, processing: bool, frames: Option<seq<seq<real>>>)

  /**
   * The state-machine invariant: a non-idle cursor points into loaded frames
   * (or one past the last), and no load is in progress while playing.
   */
  predicate Inv(c: Cursor)
  {
    c.frameNumber != -1 ==> !c.processing && c.frames.Some? && 0 <= c.frameNumber <= |c.frames.value|
  }

  /** The condition of the start handler. */
  predicate Ready(c: Cursor)
  {
    !c.processing && c.frameNumber == -1 && c.frames.Some?
  }

  /** The start button: from a ready idle state playback begins at frame 0. */
  function Start(c: Cursor): (r: Cursor)
    ensures Inv(c) ==> Inv(r)
    ensures r.frames == c.frames && r.processing == c.processing
  {
    if Ready(c) then c.(frameNumber := 0) else c
  }

  /** The guard of the file-input handler: a new file is taken only while idle. */
  function LoadBegin(c: Cursor): (r: (Cursor, bool))
    ensures Inv(c) ==> Inv(r.0)
    ensures r.1 <==> c.frameNumber == -1
    ensures r.0.frames == c.frames && r.0.frameNumber == c.frameNumber
    ensures r.1 ==> r.0 == c.(processing := true)
  {
    if c.frameNumber != -1 then (c, false) else (c.(processing := true), true)
  }

  /**
   * The end of an accepted load. `parsed` is the new frame sequence, or None
   * when decoding or the transform failed: the exception then skips the reset
   * of `processing`, which stays set.
   */
  function LoadEnd(c: Cursor, parsed: Option<seq<seq<real>>>): (r: Cursor)
    requires c.processing
    ensures Inv(c) ==> Inv(r)
    ensures r.frameNumber == c.frameNumber
    ensures r.processing <==> parsed.None?
    ensures parsed.Some? ==> r == c.(processing := false, frames := parsed)
    ensures parsed.None? ==> r == c
  {
    if parsed.Some? then c.(processing := false, frames := parsed) else c
  }

  /**
   * The cursor step of `draw`: the pair of the next cursor and the frame
   * displayed by this tick.
   */
  function Tick(c: Cursor): (r: (Cursor, seq<real>))
    requires Inv(c)
    ensures Inv(r.0) && r.0.frames == c.frames && r.0.processing == c.processing
    ensures r.1 == EmptyFrame || (c.frames.Some? && r.1 in c.frames.value)
  {
    if c.frameNumber == -1 then (c, EmptyFrame)
    else if c.frameNumber < |c.frames.value| then (c.(frameNumber := c.frameNumber + 1), c.frames.value[c.frameNumber])
    else (c.(frameNumber := -1), EmptyFrame)
  }

  /** k ticks in a row: the final cursor and the frames displayed, in order. */
  function RunTicks(c: Cursor, k: nat): (Cursor, seq<seq<real>>)
    requires Inv(c)
    decreases k
  {
    if k == 0 then (c, [])
    else
      var (next, shown) := Tick(c);
      var (last, rest) := RunTicks(next, k - 1);
      (last, [shown] + rest)
  }

  // ---------------------------------------------------------------- properties

  /** Start changes the state exactly when the state is ready, and then only sets the cursor to 0. */
  lemma StartOnlyWhenReady(c: Cursor)
    ensures Start(c) != c <==> Ready(c)
    ensures Ready(c) ==> Start(c) == c.(frameNumber := 0)
  {
  }

  /** Pressing start twice has the effect of pressing it once. */
  lemma StartIdempotent(c: Cursor)
    ensures Start(Start(c)) == Start(c)
  {
  }

  /** While a cursor is active a new file is ignored. */
  lemma LoadIgnoredWhilePlaying(c: Cursor)
    requires c.frameNumber != -1
    ensures LoadBegin(c) == (c, false)
  {
  }

  /** Once a file has been accepted, the start button does nothing until the load ends. */
  lemma StartBlockedWhileLoading(c: Cursor)
    requires c.frameNumber == -1
    ensures LoadBegin(c).1
    ensures Start(LoadBegin(c).0) == LoadBegin(c).0
  {
  }

  /** An idle cursor stays idle and keeps displaying the empty frame. */
  lemma IdleTicks(c: Cursor, k: nat)
    requires Inv(c) && c.frameNumber == -1
    ensures RunTicks(c, k) == (c, seq(k, _ => EmptyFrame))
  {
    if k > 0 {
      IdleTicks(c, k - 1);
      assert seq(k, _ => EmptyFrame) == [EmptyFrame] + seq(k - 1, _ => EmptyFrame);
    } else {
      assert seq(k, _ => EmptyFrame) == [];
    }
  }

  /**
   * From cursor i, the next n - i + 1 ticks display frames i to n - 1 in
   * order, then the empty frame, and leave the cursor idle.
   */
  lemma {:induction false} PlayFrom(c: Cursor)
    requires Inv(c) && c.frameNumber != -1
    ensures var fs := c.frames.value;
            RunTicks(c, |fs| - c.frameNumber + 1) == (c.(frameNumber := -1), fs[c.frameNumber..] + [EmptyFrame])
    decreases |c.frames.value| - c.frameNumber
  {
    var fs := c.frames.value;
    var i := c.frameNumber;
    if i < |fs| {
      var next := c.(frameNumber := i + 1);
      assert Tick(c) == (next, fs[i]);
      PlayFrom(next);
      assert RunTicks(c, |fs| - i + 1) == (c.(frameNumber := -1), [fs[i]] + (fs[i + 1..] + [EmptyFrame]));
      assert fs[i..] + [EmptyFrame] == [fs[i]] + (fs[i + 1..] + [EmptyFrame]);
    } else {
      var last := c.(frameNumber := -1);
      assert Tick(c) == (last, EmptyFrame);
      assert RunTicks(last, 0) == (last, []);
      assert fs[i..] + [EmptyFrame] == [EmptyFrame] + [];
    }
  }

  /**
   * A whole playback: start on a ready state, then n + 1 ticks display every
   * frame in order followed by the empty frame, and return to the very same
   * idle state, from which playback can start again.
   */
  lemma FullPlayback(c: Cursor)
    requires Inv(c) && Ready(c)
    ensures RunTicks(Start(c), |c.frames.value| + 1) == (c, c.frames.value + [EmptyFrame])
  {
    PlayFrom(Start(c));
    assert c.frames.value[0..] == c.frames.value;
  }

  // ---------------------------------------------------------------- clock

  /** `start` (undefined until the first tick) and `nextAt`, in milliseconds. */
  datatype Clock = Clock(start: Option<int>, nextAt: real)

  /** The tick period, 1000 / framerate milliseconds. */
  function Period(framerate: nat): real
    requires framerate > 0
  {
    1000.0 / framerate as real
  }

  /**
   * The schedule step of `draw` at wall-clock time `now`: the first tick (or
   * any tick while `start` is the falsy 0) anchors the schedule at `now`;
   * every tick then moves `nextAt` one period on.
   */
  function ClockTick(k: Clock, now: int, period: real): (r: Clock)
    ensures r.start.Some?
  {
    var anchored := if k.start.None? || k.start.value == 0 then Clock(Some(now), now as real) else k;
    anchored.(nextAt := anchored.nextAt + period)
  }

  /** Ticks at the given wall-clock times, in order. */
  function RunClock(k: Clock, nows: seq<int>, period: real): Clock
    decreases |nows|
  {
    if nows == [] then k else RunClock(ClockTick(k, nows[0], period), nows[1..], period)
  }

  /** Once anchored, n ticks move `nextAt` by exactly n periods, whatever times they ran at. */
  lemma {:induction false} DriftFree(k: Clock, nows: seq<int>, period: real)
    requires k.start.Some? && k.start.value != 0
    ensures RunClock(k, nows, period) == Clock(k.start, k.nextAt + |nows| as real * period)
    decreases |nows|
  {
    if nows != [] {
      var next := ClockTick(k, nows[0], period);
      DriftFree(next, nows[1..], period);
      assert next.nextAt + (|nows| - 1) as real * period == k.nextAt + |nows| as real * period;
    }
  }

  /** From the page's initial clock, n ticks leave `nextAt` at the first tick's time plus n periods. */
  lemma ScheduleFromFirstTick(nextAt: real, nows: seq<int>, period: real)
    requires |nows| >= 1 && nows[0] != 0
    ensures RunClock(Clock(None, nextAt), nows, period)
            == Clock(Some(nows[0]), nows[0] as real + |nows| as real * period)
  {
    var first := ClockTick(Clock(None, nextAt), nows[0], period);
    DriftFree(first, nows[1..], period);
    assert first.nextAt + (|nows| - 1) as real * period == nows[0] as real + |nows| as real * period;
  }
}
