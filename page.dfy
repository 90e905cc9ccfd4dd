/**
 * The page script's module-level state and its three entry points: the
 * start button, the file input and the self-rescheduling `draw` tick, plus
 * `parseAudioBuffer`, which the file input runs.
 */
module Page {
  import opened Wrappers
  import opened Framing
  import opened Geometry
  import Playback

  const Framerate: nat := 60
  const Zoom: nat := 4
  const WaveScale: real := 2.0

  /** What a finished load hands to the cursor: the new frames, or None when decoding or the transform failed. */
  function Parsed(decoded: Option<AudioBuffer>, num: Numerics): (r: Option<seq<seq<real>>>)
    requires decoded.Some? ==> Framable(decoded.value, Framerate)
    requires num.Valid()
    ensures r.None? <==> decoded.None? || decoded.value.sampleRate < 2 * Framerate
    ensures r.Some? ==> |r.value| == decoded.value.length * Framerate / decoded.value.sampleRate
  {
    match decoded
    case None => None
    case Some(buf) =>
      SpectraShape(buf, Framerate, num);
      match Analyze(buf, Framerate, num)
      case Ok(frames) => Some(frames)
      case Err(_) => None
  }

  /**
   * A parsed frame yields a curve exactly when a frame holds at least four
   * samples and its transform size is not eight: a transform size of eight
   * gives four magnitudes, one segment, and a zero `max - 1` divisor.
   */
  lemma ParsedFrameDrawable(buf: AudioBuffer, num: Numerics, i: nat)
    requires Framable(buf, Framerate) && num.Valid()
    requires Analyze(buf, Framerate, num).Ok? && i < |Analyze(buf, Framerate, num).value|
    ensures var spf := SamplesPerFrame(buf, Framerate);
            Drawable(Analyze(buf, Framerate, num).value[i], Zoom) <==> 4 <= spf && !(8 <= spf < 16)
  {
    var spf := SamplesPerFrame(buf, Framerate);
    var power := Pow2Floor(spf);
    SpectraShape(buf, Framerate, num);
    assert |Analyze(buf, Framerate, num).value[i]| == power / 2;
    if 4 <= spf {
      assert !IsPow2(3);
      assert power >= 4;
    }
    if 8 <= spf < 16 {
      Pow2Unique(spf, 8);
    }
  }

  class Visualizer {
    var currentProgress: int
    var totalProgress: real
    var processing: bool
    /** `parsedArray`: undefined until the first successful load. */
    var frames: Option<seq<seq<real>>>
    var frameNumber: int
    var start: Option<int>
    var nextAt: real
    /** An audio source node is attached to the buffer and playing. */
    ghost var playing: bool
    /** Every value written to `currentProgress`, in order. */
    ghost var published: seq<int>

    function Cursor(): Playback.Cursor
      reads this
    {
      Playback.Cursor(frameNumber, processing, frames)
    }

    function Clock(): Playback.Clock
      reads this
    {
      Playback.Clock(start, nextAt)
    }

    ghost predicate Valid()
      reads this
    {
      Playback.Inv(Cursor()) && (playing <==> frameNumber != -1)
    }

    /** The state when the script has loaded: idle, nothing parsed, no tick yet. */
    constructor ()
      ensures Valid()
      ensures Cursor() == Playback.Cursor(-1, false, None) && start == None
      ensures currentProgress == 0 && totalProgress == 0.0 && published == []
    {
      currentProgress, totalProgress := 0, 0.0;
      processing := false;
      frames := None;
      frameNumber := -1;
      start, nextAt := None, 0.0;
      playing := false;
      published := [];
    }

    /** The start button's click handler. */
    method Start()
      requires Valid()
      modifies this`frameNumber, this`playing
      ensures Valid()
      ensures Cursor() == Playback.Start(old(Cursor()))
      ensures playing == (old(playing) || Playback.Ready(old(Cursor())))
    {
      if !processing && frameNumber == -1 && frames.Some? {
        playing := true;
        frameNumber := 0;
      }
    }

    /** The file-input handler up to `processing = true`: a file is refused while the cursor is active. */
    method LoadBegin() returns (accepted: bool)
      requires Valid()
      modifies this`processing
      ensures Valid()
      ensures (Cursor(), accepted) == Playback.LoadBegin(old(Cursor()))
    {
      if frameNumber != -1 {
        return false;
      }
      processing := true;
      accepted := true;
    }

    /**
     * The rest of an accepted file-input handler: decoding (None when it was
     * rejected), parsing, and `processing = false`, which an exception skips.
     */
    method LoadEnd(decoded: Option<AudioBuffer>, num: Numerics)
      requires Valid() && processing
      requires decoded.Some? ==> Framable(decoded.value, Framerate)
      requires num.Valid()
      modifies this`processing, this`frames, this`currentProgress, this`totalProgress, this`published
      ensures Valid()
      ensures Cursor() == Playback.LoadEnd(old(Cursor()), Parsed(decoded, num))
      ensures decoded.None? ==> totalProgress == old(totalProgress)
      ensures decoded.Some? ==>
                totalProgress == decoded.value.length as real / SamplesPerFrame(decoded.value, Framerate) as real
      ensures Parsed(decoded, num).None? ==> currentProgress == old(currentProgress) && published == old(published)
      ensures Parsed(decoded, num).Some? ==>
                var count := FrameCount(decoded.value, Framerate);
                && published == old(published) + seq(count, k => k + 1)
                && currentProgress == if count == 0 then old(currentProgress) else count
    {
      if decoded.None? {
        return;
      }
      var ok := ParseAudioBuffer(decoded.value, num);
      if ok {
        processing := false;
      }
    }

    /**
     * `parseAudioBuffer`: publishes the unfloored frame count, then builds
     * the frames in index order, publishing i + 1 after frame i, and stores
     * them. It fails, leaving the frames and the progress counter as they
     * were, when the transform size is below two.
     */
    method ParseAudioBuffer(buf: AudioBuffer, num: Numerics) returns (ok: bool)
      requires Framable(buf, Framerate) && num.Valid()
      modifies this`currentProgress, this`totalProgress, this`frames, this`published
      ensures totalProgress == buf.length as real / SamplesPerFrame(buf, Framerate) as real
      ensures ok <==> Analyze(buf, Framerate, num).Ok?
      ensures ok ==> frames == Some(Analyze(buf, Framerate, num).value)
      ensures ok ==> published == old(published) + seq(FrameCount(buf, Framerate), k => k + 1)
      ensures ok ==> currentProgress == if FrameCount(buf, Framerate) == 0 then old(currentProgress)
                                        else FrameCount(buf, Framerate)
      ensures !ok ==> frames == old(frames) && currentProgress == old(currentProgress) && published == old(published)
    {
      var spf := buf.sampleRate / Framerate;
      assert spf == SamplesPerFrame(buf, Framerate);
      var frameCount := buf.length as real / spf as real;
      totalProgress := frameCount;
      var power := TransformSize(spf);
      if power < 2 {
        return false;
      }
      FrameCountIsFloor(buf.length, spf);
      var count := frameCount.Floor;
      ghost var all := Spectra(buf, Framerate, num);
      assert count == |all| == FrameCount(buf, Framerate);
      var result: seq<seq<real>> := [];
      var i := 0;
      while i < count
        invariant 0 <= i <= count
        invariant totalProgress == frameCount && frames == old(frames)
        invariant result == all[..i]
        invariant published == old(published) + seq(i, k => k + 1)
        invariant currentProgress == if i == 0 then old(currentProgress) else i
      {
        var spectrum := AnalyzeFrame(buf, spf, power, i, num);
        assert spectrum == all[i];
        result := result + [spectrum];
        currentProgress := i + 1;
        published := published + [i + 1];
        i := i + 1;
      }
      assert result == all;
      frames := Some(result);
      ok := true;
    }

    /**
     * One run of `draw` at wall-clock time `now` on a canvas of the given
     * size: advances the schedule, steps the cursor, and traces the curve of
     * the frame on display.
     */
    method Tick(now: int, width: real, height: real) returns (shown: seq<real>, path: Option<Path>)
      requires Valid()
      modifies this`frameNumber, this`playing, this`start, this`nextAt
      ensures Valid()
      ensures (Cursor(), shown) == Playback.Tick(old(Cursor()))
      ensures Clock() == Playback.ClockTick(old(Clock()), now, Playback.Period(Framerate))
      ensures path == Curve(shown, width, height, Zoom, WaveScale)
    {
      if start.None? || start.value == 0 {
        start := Some(now);
        nextAt := now as real;
      }
      nextAt := nextAt + 1000.0 / Framerate as real;

      var onDisplay: Option<seq<real>> := None;
      if frameNumber != -1 {
        var parsed := frames.value;
        onDisplay := if 0 <= frameNumber < |parsed| then Some(parsed[frameNumber]) else None;
        frameNumber := frameNumber + 1;
        if onDisplay.None? {
          frameNumber := -1;
          playing := false;
        }
      }
      shown := match onDisplay case Some(frame) => frame case None => Playback.EmptyFrame;
      path := TracePath(shown, width, height, Zoom, WaveScale);
    }
  }
}
