# web-freq-visualizer, modelled in Dafny

`page.js` is a browser page. It loads an audio file, breaks the decoded
audio into frames of `sampleRate / 60` samples, and turns each frame into
a magnitude spectrum with a real FFT. The start button then plays the file
while a 60 Hz `draw` loop traces the spectrum on display as a chain of
cubic Bézier segments.

This project models that page in five modules:

- `Framing` (`framing.dfy`) covers `parseAudioBuffer`:
  - the per-frame sample count;
  - the transform size, found as a largest power of two by doubling;
  - the channel-summed, zero-guarded window;
  - the magnitude step;
  - the frame sequence, with its one failure: a transform size below two, where `new FFT` throws.
- `Geometry` (`geometry.dfy`) covers `drawBezier` and the segment loop of `draw`:
  - the path is a move-to point and a sequence of Bézier segments;
  - `TracePath` runs the source's loop `i < max` and is proved equal to the closed form `Curve`.
- `Playback` (`playback.dfy`) covers two pieces of `draw`'s state:
  - the cursor: `frameNumber`, `processing` and `parsedArray`, driven by the start handler, the file handler and the draw tick, as pure transition functions;
  - the schedule: `start` and `nextAt`.
- `Page` (`page.dfy`) holds the script's module-level variables as the fields of the class `Visualizer`. Each handler is a method on it, and each method is proved to move the fields exactly as the `Playback`, `Framing` and `Geometry` functions say.
- `Arith` and `Wrappers` hold arithmetic helper lemmas and `Option`/`Result`.

All arithmetic is on mathematical reals and integers. Foreign code enters as
parameters:

- `Numerics.fft` stands for fft.js's `realTransform` output. The only assumption about it is that it yields `2 * power` reals.
- `Numerics.sqrt` stands for `Math.sqrt`. The only assumption about it is that it is non-negative on non-negatives.

Where the written behaviour differs from the page's evident design, the
model follows the code:

- A buffer with zero channels is not an error. Every window is all zeros.
- The segment loop walks consecutive bins below length/zoom. It does not take every zoom-th bin, so only about the lowest quarter of the bins is drawn. Segment i ends at (i+2)·dx, so the curve runs past the canvas's right edge (`Geometry.CurveShape`, `Geometry.SegmentEnd`).
- When the displayed array has fewer than two entries, or exactly `zoom` entries, the curve's coordinates are NaN or infinite. `Curve` then returns `None` instead of a path.
- `start` is re-anchored whenever it is the falsy 0, not only on the first tick.
- A file chosen while frames are playing is ignored. A file chosen while an earlier one is still being decoded is not refused: `LoadBegin` accepts it whenever the frame number is -1. The completion of such a second load is not modelled.

## Model

| member | source | states |
|---|---|---|
| Framing.SamplesPerFrame | page.js:64-65 | samples per frame is at least one and times the frame rate gives back the sample rate |
| Framing.Pow2Floor | page.js:71 | the transform size is a power of two p with p <= samplesPerFrame < 2p |
| Framing.Pow2Gap | page.js:71 | two distinct powers of two are at least a factor two apart |
| Framing.Pow2Unique | page.js:71 | any power of two p with p <= n < 2p is the transform size: the largest power of two not above n is unique |
| Framing.TransformSize | page.js:71 | the doubling loop finds that same power of two, and it brackets samplesPerFrame |
| Framing.Window | page.js:78-88 | the window of frame i has exactly `power` samples |
| Framing.BuildWindow | page.js:78-88 | the nested position/channel loops build exactly the window: the channel sum at i*spf+j, or 0 past the end of the buffer |
| Framing.Magnitudes | page.js:91-95 | the spectrum has power/2 entries and every magnitude is non-negative |
| Framing.MagnitudesOf | page.js:91-95 | the magnitude loop computes exactly that spectrum |
| Framing.MagnitudeIsLocal | page.js:93-94 | magnitude j depends only on output entries 2j and 2j+1 |
| Framing.FrameSpectrum | page.js:77-97 | each frame has power/2 non-negative magnitudes |
| Framing.AnalyzeFrame | page.js:77-97 | one frame's window, transform and magnitude steps compute the frame spectrum |
| Framing.FrameCountScaled | page.js:65-66 | the number of whole frames is floor(length * framerate / sampleRate) |
| Framing.FrameCountIsFloor | page.js:66-75 | flooring the real ratio length / samplesPerFrame gives the integer frame count |
| Framing.Spectra | page.js:75-98 | the frame map yields one spectrum per whole frame, each of power/2 magnitudes |
| Framing.Analyze | page.js:62-99 | `new FFT(power)` refuses exactly when the sample rate is below twice the frame rate (transform size 1); otherwise the parse yields one spectrum per whole frame |
| Framing.SpectraShape | page.js:75-98 | the frame count, each frame's length of power/2, and the non-negativity of every entry of a successful parse |
| Framing.NoPadding | page.js:82-86 | inside a whole frame every window index is below length, so the zero guard never fires |
| Framing.WholeFrameWindow | page.js:82-86 | a whole frame's window entry is the plain channel sum at i*spf+j |
| Framing.ChannelSum | page.js:83-86 | the channel loop's sum at one position: a single channel contributes its own sample, and silent channels sum to 0 |
| Framing.Sample | page.js:81-86 | a window entry is 0 past the end of the buffer (the `index < length` guard) or with no channels at all, and a mono buffer's own sample inside it |
| Framing.MonoWindow | page.js:78-88 | a mono window is the channel's slice from i*spf followed by zeros up to `power` |
| Geometry.Bezier | page.js:112-122 | `drawBezier` ends at (x + 2dx, by), and each handle is its anchor plus one sixth of the chord between the bins on either side of that anchor (a Catmull-Rom tangent) |
| Geometry.SegmentAt | page.js:152-159 | iteration i draws the Bézier of bins i-1..i+2 with the out-of-range neighbours clamped to the array's ends, from x = i*width/(max-1) in steps of width/(max-1) |
| Geometry.Ratio | page.js:150 | `max` equals one exactly when the array length equals the zoom |
| Geometry.SegmentsFit | page.js:150-151 | for arrays of two or more entries and zoom of at least two, every segment's i+1 is a valid index |
| Geometry.Curve | page.js:149-160 | a path exists exactly when the array has at least two entries and a length different from the zoom |
| Geometry.LoopBound | page.js:150-151 | the real loop test i < length/zoom holds exactly for i below ceil(length/zoom) |
| Geometry.TracePath | page.js:149-160 | the loop over `i < max` produces the closed-form curve: same move-to point, same segments in the same order |
| Geometry.FallbackIsClamp | page.js:155-158 | JavaScript indexing (`Lookup`, `undefined` outside the array) followed by `??` (`OrElse`) clamps the neighbour index to the array's ends |
| Geometry.SegmentEnd | page.js:112-157 | segment i ends at x = (i+2)*width/(max-1) on the level of entry i+1 |
| Geometry.CurveShape | page.js:149-160 | the path starts at the level of entry 0, has ceil(length/zoom) segments, and segment i is the Bézier of entries i-1..i+2 |
| Geometry.HandlesMirror | page.js:112-122 | two consecutive Bézier calls share their joint, and the handles on either side of it are collinear and equally long |
| Geometry.SmoothJoints | page.js:112-160 | consecutive segments of the curve meet where the first ends, with mirrored handles, so the curve is C1-smooth |
| Geometry.SegmentIsLocal | page.js:154-158 | segment i depends only on entries i-1 through i+2 |
| Geometry.FlatBaseline | page.js:149-160 | an all-zero array draws every point of the curve on the canvas's bottom line |
| Geometry.IdleFrameCurve | page.js:144-160 | the idle frame [0, 0] at zoom 4 draws one flat segment on the canvas's bottom line, ending at x = -4*width, left of the canvas |
| Playback.Start | page.js:37-46 | the start handler keeps the cursor invariant and touches neither the frames nor `processing` |
| Playback.LoadBegin | page.js:49-55 | a file is accepted exactly when no playback is running, and acceptance sets `processing` and changes nothing else |
| Playback.StartBlockedWhileLoading | page.js:38-55 | an idle cursor accepts a file, and from then on the start button is a no-op until the load ends |
| Playback.LoadEnd | page.js:55-58 | a successful parse installs the parsed frames and clears `processing`; a failed decode or a refused transform leaves the cursor unchanged, with `processing` still set |
| Playback.Tick | page.js:134-144 | a tick keeps the invariant, and the frame it shows is either the empty frame or one of the parsed frames |
| Playback.StartOnlyWhenReady | page.js:37-46 | the start handler changes the cursor exactly when it is idle with frames parsed, and then sets the frame number to 0 |
| Playback.StartIdempotent | page.js:37-46 | clicking start twice is the same as clicking it once |
| Playback.LoadIgnoredWhilePlaying | page.js:49-50 | while playing, a file input changes nothing and is refused |
| Playback.IdleTicks | page.js:134-144 | with no playback, every tick shows the empty frame and changes nothing |
| Playback.PlayFrom | page.js:134-144 | from frame number n, the next length-n+1 ticks show frames n.. in order, then the empty frame, and leave the cursor idle |
| Playback.FullPlayback | page.js:37-144 | start followed by length+1 ticks shows every parsed frame once, in order, then the empty frame, and returns to the state before start |
| Playback.ClockTick | page.js:125-131 | after any tick the schedule is anchored |
| Playback.DriftFree | page.js:125-131 | once anchored at a non-zero start, n ticks advance `nextAt` by exactly n periods whatever the tick times were |
| Playback.ScheduleFromFirstTick | page.js:125-131 | from the initial state, n ticks leave `nextAt` at the first tick's time plus n periods |
| Page.Parsed | page.js:56-99 | a load yields frames exactly when decoding succeeded and the sample rate is at least twice the frame rate, and it yields floor(length*60/sampleRate) of them |
| Page.ParsedFrameDrawable | page.js:71-154 | a parsed frame gives a finite curve exactly when samplesPerFrame is at least 4 and not in 8..15 |
| Page.Visualizer.constructor | page.js:11-34 | the page starts idle, with nothing parsed, progress zero and the schedule unanchored |
| Page.Visualizer.Start | page.js:37-46 | the click handler moves the fields as `Playback.Start` does, and audio starts exactly when the cursor was ready |
| Page.Visualizer.LoadBegin | page.js:49-55 | the input handler's first part moves the fields as `Playback.LoadBegin` does |
| Page.Visualizer.LoadEnd | page.js:55-58 | the input handler's second part moves the cursor as `Playback.LoadEnd` does on the parse result, publishes the unfloored total frame count when decoding succeeded, and on a successful parse publishes progress 1, 2, …, frameCount; otherwise the progress and its history are unchanged |
| Page.Visualizer.ParseAudioBuffer | page.js:62-99 | publishes length/spf as the total, stores exactly `Framing.Analyze`'s frames on success, publishes progress 1, 2, …, frameCount in order, and on failure leaves the frames and the progress untouched |
| Page.Visualizer.Tick | page.js:125-160 | one `draw` call advances the schedule as `Playback.ClockTick` does, steps the cursor as `Playback.Tick` does, and traces exactly `Geometry.Curve` of the frame it shows |

## Left out

- Canvas drawing calls are not modelled: resizing, clearing, the closing `lineTo`s and `fill`. The path is a value.
- Web Audio is not modelled. The audio source node's state is the ghost flag `playing`, and `audioContext.currentTime = 0` has no effect in the model. The decoded `audioBuffer` is not kept as a field.
- File reading and decoding are inputs. `LoadEnd` receives the decoded buffer, or None when decoding was rejected. The handler returns before setting `processing` when the file read fails or yields a falsy buffer. Such a run changes nothing, and the model represents it by not calling `LoadBegin`.
- Interleaving across the first `await` is not modelled. `LoadBegin` merges the frame-number check with `processing = true`, with no other handler running between them. The page does allow a start click during the file read. Playback then begins with `processing` still false, and the load that follows sets `processing` and replaces `parsedArray` in mid-playback. `Playback.Inv`, which says no load is in progress while playing, holds only because of that merge. Two loads that overlap across `decodeAudioData` are not modelled either. `LoadEnd` requires `processing`, so after the first load completes, the second load's completion cannot be expressed. The page would still finish that load and replace `parsedArray`, possibly in mid-playback.
- fft.js and `Math.sqrt` are parameters. The FFT's numerical content is not modelled.
- Framing.Pow2Floor: floating-point `Math.log`/`Math.pow` are replaced by the exact largest power of two. The two can differ only through rounding at exact powers of two.
- Framing.Framable: the model requires the sample rate to be divisible by 60. With a fractional `sampleRatePerFrame`, the JavaScript indexes the channels with non-integers and reads `undefined`.
- The `setTimeout` delay `nextAt - now` and the 30 ms progress-copying `setInterval` are not modelled. The model keeps `currentProgress`/`totalProgress`, and the history of `currentProgress` is the ghost `published`.
- Geometry.Curve: NaN and infinite coordinates are modelled as `None`. The model requires zoom >= 2; the page uses 4.
- All arithmetic is exact. Float32 storage and double rounding are not modelled.
