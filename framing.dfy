/**
 * Spectral framing: the pure and loop-based parts of `parseAudioBuffer`.
 * A decoded buffer is cut into frames of `sampleRate / framerate` samples;
 * each frame contributes a window whose length is the largest power of two
 * not above that count, the channels summed at every position; the window
 * goes through a real Fourier transform and is reduced to magnitudes.
 */
module Framing {
  import opened Wrappers
  import opened Arith

  /** Decoded audio as the Web Audio API hands it over: channels of `length` samples each. */
  datatype AudioBuffer = AudioBuffer(channels: seq<seq<real>>, sampleRate: nat, length: nat)
  {
    predicate WellFormed() {
      sampleRate > 0 && forall c :: 0 <= c < |channels| ==> |channels[c]| == length
    }
  }

  /**
   * The two numeric collaborators the framer calls: the real transform of
   * the fft.js library (a window of n reals to n interleaved re/im pairs)
   * and `Math.sqrt`, of which only non-negativity is assumed.
   */
  datatype Numerics = Numerics(fft: seq<real> -> seq<real>, sqrt: real -> real)
  {
    ghost predicate Valid() {
      && (forall data: seq<real> :: |fft(data)| == 2 * |data|)
      && (forall x: real :: 0.0 <= x ==> 0.0 <= sqrt(x))
    }
  }

  /** fft.js refuses transform sizes below two. */
  datatype FramingError = TransformTooSmall

  /** The buffers this model frames: integral samples per frame. */
  predicate Framable(buf: AudioBuffer, framerate: nat) {
    buf.WellFormed() && framerate > 0 && buf.sampleRate % framerate == 0
  }

  function SamplesPerFrame(buf: AudioBuffer, framerate: nat): (spf: nat)
    requires Framable(buf, framerate)
    ensures spf >= 1 && spf * framerate == buf.sampleRate
  {
    buf.sampleRate / framerate
  }

  /** The number of whole frames: the floor of `length / samplesPerFrame`. */
  function FrameCount(buf: AudioBuffer, framerate: nat): nat
    requires Framable(buf, framerate)
  {
    buf.length / SamplesPerFrame(buf, framerate)
  }

  // ---------------------------------------------------------------- sizing

  predicate IsPow2(p: nat)
  {
    p == 1 || (p >= 2 && p % 2 == 0 && IsPow2(p / 2))
  }

  /** The largest power of two not above n. */
  function Pow2Floor(n: nat): (p: nat)
    requires n >= 1
    ensures IsPow2(p) && p <= n < 2 * p
  {
    if n < 2 then 1 else 2 * Pow2Floor(n / 2)
  }

  /** Of two distinct powers of two, the larger is at least twice the smaller. */
  lemma {:induction false} Pow2Gap(p: nat, q: nat)
    requires IsPow2(p) && IsPow2(q) && p < q
    ensures 2 * p <= q
  {
    if p != 1 {
      Pow2Gap(p / 2, q / 2);
    }
  }

  /** Only one power of two p satisfies p <= n < 2p. */
  lemma Pow2Unique(n: nat, p: nat)
    requires n >= 1 && IsPow2(p) && p <= n < 2 * p
    ensures p == Pow2Floor(n)
  {
    var q := Pow2Floor(n);
    if p < q {
      Pow2Gap(p, q);
    } else if q < p {
      Pow2Gap(q, p);
    }
  }

  /** The transform size, found by doubling instead of through logarithms. */
  method TransformSize(spf: nat) returns (power: nat)
    requires spf >= 1
    ensures IsPow2(power) && power <= spf < 2 * power
    ensures power == Pow2Floor(spf)
  {
    power := 1;
    while 2 * power <= spf
      invariant IsPow2(power) && power <= spf
      decreases spf - power
    {
      power := 2 * power;
    }
    Pow2Unique(spf, power);
  }

  // ---------------------------------------------------------------- windows

  /**
   * The sum over the given channels of the sample at position k: a single
   * channel contributes its own sample, and silent channels sum to silence.
   */
  function ChannelSum(channels: seq<seq<real>>, k: nat): (r: real)
    requires forall c :: 0 <= c < |channels| ==> k < |channels[c]|
    ensures |channels| == 1 ==> r == channels[0][k]
    ensures (forall c :: 0 <= c < |channels| ==> channels[c][k] == 0.0) ==> r == 0.0
  {
    if channels == [] then 0.0
    else
      assert |channels| == 1 ==> channels[..|channels| - 1] == [];
      ChannelSum(channels[..|channels| - 1], k) + channels[|channels| - 1][k]
  }

  /** The mono value at absolute position k: the channel sum inside the buffer, 0 past its end. */
  function Sample(buf: AudioBuffer, k: nat): (r: real)
    requires buf.WellFormed()
    ensures buf.length <= k || buf.channels == [] ==> r == 0.0
    ensures k < buf.length && |buf.channels| == 1 ==> r == buf.channels[0][k]
  {
    if k < buf.length then ChannelSum(buf.channels, k) else 0.0
  }

  /** The transform input of frame i: `power` mono values from position i * spf on. */
  function Window(buf: AudioBuffer, spf: nat, power: nat, i: nat): (w: seq<real>)
    requires buf.WellFormed()
    ensures |w| == power
  {
    seq(power, j requires 0 <= j < power => Sample(buf, i * spf + j))
  }

  /** The zero padding after the end of the buffer. */
  function Zeros(n: nat): (z: seq<real>)
    ensures |z| == n && forall j :: 0 <= j < n ==> z[j] == 0.0
  {
    seq(n, _ => 0.0)
  }

  /** Builds the window of frame i with the channel loop nested in the position loop. */
  method BuildWindow(buf: AudioBuffer, spf: nat, power: nat, i: nat) returns (w: seq<real>)
    requires buf.WellFormed()
    ensures w == Window(buf, spf, power, i)
  {
    var data := new real[power];
    var j := 0;
    while j < power
      invariant 0 <= j <= power
      invariant forall m :: 0 <= m < j ==> data[m] == Sample(buf, i * spf + m)
    {
      data[j] := 0.0;
      var index := i * spf + j;
      var c := 0;
      while c < |buf.channels|
        invariant 0 <= c <= |buf.channels|
        invariant data[j] == if index < buf.length then ChannelSum(buf.channels[..c], index) else 0.0
        invariant forall m :: 0 <= m < j ==> data[m] == Sample(buf, i * spf + m)
      {
        if index < buf.length {
          assert buf.channels[..c + 1][..c] == buf.channels[..c];
          data[j] := data[j] + buf.channels[c][index];
        }
        c := c + 1;
      }
      assert buf.channels[..c] == buf.channels;
      j := j + 1;
    }
    w := data[..];
  }

  // ---------------------------------------------------------------- magnitudes

  /** The magnitude of one bin from its real and imaginary parts. */
  function Magnitude(re: real, im: real, sqrt: real -> real): real
  {
    sqrt(re * re + im * im)
  }

  /** The magnitudes of the first `half` bins of an interleaved re/im transform output. */
  function Magnitudes(out: seq<real>, half: nat, sqrt: real -> real): (m: seq<real>)
    requires 2 * half <= |out|
    requires forall x: real :: 0.0 <= x ==> 0.0 <= sqrt(x)
    ensures |m| == half
    ensures forall j :: 0 <= j < half ==> 0.0 <= m[j]
  {
    seq(half, j requires 0 <= j < half => Magnitude(out[2 * j], out[2 * j + 1], sqrt))
  }

  /** Fills the result array bin by bin from the re/im pairs. */
  method MagnitudesOf(out: seq<real>, half: nat, sqrt: real -> real) returns (m: seq<real>)
    requires 2 * half <= |out|
    requires forall x: real :: 0.0 <= x ==> 0.0 <= sqrt(x)
    ensures m == Magnitudes(out, half, sqrt)
  {
    var result := new real[half];
    var j := 0;
    while j < half
      invariant 0 <= j <= half
      invariant forall k :: 0 <= k < j ==> result[k] == Magnitude(out[2 * k], out[2 * k + 1], sqrt)
    {
      var re, im := out[2 * j], out[2 * j + 1];
      result[j] := Magnitude(re, im, sqrt);
      j := j + 1;
    }
    m := result[..];
  }

  /** Bin j of the magnitudes depends on the outputs at 2j and 2j + 1 only. */
  lemma MagnitudeIsLocal(out1: seq<real>, out2: seq<real>, half: nat, sqrt: real -> real, j: nat)
    requires 2 * half <= |out1| && 2 * half <= |out2|
    requires forall x: real :: 0.0 <= x ==> 0.0 <= sqrt(x)
    requires j < half && out1[2 * j] == out2[2 * j] && out1[2 * j + 1] == out2[2 * j + 1]
    ensures Magnitudes(out1, half, sqrt)[j] == Magnitudes(out2, half, sqrt)[j]
  {
  }

  // ---------------------------------------------------------------- frames

  /** The magnitude frame of frame i. */
  function FrameSpectrum(buf: AudioBuffer, spf: nat, power: nat, i: nat, num: Numerics): (m: seq<real>)
    requires buf.WellFormed() && num.Valid()
    ensures |m| == power / 2 && forall j :: 0 <= j < |m| ==> 0.0 <= m[j]
  {
    var w := Window(buf, spf, power, i);
    assert |num.fft(w)| == 2 * power;
    Magnitudes(num.fft(w), power / 2, num.sqrt)
  }

  /** One step of the frame map: window, transform, magnitudes. */
  method AnalyzeFrame(buf: AudioBuffer, spf: nat, power: nat, i: nat, num: Numerics) returns (m: seq<real>)
    requires buf.WellFormed() && num.Valid()
    ensures m == FrameSpectrum(buf, spf, power, i, num)
  {
    var data := BuildWindow(buf, spf, power, i);
    var out := num.fft(data);
    assert |out| == 2 * power;
    m := MagnitudesOf(out, power / 2, num.sqrt);
  }

  /** Every whole frame, in index order. */
  function Spectra(buf: AudioBuffer, framerate: nat, num: Numerics): (s: seq<seq<real>>)
    requires Framable(buf, framerate) && num.Valid()
    ensures |s| == FrameCount(buf, framerate)
    ensures forall i :: 0 <= i < |s| ==> |s[i]| == Pow2Floor(SamplesPerFrame(buf, framerate)) / 2
  {
    var spf := SamplesPerFrame(buf, framerate);
    seq(FrameCount(buf, framerate),
        i requires 0 <= i => FrameSpectrum(buf, spf, Pow2Floor(spf), i, num))
  }

  /**
   * The result of `parseAudioBuffer`: the frame sequence, or the transform's
   * refusal, which happens exactly when a frame holds fewer than two samples.
   */
  function Analyze(buf: AudioBuffer, framerate: nat, num: Numerics): (r: Result<seq<seq<real>>, FramingError>)
    requires Framable(buf, framerate) && num.Valid()
    ensures r.Err? <==> buf.sampleRate < 2 * framerate
    ensures r.Ok? ==> |r.value| == FrameCount(buf, framerate)
  {
    var spf := SamplesPerFrame(buf, framerate);
    if Pow2Floor(spf) < 2 then
      assert spf == 1;
      Err(TransformTooSmall)
    else
      MulMonotone(2, spf, framerate);
      Ok(Spectra(buf, framerate, num))
  }

  // ---------------------------------------------------------------- properties

  /** x div s == (x * f) div (s * f) for positive s and f. */
  lemma DivScaled(x: nat, s: nat, f: nat)
    requires s > 0 && f > 0
    ensures x / s == (x * f) / (s * f)
  {
    var q, r := x / s, x % s;
    assert x == q * s + r && r < s;
    assert x * f == q * (s * f) + r * f;
    MulMonotone(r + 1, s, f);
    assert (r + 1) * f == r * f + f;
    DivUnique(x * f, s * f, q, r * f);
  }

  /** There are floor(length * framerate / sampleRate) frames. */
  lemma FrameCountScaled(buf: AudioBuffer, framerate: nat)
    requires Framable(buf, framerate)
    ensures FrameCount(buf, framerate) == (buf.length * framerate) / buf.sampleRate
  {
    DivScaled(buf.length, SamplesPerFrame(buf, framerate), framerate);
  }

  /** The integer frame count is the floor of the real ratio `length / samplesPerFrame`. */
  lemma FrameCountIsFloor(length: nat, spf: nat)
    requires spf >= 1
    ensures (length as real / spf as real).Floor == length / spf
  {
    var q, r := length / spf, length % spf;
    var x := length as real / spf as real;
    assert length as real == q as real * spf as real + r as real;
    assert x == q as real + r as real / spf as real;
    assert 0.0 <= r as real / spf as real < 1.0;
  }

  /**
   * Shape of a successful analysis: floor(length * framerate / sampleRate)
   * frames, each of Pow2Floor(spf) / 2 non-negative magnitudes.
   */
  lemma SpectraShape(buf: AudioBuffer, framerate: nat, num: Numerics)
    requires Framable(buf, framerate) && num.Valid()
    ensures |Spectra(buf, framerate, num)| == (buf.length * framerate) / buf.sampleRate
    ensures forall i :: 0 <= i < |Spectra(buf, framerate, num)| ==>
              |Spectra(buf, framerate, num)[i]| == Pow2Floor(SamplesPerFrame(buf, framerate)) / 2
    ensures forall i, j :: 0 <= i < |Spectra(buf, framerate, num)| && 0 <= j < |Spectra(buf, framerate, num)[i]| ==>
              0.0 <= Spectra(buf, framerate, num)[i][j]
  {
    FrameCountScaled(buf, framerate);
  }

  /** Inside a whole frame every window position lies within the buffer: nothing is zero-padded. */
  lemma NoPadding(buf: AudioBuffer, framerate: nat, i: nat, j: nat)
    requires Framable(buf, framerate)
    requires i < FrameCount(buf, framerate) && j < Pow2Floor(SamplesPerFrame(buf, framerate))
    ensures i * SamplesPerFrame(buf, framerate) + j < buf.length
  {
    var spf := SamplesPerFrame(buf, framerate);
    var n := buf.length / spf;
    assert buf.length == n * spf + buf.length % spf;
    MulMonotone(i + 1, n, spf);
    assert (i + 1) * spf == i * spf + spf;
  }

  /** The window of a whole frame is the plain channel sum, position by position. */
  lemma WholeFrameWindow(buf: AudioBuffer, framerate: nat, i: nat, j: nat)
    requires Framable(buf, framerate) && i < FrameCount(buf, framerate)
    requires j < Pow2Floor(SamplesPerFrame(buf, framerate))
    ensures i * SamplesPerFrame(buf, framerate) + j < buf.length
    ensures Window(buf, SamplesPerFrame(buf, framerate), Pow2Floor(SamplesPerFrame(buf, framerate)), i)[j]
            == ChannelSum(buf.channels, i * SamplesPerFrame(buf, framerate) + j)
  {
    NoPadding(buf, framerate, i, j);
  }

  /** For one channel the window is the slice of the channel from i * spf, zero-padded to `power`. */
  lemma MonoWindow(buf: AudioBuffer, spf: nat, power: nat, i: nat)
    requires buf.WellFormed() && |buf.channels| == 1
    ensures var lo := if i * spf < buf.length then i * spf else buf.length;
            var hi := if i * spf + power < buf.length then i * spf + power else buf.length;
            Window(buf, spf, power, i) == buf.channels[0][lo..hi] + Zeros(power - (hi - lo))
  {
    var ch := buf.channels[0];
    assert buf.channels == [ch];
    var lo := if i * spf < buf.length then i * spf else buf.length;
    var hi := if i * spf + power < buf.length then i * spf + power else buf.length;
    var w := Window(buf, spf, power, i);
    var v := ch[lo..hi] + Zeros(power - (hi - lo));
    forall j | 0 <= j < power
      ensures w[j] == v[j]
    {
      var k := i * spf + j;
      assert w[j] == Sample(buf, k);
      if k < buf.length {
        assert lo == i * spf && j < hi - lo;
        assert v[j] == ch[lo..hi][j] == ch[k];
      } else {
        assert hi == buf.length && j >= hi - lo;
        assert v[j] == Zeros(power - (hi - lo))[j - (hi - lo)] == 0.0;
      }
    }
  }
}
