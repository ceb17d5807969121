// The stream view of the converter: what the PCM of a whole source stream is,
// however the stream was cut into buffers.
module Resampling {
  import opened AudioSamples

  function Step(sampleRate: nat): real
  {
    sampleRate as real / AUDIO_SAMPLE_RATE as real
  }

  // The absolute source position of output k, as the converter reaches it.
  function At(k: nat, step: real): real
  {
    if k == 0 then 0.0 else At(k - 1, step) + step
  }

  lemma {:induction false} AtIsMultiple(k: nat, step: real)
    ensures At(k, step) == k as real * step
  {
    if k > 0 {
      AtIsMultiple(k - 1, step);
      assert k as real * step == (k - 1) as real * step + step;
    }
  }

  // In numbers: 48000 outputs for every `sampleRate` source frames.
  lemma {:induction false} AtInFrames(k: nat, sampleRate: nat)
    ensures At(k, Step(sampleRate)) * 48000.0 == (k * sampleRate) as real
  {
    if k > 0 {
      AtInFrames(k - 1, sampleRate);
      assert k * sampleRate == (k - 1) * sampleRate + sampleRate;
      assert Step(sampleRate) * 48000.0 == sampleRate as real;
    }
  }

  lemma {:induction false} AtOrdered(j: nat, k: nat, step: real)
    requires j <= k && step > 0.0
    ensures At(j, step) <= At(k, step)
  {
    if j < k {
      AtOrdered(j, k - 1, step);
    }
  }

  // Linear interpolation between the two samples around `position`.
  function Interpolate(stream: seq<real>, position: real): real
    requires 0.0 <= position && position + 1.0 < |stream| as real
  {
    Between(stream[position.Floor], stream[position.Floor + 1], position - position.Floor as real)
  }

  function Between(a: real, b: real, fraction: real): real { a + (b - a) * fraction }

  predicate Within(samples: seq<real>) { forall s <- samples :: -1.0 <= s <= 1.0 }

  // Interpolated samples stay in range, so the converter's clamp never acts.
  lemma InterpolationStaysInRange(stream: seq<real>, position: real)
    requires Within(stream) && 0.0 <= position && position + 1.0 < |stream| as real
    ensures -1.0 <= Interpolate(stream, position) <= 1.0
    ensures Clamp1(Interpolate(stream, position)) == Interpolate(stream, position)
  {
    var index := position.Floor;
    var a, b, t := stream[index], stream[index + 1], position - index as real;
    assert a in stream && b in stream && 0.0 <= t < 1.0;
    Convex(a, b, b - a, t);
    assert Times(b - a, t) == (b - a) * t;
  }

  function Times(x: real, y: real): real { x * y }

  // d is the way from a to b, and t the part of it that is gone.
  lemma Convex(a: real, b: real, d: real, t: real)
    requires -1.0 <= a <= 1.0 && -1.0 <= b <= 1.0 && 0.0 <= t <= 1.0 && d == b - a
    ensures -1.0 <= a + Times(d, t) <= 1.0
  {
    if a <= b {
      Scaled(d, t);
    } else {
      var e := -d;
      Scaled(e, t);
      Opposite(e, d, t);
    }
  }

  lemma Opposite(d: real, e: real, t: real)
    requires e == -d
    ensures Times(e, t) == -Times(d, t)
  {
  }

  lemma Scaled(d: real, t: real)
    requires d >= 0.0 && 0.0 <= t <= 1.0
    ensures 0.0 <= Times(d, t) <= d
  {
    NonNegative(d, t);
    NonNegative(d, 1.0 - t);
    assert d * (1.0 - t) == d - d * t;
  }

  lemma Positive(x: real, y: real)
    requires x > 0.0 && y > 0.0
    ensures x * y > 0.0
  {
  }

  lemma NonNegative(x: real, y: real)
    requires x >= 0.0 && y >= 0.0
    ensures x * y >= 0.0
  {
  }

  predicate HasOutput(k: nat, step: real, frames: nat)
  {
    At(k, step) + 1.0 < frames as real
  }

  function Output(stream: seq<real>, step: real, k: nat): Sample16
    requires step > 0.0
  {
    AtOrdered(0, k, step);
    if HasOutput(k, step, |stream|) then Quantise(Interpolate(stream, At(k, step))) else 0
  }

  // The first n outputs of a stream.
  function Pcm(stream: seq<real>, step: real, n: nat): (pcm: seq<Sample16>)
    requires step > 0.0
    ensures |pcm| == n
  {
    if n == 0 then [] else Pcm(stream, step, n - 1) + [Output(stream, step, n - 1)]
  }

  lemma {:induction false} PcmAt(stream: seq<real>, step: real, n: nat, k: nat)
    requires step > 0.0 && k < n
    ensures Pcm(stream, step, n)[k] == Output(stream, step, k)
  {
    if k < n - 1 {
      PcmAt(stream, step, n - 1, k);
    }
  }

  // n is the number of outputs a stream of that many frames has.
  predicate IsCount(n: nat, step: real, frames: nat)
  {
    && !HasOutput(n, step, frames)
    && (n > 0 ==> HasOutput(n - 1, step, frames))
  }

  // The count depends on nothing but the rate and the number of source frames.
  lemma CountIsUnique(n: nat, m: nat, step: real, frames: nat)
    requires step > 0.0 && IsCount(n, step, frames) && IsCount(m, step, frames)
    ensures n == m
  {
    if n < m {
      AtOrdered(n, m - 1, step);
    } else if m < n {
      AtOrdered(m, n - 1, step);
    }
  }

  lemma CountedOutputs(n: nat, step: real, frames: nat, k: nat)
    requires step > 0.0 && IsCount(n, step, frames)
    ensures k < n <==> HasOutput(k, step, frames)
  {
    if k < n {
      AtOrdered(k, n - 1, step);
    } else {
      AtOrdered(n, k, step);
    }
  }

  // More source never changes an output that exists.
  lemma OutputIsStable(stream: seq<real>, more: seq<real>, step: real, k: nat)
    requires step > 0.0 && HasOutput(k, step, |stream|)
    ensures Output(stream + more, step, k) == Output(stream, step, k)
  {
    AtOrdered(0, k, step);
    assert |stream + more| as real >= |stream| as real;
    var index := At(k, step).Floor;
    assert (stream + more)[index] == stream[index] && (stream + more)[index + 1] == stream[index + 1];
    assert Interpolate(stream + more, At(k, step)) == Interpolate(stream, At(k, step));
  }

  lemma {:induction false} PcmIsStable(stream: seq<real>, more: seq<real>, step: real, n: nat)
    requires step > 0.0
    requires n > 0 ==> HasOutput(n - 1, step, |stream|)
    ensures Pcm(stream + more, step, n) == Pcm(stream, step, n)
  {
    if n > 0 {
      if n > 1 {
        AtOrdered(n - 2, n - 1, step);
      }
      PcmIsStable(stream, more, step, n - 1);
      OutputIsStable(stream, more, step, n - 1);
    }
  }

  lemma FloorOfFrames(n: nat, position: real)
    requires position * 48000.0 == n as real
    ensures position.Floor == n / 48000 && position - position.Floor as real == (n % 48000) as real / 48000.0
  {
    var whole, rest := n / 48000, n % 48000;
    assert n == whole * 48000 + rest;
    assert position == whole as real + rest as real / 48000.0;
  }

  lemma InterpolatedInFrames(stream: seq<real>, position: real, n: nat)
    requires position * 48000.0 == n as real && n + 48000 < |stream| * 48000
    ensures position + 1.0 < |stream| as real && n / 48000 + 1 < |stream|
    ensures var index, fraction := n / 48000, (n % 48000) as real / 48000.0;
            Interpolate(stream, position) == stream[index] + (stream[index + 1] - stream[index]) * fraction
  {
    FloorOfFrames(n, position);
  }

  lemma HasOutputInFrames(k: nat, sampleRate: nat, frames: nat)
    ensures HasOutput(k, Step(sampleRate), frames) <==> k * sampleRate + 48000 < frames * 48000
  {
    AtInFrames(k, sampleRate);
  }
}
