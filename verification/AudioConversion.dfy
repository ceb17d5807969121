// `AudioConverter` of apps/windows/src/audio.rs.
module AudioConversion {
  import opened AudioSamples
  import opened Resampling

  const USIZE_MAX := 0xFFFF_FFFF_FFFF_FFFF

  datatype Result<T> = Ok(value: T) | Err(message: string)

  // ---------------------------------------------------------------- downmixing

  lemma ChannelFits(format: NativeAudioFormat, frames: nat, frame: nat, channel: nat)
    requires format.IsValid() && frame < frames && channel < format.channels
    ensures 0 <= frame * format.blockAlign + channel * format.SampleBytes()
    ensures frame * format.blockAlign + (channel + 1) * format.SampleBytes() <= frames * format.blockAlign
    ensures (channel + 1) * format.SampleBytes() == channel * format.SampleBytes() + format.SampleBytes()
  {
    assert (channel + 1) * format.SampleBytes() <= format.channels * format.SampleBytes();
    assert (frame + 1) * format.blockAlign <= frames * format.blockAlign;
  }

  // The native bytes of one channel of one frame; zeroes where the buffer does not reach.
  function SampleAt(format: NativeAudioFormat, bytes: seq<byte>, frame: nat, channel: nat,
        float32: seq<byte> -> real): (s: real)
    ensures -1.0 <= s <= 1.0
  {
    var offset := frame * format.blockAlign + channel * format.SampleBytes();
    if 0 <= offset && offset + format.SampleBytes() <= |bytes|
    then DecodeSample(format.sampleFormat, bytes[offset..offset + format.SampleBytes()], float32)
    else 0.0
  }

  function ChannelSum(format: NativeAudioFormat, bytes: seq<byte>, frame: nat, channels: nat,
        float32: seq<byte> -> real): (s: real)
    ensures -(channels as real) <= s <= channels as real
  {
    if channels == 0 then 0.0
    else ChannelSum(format, bytes, frame, channels - 1, float32) + SampleAt(format, bytes, frame, channels - 1, float32)
  }

  function Mono(format: NativeAudioFormat, bytes: seq<byte>, frame: nat, float32: seq<byte> -> real): (s: real)
    requires format.channels > 0
    ensures -1.0 <= s <= 1.0
  {
    var sum := ChannelSum(format, bytes, frame, format.channels, float32);
    AverageInRange(sum, format.channels);
    sum / format.channels as real
  }

  lemma AverageInRange(sum: real, n: nat)
    requires n > 0 && -(n as real) <= sum <= n as real
    ensures -1.0 <= sum / n as real <= 1.0
  {
    var q := sum / n as real;
    assert q * n as real == sum;
    if q > 1.0 {
      NonNegative(q - 1.0, n as real - 1.0);
    } else if q < -1.0 {
      NonNegative(-1.0 - q, n as real - 1.0);
    }
  }

  function Downmix(format: NativeAudioFormat, bytes: seq<byte>, frames: nat, float32: seq<byte> -> real): (s: seq<real>)
    requires format.channels > 0
    ensures |s| == frames && Within(s)
  {
    if frames == 0 then []
    else Downmix(format, bytes, frames - 1, float32) + [Mono(format, bytes, frames - 1, float32)]
  }

  function Total(values: seq<real>): real
  {
    if values == [] then 0.0 else Total(values[..|values| - 1]) + values[|values| - 1]
  }

  // The decoded channels of one frame: each frame starts `blockAlign` bytes behind the one before
  // it, and its channels lie side by side.
  function Channels(format: NativeAudioFormat, bytes: seq<byte>, frame: nat, n: nat, float32: seq<byte> -> real)
    : (values: seq<real>)
    requires format.IsValid() && (frame + 1) * format.blockAlign <= |bytes| && n <= format.channels
    ensures |values| == n
  {
    if n == 0 then []
    else
      var width := format.SampleBytes();
      ChannelFits(format, frame + 1, frame, n - 1);
      var offset := frame * format.blockAlign + (n - 1) * width;
      Channels(format, bytes, frame, n - 1, float32)
      + [DecodeSample(format.sampleFormat, bytes[offset..offset + width], float32)]
  }

  lemma {:induction false} SumOfChannels(
      format: NativeAudioFormat, bytes: seq<byte>, frame: nat, n: nat, float32: seq<byte> -> real)
    requires format.IsValid() && (frame + 1) * format.blockAlign <= |bytes| && n <= format.channels
    ensures ChannelSum(format, bytes, frame, n, float32) == Total(Channels(format, bytes, frame, n, float32))
  {
    if n > 0 {
      SumOfChannels(format, bytes, frame, n - 1, float32);
      ChannelFits(format, frame + 1, frame, n - 1);
      var all := Channels(format, bytes, frame, n, float32);
      assert all[..n - 1] == Channels(format, bytes, frame, n - 1, float32);
    }
  }

  // Each source frame is the mean of its channels.
  lemma {:induction false} DownmixIsMean(
      format: NativeAudioFormat, bytes: seq<byte>, frames: nat, frame: nat, float32: seq<byte> -> real)
    requires format.IsValid() && frame < frames && (frame + 1) * format.blockAlign <= |bytes|
    ensures Downmix(format, bytes, frames, float32)[frame] ==
            Total(Channels(format, bytes, frame, format.channels, float32)) / format.channels as real
  {
    if frame < frames - 1 {
      DownmixIsMean(format, bytes, frames - 1, frame, float32);
    } else {
      SumOfChannels(format, bytes, frame, format.channels, float32);
    }
  }

  // ---------------------------------------------------------------- packets

  datatype CapturedAudioFrame = CapturedAudioFrame(payload: seq<byte>)

  function Payload(samples: seq<Sample16>): (payload: seq<byte>)
    ensures |payload| == 2 * |samples|
  {
    if samples == [] then [] else Payload(samples[..|samples| - 1]) + Bytes16(samples[|samples| - 1])
  }

  // How the receiver reads a payload.
  function Samples(payload: seq<byte>): seq<Sample16>
  {
    if |payload| < 2 then []
    else Samples(payload[..|payload| - 2]) + [Signed16Of(payload[|payload| - 2], payload[|payload| - 1])]
  }

  lemma {:induction false} PayloadRoundTrip(samples: seq<Sample16>)
    ensures Samples(Payload(samples)) == samples
  {
    if samples != [] {
      var init, last := samples[..|samples| - 1], samples[|samples| - 1];
      assert samples == init + [last];
      PayloadRoundTrip(init);
      var payload := Payload(samples);
      assert payload[..|payload| - 2] == Payload(init);
      Bytes16RoundTrip(last);
    }
  }

  function Received(frames: seq<CapturedAudioFrame>): seq<Sample16>
  {
    if frames == [] then [] else Received(frames[..|frames| - 1]) + Samples(frames[|frames| - 1].payload)
  }

  predicate IsPacket(frame: CapturedAudioFrame)
  {
    |frame.payload| == 2 * AUDIO_FRAME_SAMPLES
  }

  // ---------------------------------------------------------------- the converter

  function Min(a: int, b: int): int { if a < b then a else b }

  class AudioConverter {
    const format: NativeAudioFormat
    const float32: seq<byte> -> real
    var source: seq<real>
    var sourcePosition: real
    var pcm: seq<Sample16>

    ghost var stream: seq<real>     // every source frame since the last reset
    ghost var dropped: nat          // how many of them are no longer buffered
    ghost var produced: nat         // outputs computed since the last reset
    ghost var emitted: seq<Sample16>     // samples handed out in packets

    ghost function Rate(): real { Step(format.sampleRate) }

    // The buffer is a window on the stream, at the position of the next output.
    ghost predicate Aligned()
      reads this
    {
      && format.IsValid() && Rate() > 0.0
      && dropped <= |stream| && source == stream[dropped..]
      && 0.0 <= sourcePosition && sourcePosition + dropped as real == At(produced, Rate())
    }

    ghost predicate Valid()
      reads this
    {
      && Aligned() && Within(stream)
      && IsCount(produced, Rate(), |stream|)
      && dropped == Min(At(produced, Rate()).Floor, |stream|)
      && emitted + pcm == Pcm(stream, Rate(), produced)
      && |emitted| % AUDIO_FRAME_SAMPLES == 0 && |pcm| < AUDIO_FRAME_SAMPLES
    }

    constructor Create(format: NativeAudioFormat, float32: seq<byte> -> real)
      requires format.IsValid()
      ensures Valid() && stream == [] && emitted == []
      ensures this.format == format && this.float32 == float32
    {
      this.format, this.float32 := format, float32;
      source, sourcePosition, pcm := [], 0.0, [];
      stream, dropped, produced, emitted := [], 0, 0, [];
    }

    // new: an invalid mix format is refused.
    static method New(format: NativeAudioFormat, float32: seq<byte> -> real) returns (r: Result<AudioConverter>)
      ensures r.Ok? <==>
              && format.sampleRate != 0 && format.channels != 0
              && format.blockAlign >= format.channels * format.SampleBytes()
      ensures r.Ok? ==> fresh(r.value) && r.value.Valid() && r.value.stream == [] && r.value.format == format
    {
      if format.sampleRate == 0 || format.channels == 0 || format.blockAlign < format.channels * format.SampleBytes() {
        return Err("audio mix format is invalid");
      }
      var converter := new AudioConverter.Create(format, float32);
      return Ok(converter);
    }

    method Reset()
      requires Valid()
      modifies this
      ensures Valid() && stream == [] && emitted == [] && pcm == [] && source == []
    {
      source, pcm, sourcePosition := [], [], 0.0;
      stream, dropped, produced, emitted := [], 0, 0, [];
    }

    method PushInterleaved(bytes: seq<byte>, frameCount: nat) returns (r: Result<seq<CapturedAudioFrame>>)
      requires Valid()
      modifies this
      ensures Valid()
      ensures r.Ok? <==> frameCount * format.blockAlign <= USIZE_MAX && frameCount * format.blockAlign <= |bytes|
      ensures r.Err? ==> stream == old(stream) && emitted == old(emitted) && pcm == old(pcm) && source == old(source)
      ensures r.Ok? ==>
                && stream == old(stream) + Downmix(format, bytes, frameCount, float32)
                && (forall f <- r.value :: IsPacket(f))
                && emitted == old(emitted) + Received(r.value)
    {
      var required := frameCount * format.blockAlign;
      if required > USIZE_MAX {
        return Err("audio buffer size overflowed");
      }
      if |bytes| < required {
        return Err("audio buffer was shorter than its frame count");
      }
      var frames := Convert(bytes, frameCount);
      return Ok(frames);
    }

    method Convert(bytes: seq<byte>, frameCount: nat) returns (frames: seq<CapturedAudioFrame>)
      requires Valid() && frameCount * format.blockAlign <= |bytes|
      modifies this
      ensures Valid()
      ensures stream == old(stream) + Downmix(format, bytes, frameCount, float32)
      ensures forall f <- frames :: IsPacket(f)
      ensures emitted == old(emitted) + Received(frames)
    {
      AppendFrames(bytes, frameCount);
      Resample();
      DropConsumed();
      frames := Packetise();
    }

    method AppendFrames(bytes: seq<byte>, frameCount: nat)
      requires Valid() && frameCount * format.blockAlign <= |bytes|
      modifies `source, `stream
      ensures Aligned() && Within(stream)
      ensures stream == old(stream) + Downmix(format, bytes, frameCount, float32)
      ensures emitted + pcm == Pcm(stream, Rate(), produced)
      ensures produced > 0 ==> HasOutput(produced - 1, Rate(), |stream|)
    {
      MixFrames(bytes, frameCount);
      var mixed := Downmix(format, bytes, frameCount, float32);
      Appended(stream, mixed, Rate(), produced);
      SuffixGrows(stream, mixed, dropped);
      stream := stream + mixed;
    }

    method MixFrames(bytes: seq<byte>, frameCount: nat)
      requires format.IsValid() && frameCount * format.blockAlign <= |bytes|
      modifies `source
      ensures source == old(source) + Downmix(format, bytes, frameCount, float32)
    {
      var frame := 0;
      while frame < frameCount
        invariant frame <= frameCount
        invariant source == old(source) + Downmix(format, bytes, frame, float32)
      {
        var mono := MixChannels(bytes, frameCount, frame);
        OneMore(old(source), Downmix(format, bytes, frame, float32), mono / format.channels as real);
        source := source + [mono / format.channels as real];
        frame := frame + 1;
      }
    }

    method MixChannels(bytes: seq<byte>, frameCount: nat, frame: nat) returns (mono: real)
      requires format.IsValid() && frameCount * format.blockAlign <= |bytes| && frame < frameCount
      ensures mono == ChannelSum(format, bytes, frame, format.channels, float32)
    {
      var base := frame * format.blockAlign;
      mono := 0.0;
      var channel := 0;
      while channel < format.channels
        invariant channel <= format.channels
        invariant mono == ChannelSum(format, bytes, frame, channel, float32)
      {
        ChannelFits(format, frameCount, frame, channel);
        var offset := base + channel * format.SampleBytes();
        mono := mono + DecodeSample(format.sampleFormat, bytes[offset..offset + format.SampleBytes()], float32);
        channel := channel + 1;
      }
    }

    // The resampling loop: every output whose two neighbours have arrived.
    method Resample()
      requires Aligned()
      requires emitted + pcm == Pcm(stream, Rate(), produced)
      requires produced > 0 ==> HasOutput(produced - 1, Rate(), |stream|)
      modifies `sourcePosition, `pcm, `produced
      ensures Aligned() && IsCount(produced, Rate(), |stream|)
      ensures emitted + pcm == Pcm(stream, Rate(), produced)
    {
      while sourcePosition + 1.0 < |source| as real
        invariant Aligned()
        invariant emitted + pcm == Pcm(stream, Rate(), produced)
        invariant produced > 0 ==> HasOutput(produced - 1, Rate(), |stream|)
        decreases StepsLeft(|source|, sourcePosition, Rate())
      {
        ResampleOne();
      }
    }

    method ResampleOne()
      requires Aligned() && sourcePosition + 1.0 < |source| as real
      requires emitted + pcm == Pcm(stream, Rate(), produced)
      modifies `sourcePosition, `pcm, `produced
      ensures Aligned() && produced == old(produced) + 1
      ensures emitted + pcm == Pcm(stream, Rate(), produced)
      ensures HasOutput(produced - 1, Rate(), |stream|)
      ensures StepsLeft(|source|, sourcePosition, Rate()) < StepsLeft(|source|, old(sourcePosition), Rate())
    {
      var step := Step(format.sampleRate);
      var index := sourcePosition.Floor;
      var fraction := sourcePosition - index as real;
      var sample := Between(source[index], source[index + 1], fraction);
      WindowOutput(stream, dropped, sourcePosition, step, produced);
      StepTaken(|source|, sourcePosition, step);
      OneMore(emitted, pcm, Quantise(sample));
      pcm := pcm + [Quantise(sample)];
      sourcePosition, produced := sourcePosition + step, produced + 1;
    }

    method DropConsumed()
      requires Aligned()
      modifies `source, `sourcePosition, `dropped
      ensures Aligned()
      ensures dropped == Min(At(produced, Rate()).Floor, |stream|)
    {
      var consumed := Min(sourcePosition.Floor, |source|);
      FloorShift(sourcePosition, dropped);
      if consumed > 0 {
        source, sourcePosition, dropped := source[consumed..], sourcePosition - consumed as real, dropped + consumed;
      }
    }

    method Packetise() returns (frames: seq<CapturedAudioFrame>)
      requires Aligned()
      requires emitted + pcm == Pcm(stream, Rate(), produced)
      requires |emitted| % AUDIO_FRAME_SAMPLES == 0
      modifies `pcm, `emitted
      ensures Aligned()
      ensures emitted + pcm == Pcm(stream, Rate(), produced)
      ensures |emitted| % AUDIO_FRAME_SAMPLES == 0 && |pcm| < AUDIO_FRAME_SAMPLES
      ensures emitted == old(emitted) + Received(frames)
      ensures forall f <- frames :: IsPacket(f)
    {
      frames := [];
      while |pcm| >= AUDIO_FRAME_SAMPLES
        invariant emitted + pcm == Pcm(stream, Rate(), produced)
        invariant |emitted| % AUDIO_FRAME_SAMPLES == 0
        invariant emitted == old(emitted) + Received(frames)
        invariant forall f <- frames :: IsPacket(f)
        decreases |pcm|
      {
        var packet := pcm[..AUDIO_FRAME_SAMPLES];
        Regroup(emitted, packet, pcm[AUDIO_FRAME_SAMPLES..], pcm);
        PayloadRoundTrip(packet);
        ReceivedStep(frames, CapturedAudioFrame(Payload(packet)));
        emitted, pcm := emitted + packet, pcm[AUDIO_FRAME_SAMPLES..];
        frames := frames + [CapturedAudioFrame(Payload(packet))];
      }
    }
  }

  lemma SuffixGrows<T>(s: seq<T>, more: seq<T>, from: nat)
    requires from <= |s|
    ensures s[from..] + more == (s + more)[from..]
  {
  }

  lemma OneMore<T>(a: seq<T>, b: seq<T>, x: T)
    ensures (a + b) + [x] == a + (b + [x])
  {
  }

  lemma ReceivedStep(frames: seq<CapturedAudioFrame>, frame: CapturedAudioFrame)
    ensures Received(frames + [frame]) == Received(frames) + Samples(frame.payload)
  {
    assert (frames + [frame])[..|frames|] == frames;
  }

  lemma Regroup(emitted: seq<Sample16>, packet: seq<Sample16>, rest: seq<Sample16>, pcm: seq<Sample16>)
    requires packet + rest == pcm
    ensures (emitted + packet) + rest == emitted + pcm
  {
  }

  // Iterations left before the position passes the end of the buffer.
  function StepsLeft(length: nat, position: real, step: real): nat
    requires step > 0.0
  {
    if length as real > position then ((length as real - position) / step).Floor + 1 else 0
  }

  lemma StepTaken(length: nat, position: real, step: real)
    requires step > 0.0 && position + 1.0 < length as real
    ensures StepsLeft(length, position + step, step) < StepsLeft(length, position, step)
  {
    OneStepLess(length as real - position, step);
  }

  lemma OneStepLess(room: real, step: real)
    requires step > 0.0
    ensures (room - step) / step == room / step - 1.0
  {
    var a, b := room / step, (room - step) / step;
    assert a * step == room && b * step == room - step;
    if a - b - 1.0 > 0.0 {
      Positive(a - b - 1.0, step);
    } else if b + 1.0 - a > 0.0 {
      Positive(b + 1.0 - a, step);
    }
  }

  lemma FloorShift(position: real, offset: nat)
    ensures (position + offset as real).Floor == position.Floor + offset
  {
  }

  // Interpolating in the window is interpolating in the stream.
  lemma WindowOutput(stream: seq<real>, dropped: nat, position: real, step: real, k: nat)
    requires step > 0.0 && dropped <= |stream| && 0.0 <= position
    requires position + dropped as real == At(k, step)
    requires position + 1.0 < |stream[dropped..]| as real
    ensures HasOutput(k, step, |stream|)
    ensures var source, index := stream[dropped..], position.Floor;
            Output(stream, step, k)
            == Quantise(Between(source[index], source[index + 1], position - index as real))
  {
    FloorShift(position, dropped);
    var index := position.Floor;
    assert stream[dropped..][index] == stream[dropped + index]
        && stream[dropped..][index + 1] == stream[dropped + index + 1];
    assert At(k, step) - (dropped + index) as real == position - index as real;
  }

  lemma Appended(stream: seq<real>, more: seq<real>, step: real, n: nat)
    requires step > 0.0 && IsCount(n, step, |stream|)
    ensures Pcm(stream + more, step, n) == Pcm(stream, step, n)
    ensures n > 0 ==> HasOutput(n - 1, step, |stream + more|)
  {
    PcmIsStable(stream, more, step, n);
    assert |stream + more| as real >= |stream| as real;
  }

  // ---------------------------------------------------------------- what a push leaves behind

  // However a stream is cut into buffers, the converter ends in the same state and has handed
  // out the same samples: everything is a function of the stream alone.
  lemma ChunksDoNotMatter(a: AudioConverter, b: AudioConverter)
    requires a.Valid() && b.Valid() && a.format == b.format && a.stream == b.stream
    ensures a.emitted == b.emitted && a.pcm == b.pcm
    ensures a.source == b.source && a.sourcePosition == b.sourcePosition
  {
    CountIsUnique(a.produced, b.produced, a.Rate(), |a.stream|);
    PacketsAreWhole(|a.emitted|, |a.pcm|, |b.emitted|, |b.pcm|);
    assert a.emitted == (a.emitted + a.pcm)[..|a.emitted|];
    assert b.emitted == (b.emitted + b.pcm)[..|a.emitted|];
    assert a.pcm == (a.emitted + a.pcm)[|a.emitted|..];
    assert b.pcm == (b.emitted + b.pcm)[|a.emitted|..];
  }

  lemma PacketsAreWhole(e1: nat, p1: nat, e2: nat, p2: nat)
    requires e1 + p1 == e2 + p2
    requires e1 % AUDIO_FRAME_SAMPLES == 0 && e2 % AUDIO_FRAME_SAMPLES == 0
    requires p1 < AUDIO_FRAME_SAMPLES && p2 < AUDIO_FRAME_SAMPLES
    ensures e1 == e2
  {
  }

  // At most one source sample stays buffered, less than a packet of PCM is held back, and the
  // number of samples handed out depends on the number of source frames alone.
  lemma BufferingIsBounded(c: AudioConverter)
    requires c.Valid()
    ensures |c.source| <= 1 && |c.pcm| < 480
    ensures |c.emitted| == c.produced / 480 * 480
    ensures forall k: nat :: k < c.produced <==> k * c.format.sampleRate + 48000 < |c.stream| * 48000
  {
    assert At(c.produced, c.Rate()) + 1.0 >= |c.stream| as real;
    forall k: nat
      ensures k < c.produced <==> k * c.format.sampleRate + 48000 < |c.stream| * 48000
    {
      CountedOutputs(c.produced, c.Rate(), |c.stream|, k);
      HasOutputInFrames(k, c.format.sampleRate, |c.stream|);
    }
  }

  // One line of interpolation, to 16 bits.
  predicate IsOnLine(sample: Sample16, a: real, b: real, fraction: real)
  {
    sample == Round((a + (b - a) * fraction) * 32767.0)
  }

  // Sample k of everything handed out lies k * sampleRate / 48000 source frames into the stream,
  // on the line between the two frames around that position, rounded to 16 bits.
  lemma EmittedAreInterpolations(c: AudioConverter, k: nat)
    requires c.Valid() && k < |c.emitted|
    ensures var n := k * c.format.sampleRate; var index, fraction := n / 48000, (n % 48000) as real / 48000.0;
            && index + 1 < |c.stream|
            && IsOnLine(c.emitted[k], c.stream[index], c.stream[index + 1], fraction)
  {
    EmittedAt(c, k);
    SampleInFrames(c.stream, c.emitted[k], k, c.format.sampleRate, k * c.format.sampleRate);
  }

  lemma SampleInFrames(stream: seq<real>, sample: Sample16, k: nat, sampleRate: nat, n: nat)
    requires n == k * sampleRate && HasOutput(k, Step(sampleRate), |stream|) && At(k, Step(sampleRate)) >= 0.0
    requires sample == Round(Interpolate(stream, At(k, Step(sampleRate))) * (I16_MAX as real))
    ensures n / 48000 + 1 < |stream|
    ensures IsOnLine(sample, stream[n / 48000], stream[n / 48000 + 1], (n % 48000) as real / 48000.0)
  {
    AtInFrames(k, sampleRate);
    HasOutputInFrames(k, sampleRate, |stream|);
    InterpolatedInFrames(stream, At(k, Step(sampleRate)), n);
  }

  lemma EmittedAt(c: AudioConverter, k: nat)
    requires c.Valid() && k < |c.emitted|
    ensures HasOutput(k, c.Rate(), |c.stream|) && At(k, c.Rate()) >= 0.0
    ensures c.emitted[k] == Quantise(Interpolate(c.stream, At(k, c.Rate())))
    ensures c.emitted[k] == Round(Interpolate(c.stream, At(k, c.Rate())) * (I16_MAX as real))
  {
    assert c.emitted[k] == (c.emitted + c.pcm)[k];
    PcmAt(c.stream, c.Rate(), c.produced, k);
    CountedOutputs(c.produced, c.Rate(), |c.stream|, k);
    AtOrdered(0, k, c.Rate());
    InterpolationStaysInRange(c.stream, At(k, c.Rate()));
  }

  // At the native rate of 48 kHz the resampler is the identity, up to quantisation.
  lemma NativeRateIsIdentity(c: AudioConverter, k: nat)
    requires c.Valid() && c.format.sampleRate == AUDIO_SAMPLE_RATE && k < |c.emitted|
    ensures k + 1 < |c.stream| && c.emitted[k] == Quantise(c.stream[k]) == Round(c.stream[k] * 32767.0)
  {
    EmittedAt(c, k);
    AtIsMultiple(k, 1.0);
    AtWhole(c.stream, k);
  }

  lemma AtWhole(stream: seq<real>, k: nat)
    requires k + 1 < |stream|
    ensures Interpolate(stream, k as real) == stream[k]
  {
  }
}
