// apps/windows/src/audio.rs: decoding native samples, downmixing, resampling to 48 kHz and
// cutting the PCM into 10 ms packets. Exact reals stand for f32 and f64.
module AudioSamples {

  const AUDIO_SAMPLE_RATE := 48000
  const AUDIO_FRAME_SAMPLES := 480
  const I16_MAX := 32767

  newtype byte = x: int | 0 <= x < 256

  type Sample16 = x: int | -0x8000 <= x <= I16_MAX

  datatype NativeSampleFormat = Unsigned8 | Signed16 | Signed24 | Signed32 | Float32

  datatype NativeAudioFormat = NativeAudioFormat(
    sampleRate: nat, channels: nat, blockAlign: nat, sampleFormat: NativeSampleFormat)
  {
    function SampleBytes(): nat
    {
      match sampleFormat
      case Unsigned8 => 1
      case Signed16 => 2
      case Signed24 => 3
      case Signed32 => 4
      case Float32 => 4
    }

    predicate IsValid()
    {
      sampleRate != 0 && channels != 0 && blockAlign >= channels * SampleBytes()
    }
  }

  // Two's complement, little endian.
  function SignExtension(top: byte): byte { if top as int < 128 then 0 else 255 }

  function Signed32Of(b0: byte, b1: byte, b2: byte, b3: byte): int
  {
    var u := b0 as int + 256 * (b1 as int + 256 * (b2 as int + 256 * b3 as int));
    if u < 0x8000_0000 then u else u - 0x1_0000_0000
  }

  function Signed16Of(b0: byte, b1: byte): Sample16
  {
    var u := b0 as int + 256 * b1 as int;
    if u < 0x8000 then u else u - 0x1_0000
  }

  function Clamp1(x: real): real { if x < -1.0 then -1.0 else if x > 1.0 then 1.0 else x }

  // `float32` reads the four bytes of an IEEE single; the format leaves nothing else open.
  function DecodeSample(format: NativeSampleFormat, bytes: seq<byte>, float32: seq<byte> -> real): (sample: real)
    requires |bytes| == NativeAudioFormat(0, 0, 0, format).SampleBytes()
    ensures -1.0 <= sample <= 1.0
  {
    match format
    case Unsigned8 => (bytes[0] as int as real - 128.0) / 128.0
    case Signed16 => Signed16Of(bytes[0], bytes[1]) as real / 32768.0
    case Signed24 => Signed32Of(bytes[0], bytes[1], bytes[2], SignExtension(bytes[2])) as real / 8388608.0
    case Signed32 => Signed32Of(bytes[0], bytes[1], bytes[2], bytes[3]) as real / 2147483648.0
    case Float32 => Clamp1(float32(bytes))
  }

  // Every format in numbers: unsigned bytes around 128, signed samples in two's complement with
  // the low byte first, each by its full scale; only floating-point samples can be out of range.
  lemma DecodedValues(b0: byte, b1: byte, b2: byte, b3: byte, float32: seq<byte> -> real)
    ensures DecodeSample(Unsigned8, [b0], float32) * 128.0 == (b0 as int - 128) as real
    ensures DecodeSample(Signed16, [b0, b1], float32) * 32768.0 ==
            (b0 as int + 0x100 * b1 as int - if b1 >= 128 then 0x1_0000 else 0) as real
    ensures DecodeSample(Signed24, [b0, b1, b2], float32) * 8388608.0 ==
            (b0 as int + 0x100 * b1 as int + 0x1_0000 * b2 as int - if b2 >= 128 then 0x100_0000 else 0) as real
    ensures DecodeSample(Signed32, [b0, b1, b2, b3], float32) * 2147483648.0 ==
            (b0 as int + 0x100 * b1 as int + 0x1_0000 * b2 as int + 0x100_0000 * b3 as int
            - if b3 >= 128 then 0x1_0000_0000 else 0) as real
    ensures var x := float32([b0, b1, b2, b3]);
            DecodeSample(Float32, [b0, b1, b2, b3], float32) == if x < -1.0 then -1.0 else if x > 1.0 then 1.0 else x
  {
  }

  // i16::to_le_bytes, and the reader on the other side of the wire.
  function Bytes16(sample: Sample16): (bytes: seq<byte>)
    ensures |bytes| == 2
  {
    var u := if sample < 0 then sample + 0x1_0000 else sample;
    [(u % 256) as byte, (u / 256) as byte]
  }

  lemma Bytes16RoundTrip(sample: Sample16)
    ensures Signed16Of(Bytes16(sample)[0], Bytes16(sample)[1]) == sample
    ensures Bytes16(sample)[0] as int + 256 * Bytes16(sample)[1] as int == if sample < 0 then sample + 65536 else sample
  {
  }

  // f64::round: halves away from zero.
  function Round(x: real): int
  {
    if x >= 0.0 then (x + 0.5).Floor else -((0.5 - x).Floor)
  }

  function Quantise(sample: real): (q: Sample16)
    ensures -I16_MAX <= q <= I16_MAX
  {
    Round(Clamp1(sample) * (I16_MAX as real))
  }

  // Rounding goes to a nearest integer, and away from zero where two are as near.
  lemma RoundIsNearest(x: real)
    ensures -0.5 <= Round(x) as real - x <= 0.5
    ensures Round(x) as real - x == 0.5 ==> x >= 0.0
    ensures Round(x) as real - x == -0.5 ==> x < 0.0
  {
  }
}
