// The audio payload read by apps/windows-ui/src/remote-audio.ts: 28 bytes of little-endian header,
// then up to 480 PCM samples.
module RemoteAudioPayloads {
  import opened Options
  import opened AudioSamples

  const AUDIO_PREFIX_BYTES := 28
  const MAX_AUDIO_PAYLOAD_BYTES := 960

  datatype Header = Header(streamId: nat, sequence: nat, captureTimestampUs: nat, sampleCount: nat)

  function LittleEndian(bytes: seq<byte>): nat
  {
    if bytes == [] then 0 else bytes[0] as nat + 256 * LittleEndian(bytes[1..])
  }

  function ToLittleEndian(n: nat, width: nat): (bytes: seq<byte>)
    ensures |bytes| == width
  {
    if width == 0 then [] else [(n % 256) as byte] + ToLittleEndian(n / 256, width - 1)
  }

  function Power256(width: nat): nat { if width == 0 then 1 else 256 * Power256(width - 1) }

  lemma {:induction false} LittleEndianRoundTrip(n: nat, width: nat)
    requires n < Power256(width)
    ensures LittleEndian(ToLittleEndian(n, width)) == n
  {
    if width > 0 {
      LittleEndianRoundTrip(n / 256, width - 1);
    }
  }

  lemma {:induction false} ToLittleEndianRoundTrip(bytes: seq<byte>)
    ensures LittleEndian(bytes) < Power256(|bytes|)
    ensures ToLittleEndian(LittleEndian(bytes), |bytes|) == bytes
  {
    if bytes != [] {
      ToLittleEndianRoundTrip(bytes[1..]);
      assert bytes == [bytes[0]] + bytes[1..];
    }
  }

  // The low byte comes first.
  lemma LowByteFirst(bytes: seq<byte>)
    requires bytes != []
    ensures LittleEndian(bytes) % 256 == bytes[0] as nat && LittleEndian(bytes) / 256 == LittleEndian(bytes[1..])
  {
  }

  // None stands for the TypeError.
  function ReadRemoteAudioPayload(bytes: seq<byte>): Option<Header>
  {
    var pcmBytes := |bytes| - AUDIO_PREFIX_BYTES;
    if pcmBytes <= 0 || pcmBytes > MAX_AUDIO_PAYLOAD_BYTES || pcmBytes % 2 != 0 then None
    else
      var streamId := LittleEndian(bytes[0..8]);
      var sequence := LittleEndian(bytes[8..16]);
      var captureTimestampUs := LittleEndian(bytes[16..24]);
      if streamId == 0 || sequence == 0 || captureTimestampUs == 0 || LittleEndian(bytes[24..28]) != AUDIO_SAMPLE_RATE
          then None
      else Some(Header(streamId, sequence, captureTimestampUs, pcmBytes / 2))
  }

  // ---------------------------------------------------------------- the wire format

  function PcmBytes(pcm: seq<Sample16>): (bytes: seq<byte>)
    ensures |bytes| == 2 * |pcm|
  {
    if pcm == [] then [] else Bytes16(pcm[0]) + PcmBytes(pcm[1..])
  }

  lemma {:induction false} PcmBytesAt(pcm: seq<Sample16>, i: nat)
    requires i < |pcm|
    ensures Signed16Of(PcmBytes(pcm)[2 * i], PcmBytes(pcm)[2 * i + 1]) == pcm[i]
  {
    Bytes16RoundTrip(pcm[0]);
    if i > 0 {
      PcmBytesAt(pcm[1..], i - 1);
    }
  }

  predicate Fits64(n: nat) { 0 < n < Power256(8) }

  function Payload(streamId: nat, sequence: nat, captureTimestampUs: nat, pcm: seq<Sample16>): seq<byte>
  {
    ToLittleEndian(streamId, 8) + ToLittleEndian(sequence, 8) + ToLittleEndian(captureTimestampUs, 8)
    + ToLittleEndian(AUDIO_SAMPLE_RATE, 4) + PcmBytes(pcm)
  }

  lemma SampleRateFits()
    ensures AUDIO_SAMPLE_RATE < Power256(4)
  {
    assert Power256(4) == 256 * Power256(3) == 65536 * Power256(2);
  }

  lemma Parts(a: seq<byte>, b: seq<byte>, c: seq<byte>, d: seq<byte>, e: seq<byte>)
    requires |a| == |b| == |c| == 8 && |d| == 4
    ensures var bytes := a + b + c + d + e;
            bytes[0..8] == a && bytes[8..16] == b && bytes[16..24] == c && bytes[24..28] == d
  {
  }

  // Every well-formed payload is read back.
  lemma ReadOfPayload(streamId: nat, sequence: nat, captureTimestampUs: nat, pcm: seq<Sample16>)
    requires Fits64(streamId) && Fits64(sequence) && Fits64(captureTimestampUs) && 1 <= |pcm| <= 480
    ensures ReadRemoteAudioPayload(Payload(streamId, sequence, captureTimestampUs, pcm)) ==
            Some(Header(streamId, sequence, captureTimestampUs, |pcm|))
  {
    LittleEndianRoundTrip(streamId, 8);
    LittleEndianRoundTrip(sequence, 8);
    LittleEndianRoundTrip(captureTimestampUs, 8);
    SampleRateFits();
    LittleEndianRoundTrip(AUDIO_SAMPLE_RATE, 4);
    Parts(ToLittleEndian(streamId, 8), ToLittleEndian(sequence, 8), ToLittleEndian(captureTimestampUs, 8),
          ToLittleEndian(AUDIO_SAMPLE_RATE, 4), PcmBytes(pcm));
  }

  lemma PrefixParts(bytes: seq<byte>)
    requires |bytes| >= 28
    ensures bytes[..28] == bytes[0..8] + bytes[8..16] + bytes[16..24] + bytes[24..28]
  {
  }

  // And nothing else is accepted: what is read is the payload that its header and PCM make.
  lemma PayloadOfRead(bytes: seq<byte>)
    requires ReadRemoteAudioPayload(bytes).Some?
    ensures var h := ReadRemoteAudioPayload(bytes).value;
            && Fits64(h.streamId) && Fits64(h.sequence) && Fits64(h.captureTimestampUs) && 1 <= h.sampleCount <= 480
            && |bytes| == AUDIO_PREFIX_BYTES + 2 * h.sampleCount
            && bytes[..AUDIO_PREFIX_BYTES] == ToLittleEndian(h.streamId, 8) + ToLittleEndian(h.sequence, 8)
                 + ToLittleEndian(h.captureTimestampUs, 8) + ToLittleEndian(AUDIO_SAMPLE_RATE, 4)
  {
    ToLittleEndianRoundTrip(bytes[0..8]);
    ToLittleEndianRoundTrip(bytes[8..16]);
    ToLittleEndianRoundTrip(bytes[16..24]);
    ToLittleEndianRoundTrip(bytes[24..28]);
    PrefixParts(bytes);
  }

  // Fills the front of a pooled buffer in place.
  method DecodePcm(view: seq<byte>, samples: array<real>, count: nat)
    requires |view| >= AUDIO_PREFIX_BYTES + 2 * count && count <= samples.Length
    modifies samples
    ensures forall i :: 0 <= i < count ==>
              samples[i] ==
                Signed16Of(view[AUDIO_PREFIX_BYTES + 2 * i], view[AUDIO_PREFIX_BYTES + 2 * i + 1]) as real / 32768.0
    ensures forall i :: count <= i < samples.Length ==> samples[i] == old(samples[i])
  {
    var index := 0;
    while index < count
      invariant index <= count
      invariant forall i :: 0 <= i < index ==>
                  samples[i] ==
                    Signed16Of(view[AUDIO_PREFIX_BYTES + 2 * i], view[AUDIO_PREFIX_BYTES + 2 * i + 1]) as real / 32768.0
      invariant forall i :: index <= i < samples.Length ==> samples[i] == old(samples[i])
    {
      samples[index] :=
          Signed16Of(view[AUDIO_PREFIX_BYTES + index * 2], view[AUDIO_PREFIX_BYTES + index * 2 + 1]) as real / 32768.0;
      index := index + 1;
    }
  }
}
