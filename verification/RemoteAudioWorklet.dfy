// `DeskLinkAudioProcessor` of apps/windows-ui/src/remote-audio-worklet.ts: the message handler
// that fills the ring buffer, and the render callback.
module RemoteAudioWorklets {
  import opened Options
  import opened AudioTransfer
  import Ring = RemoteAudioBuffers

  const METRICS_SAMPLES := Ring.REMOTE_AUDIO_SAMPLE_RATE / 4

  // A sample that was pushed into the ring since the last reset, and the kept packet it is of.
  datatype Fed = Fed(sample: Ring.Sample, packet: nat)

  function Samples(fed: seq<Fed>): (r: seq<Ring.Sample>)
    ensures |r| == |fed| && forall i :: 0 <= i < |r| ==> r[i] == fed[i].sample
  {
    seq(|fed|, i requires 0 <= i < |fed| => fed[i].sample)
  }

  function Feed(samples: seq<Ring.Sample>, packet: nat): (r: seq<Fed>)
    ensures |r| == |samples| && forall i :: 0 <= i < |r| ==> r[i] == Fed(samples[i], packet)
  {
    seq(|samples|, i requires 0 <= i < |samples| => Fed(samples[i], packet))
  }

  // The ring holds the last samples fed.
  ghost predicate HoldsLast(fed: seq<Fed>, queue: seq<Ring.Sample>)
  {
    |queue| <= |fed| && queue == Samples(fed)[|fed| - |queue|..]
  }

  // What was fed are samples of the kept packets, in the order of the packets.
  ghost predicate OfKept(fed: seq<Fed>, kept: seq<Packet>)
  {
    && (forall i :: 0 <= i < |fed| ==> fed[i].packet < |kept| && fed[i].sample.queuedAt == kept[fed[i].packet].queuedAt)
    && (forall i, j :: 0 <= i < j < |fed| ==> fed[i].packet <= fed[j].packet)
  }

  lemma FeedHoldsLast(fed: seq<Fed>, p: Ring.Playback, values: seq<real>, queuedAt: real, capacity: nat, packet: nat)
    requires HoldsLast(fed, p.queue)
    ensures HoldsLast(fed + Feed(Ring.Tag(values, queuedAt), packet),
            Ring.AfterPush(p, values, queuedAt, capacity).queue)
  {
    var more := Ring.Tag(values, queuedAt);
    var all := p.queue + more;
    var after := fed + Feed(more, packet);
    assert all == Samples(after)[|after| - |all|..];
    var kept := Ring.Newest(all, capacity);
    assert kept == Samples(after)[|after| - |kept|..];
  }

  // Everything pushed for the kept packets: `values[k]` is what packet k brought.
  function AllFed(kept: seq<Packet>, values: seq<seq<real>>): seq<Fed>
    requires |kept| == |values|
  {
    if kept == [] then []
    else
      var n := |kept| - 1;
      AllFed(kept[..n], values[..n]) + Feed(Ring.Tag(values[n], kept[n].queuedAt), n)
  }

  lemma FeedAll(kept: seq<Packet>, values: seq<seq<real>>, packet: Packet, more: seq<real>)
    requires |kept| == |values|
    ensures AllFed(kept + [packet], values + [more])
            == AllFed(kept, values) + Feed(Ring.Tag(more, packet.queuedAt), |kept|)
  {
    assert (kept + [packet])[..|kept|] == kept && (values + [more])[..|kept|] == values;
  }

  lemma FeedOfKept(fed: seq<Fed>, kept: seq<Packet>, packet: Packet, values: seq<real>)
    requires OfKept(fed, kept)
    ensures OfKept(fed + Feed(Ring.Tag(values, packet.queuedAt), |kept|), kept + [packet])
  {
  }

  // How many samples a render takes, and the first of them in the order they were fed.
  function Taken(p: Ring.Playback, frames: nat, now: real, target: nat): nat
  {
    var young := Ring.DropStale(p, now);
    if Ring.Plays(young, target) then Ring.Take(young, frames) else 0
  }

  function FirstTaken(fed: seq<Fed>, p: Ring.Playback, now: real): nat
    requires |p.queue| <= |fed|
  {
    |fed| - |p.queue| + Ring.Expired(p.queue, now)
  }

  // Output in terms of the packets: the samples fed from `first` on, then silence.
  ghost predicate IsOutput(fed: seq<Fed>, output: seq<real>, first: nat, count: nat)
  {
    first + count <= |fed|
    && forall i :: 0 <= i < |output| ==> output[i] == if i < count then fed[first + i].sample.value else 0.0
  }

  // A render puts out the next samples fed, in order, and then silence.
  lemma RenderTakesFed(fed: seq<Fed>, p: Ring.Playback, frames: nat, now: real, target: nat)
    requires HoldsLast(fed, p.queue)
    ensures var first, count := FirstTaken(fed, p, now), Taken(p, frames, now, target);
            var after, output := Ring.AfterRender(p, frames, now, target), Ring.Output(p, frames, now, target);
            && first + count <= |fed| && |fed| - |after.queue| == first + count && HoldsLast(fed, after.queue)
            && |output| == frames && IsOutput(fed, output, first, count)
  {
    var rest := Ring.DropStale(p, now).queue;
    assert rest == Samples(fed)[|fed| - |rest|..];
    var after := Ring.AfterRender(p, frames, now, target).queue;
    assert after == rest[Taken(p, frames, now, target)..];
    assert after == Samples(fed)[|fed| - |after|..];
  }

  class DeskLinkAudioProcessor {
    const buffer: Ring.RemoteAudioBuffer
    var generation: nat
    var staleSamples: nat
    var reportAfter: nat

    ghost var kept: seq<Packet>       // pushed into the buffer since the last reset
    ghost var refused: nat
    ghost var values: seq<seq<real>>  // what each of them brought, and ...
    ghost var fed: seq<Fed>           // ... all of that, sample by sample

    ghost function Heard(): Worklet
      reads this
    {
      Worklet(generation, kept, refused)
    }

    ghost predicate Valid()
      reads this, buffer, buffer.samples, buffer.queuedAt
    {
      && buffer.Valid() && reportAfter < METRICS_SAMPLES
      && HoldsLast(fed, buffer.Queue()) && OfKept(fed, kept)
      && |values| == |kept| && fed == AllFed(kept, values)
    }

    constructor (target: int)
      ensures Valid() && fresh(buffer) && fresh(buffer.samples) && fresh(buffer.queuedAt)
      ensures Heard() == Worklet(0, [], 0) && buffer.capacity == Ring.REMOTE_AUDIO_MAX_BUFFER_SAMPLES
    {
      buffer := new Ring.RemoteAudioBuffer(Ring.REMOTE_AUDIO_MAX_BUFFER_SAMPLES, target);
      generation, staleSamples, reportAfter := 0, 0, 0;
      kept, refused, values, fed := [], 0, [], [];
    }

    // Takes one message; `samples` is the content of the transferred buffer. The buffer goes back
    // whether its packet was kept or not.
    method HandleMessage(message: Message, samples: seq<real>, currentTime: real) returns (reply: Option<Report>)
      requires Valid()
      modifies this, buffer, buffer.samples, buffer.queuedAt
      ensures Valid() && Heard() == AudioTransfer.Heard(old(Heard()), message, currentTime)
      ensures reply == if message.Samples? then Some(Recycle(message.packet.buffer)) else None
      ensures message.Samples? ==>
                (|kept| > |old(kept)| <==>
                 message.generation == old(generation) && currentTime - message.packet.queuedAt <= 0.25)
      ensures message.Reset? ==> values == [] && fed == [] && generation == message.generation
      ensures message.Reset? ==>
              buffer.View() == Ring.AfterReset(old(buffer.View())) && staleSamples == old(staleSamples)
      ensures message.Samples? && |kept| > |old(kept)| ==>
                var n := Ring.RemoteAudioBuffer.Clamped(message.packet.count as real, |samples|);
                && buffer.View() ==
                    Ring.AfterPush(old(buffer.View()), samples[..n], message.packet.queuedAt, buffer.capacity)
                && staleSamples == old(staleSamples) && values == old(values) + [samples[..n]]
                && fed == old(fed) + Feed(Ring.Tag(samples[..n], message.packet.queuedAt), |old(kept)|)
      ensures message.Samples? && kept == old(kept) ==>
                && buffer.View() == old(buffer.View()) && staleSamples == old(staleSamples) + message.packet.count
                && values == old(values) && fed == old(fed)
    {
      if message.Reset? {
        StartGeneration(message.generation);
        return None;
      }
      var packet := message.packet;
      if message.generation == generation && currentTime - packet.queuedAt <= MAX_QUEUE_SECONDS {
        Keep(packet, samples);
      } else {
        staleSamples := staleSamples + packet.count;
        refused := refused + 1;
      }
      return Some(Recycle(packet.buffer));
    }

    method StartGeneration(next: nat)
      requires Valid()
      modifies `generation, `kept, `values, `fed, buffer
      ensures Valid() && generation == next && kept == [] && values == [] && fed == []
      ensures buffer.View() == Ring.AfterReset(old(buffer.View()))
    {
      generation := next;
      buffer.Reset();
      kept, values, fed := [], [], [];
    }

    method Keep(packet: Packet, samples: seq<real>)
      requires Valid()
      modifies `kept, `values, `fed, buffer, buffer.samples, buffer.queuedAt
      ensures Valid() && kept == old(kept) + [packet]
      ensures var more := samples[..Ring.RemoteAudioBuffer.Clamped(packet.count as real, |samples|)];
              && buffer.View() == Ring.AfterPush(old(buffer.View()), more, packet.queuedAt, buffer.capacity)
              && values == old(values) + [more]
              && fed == old(fed) + Feed(Ring.Tag(more, packet.queuedAt), |old(kept)|)
    {
      ghost var more := samples[..Ring.RemoteAudioBuffer.Clamped(packet.count as real, |samples|)];
      FeedHoldsLast(fed, buffer.View(), more, packet.queuedAt, buffer.capacity, |kept|);
      FeedOfKept(fed, kept, packet, more);
      FeedAll(kept, values, packet, more);
      buffer.Push(samples, packet.count as real, packet.queuedAt);
      fed := fed + Feed(Ring.Tag(more, packet.queuedAt), |kept|);
      kept, values := kept + [packet], values + [more];
    }

    // Fills the device buffer and reports a quarter of a second at a time. What is heard is the
    // `count` samples fed from `first` on, behind all that were heard before.
    method Process(output: array<real>, currentTime: real)
      returns (report: Option<Report>, ghost first: nat, ghost count: nat)
      requires Valid() && output != buffer.samples && output != buffer.queuedAt
      modifies `reportAfter, buffer, output
      ensures Valid()
      ensures output[..] == Ring.Output(old(buffer.View()), output.Length, currentTime, buffer.targetSamples)
      ensures buffer.View() == Ring.AfterRender(old(buffer.View()), output.Length, currentTime, buffer.targetSamples)
      ensures first >= |fed| - |old(buffer.Queue())| && first + count == |fed| - |buffer.Queue()|
      ensures first == FirstTaken(fed, old(buffer.View()), currentTime)
      ensures count == Taken(old(buffer.View()), output.Length, currentTime, buffer.targetSamples)
      ensures IsOutput(fed, output[..], first, count)
      ensures report.Some? <==> old(reportAfter) + output.Length >= 12000
      ensures report.Some? ==>
                report.value == Metrics(generation, Counters(
                                          buffer.length, buffer.underrunSamples, buffer.overflowSamples,
                                          staleSamples + buffer.staleSamples, buffer.renderedSamples))
      ensures report.None? ==> reportAfter == old(reportAfter) + output.Length
    {
      first, count := RenderBlock(output, currentTime);
      report := ReportMetrics(output.Length);
    }

    method ReportMetrics(frames: nat) returns (report: Option<Report>)
      requires Valid()
      modifies `reportAfter
      ensures Valid()
      ensures report.Some? <==> old(reportAfter) + frames >= METRICS_SAMPLES
      ensures report.Some? ==>
                report.value == Metrics(generation, Counters(
                                          buffer.length, buffer.underrunSamples, buffer.overflowSamples,
                                          staleSamples + buffer.staleSamples, buffer.renderedSamples))
      ensures report.None? ==> reportAfter == old(reportAfter) + frames
    {
      reportAfter := reportAfter + frames;
      if reportAfter >= METRICS_SAMPLES {
        reportAfter := 0;
        return Some(Metrics(generation, Counters(
                              buffer.length, buffer.underrunSamples, buffer.overflowSamples,
                              staleSamples + buffer.staleSamples, buffer.renderedSamples)));
      }
      return None;
    }

    method RenderBlock(output: array<real>, currentTime: real) returns (ghost first: nat, ghost count: nat)
      requires Valid() && output != buffer.samples && output != buffer.queuedAt
      modifies buffer, output
      ensures Valid()
      ensures output[..] == Ring.Output(old(buffer.View()), output.Length, currentTime, buffer.targetSamples)
      ensures buffer.View() == Ring.AfterRender(old(buffer.View()), output.Length, currentTime, buffer.targetSamples)
      ensures first >= |fed| - |old(buffer.Queue())| && first + count == |fed| - |buffer.Queue()|
      ensures first == FirstTaken(fed, old(buffer.View()), currentTime)
      ensures count == Taken(old(buffer.View()), output.Length, currentTime, buffer.targetSamples)
      ensures IsOutput(fed, output[..], first, count)
    {
      ghost var before := buffer.View();
      first, count := FirstTaken(fed, before, currentTime),
          Taken(before, output.Length, currentTime, buffer.targetSamples);
      RenderTakesFed(fed, before, output.Length, currentTime, buffer.targetSamples);
      ghost var k, n := buffer.Render(output, currentTime);
      assert buffer.Queue() == buffer.View().queue;
    }
  }
}
