// `RemoteAudioBuffer` of apps/windows-ui/src/remote-audio-buffer.ts: the drop-oldest ring between
// the network and the audio device, and the plain queue that it implements.
module RemoteAudioBuffers {
  const REMOTE_AUDIO_SAMPLE_RATE := 48000
  const REMOTE_AUDIO_MAX_BUFFER_SAMPLES := 12000
  const MAX_AGE: real := (REMOTE_AUDIO_MAX_BUFFER_SAMPLES as real) / (REMOTE_AUDIO_SAMPLE_RATE as real)

  // One PCM sample and the time its packet was queued, in seconds.
  datatype Sample = Sample(value: real, queuedAt: real)

  function Tag(values: seq<real>, queuedAt: real): (r: seq<Sample>)
    ensures |r| == |values| && forall i :: 0 <= i < |r| ==> r[i] == Sample(values[i], queuedAt)
  {
    seq(|values|, i requires 0 <= i < |values| => Sample(values[i], queuedAt))
  }

  function Values(queue: seq<Sample>): (r: seq<real>)
    ensures |r| == |queue| && forall i :: 0 <= i < |r| ==> r[i] == queue[i].value
  {
    seq(|queue|, i requires 0 <= i < |queue| => queue[i].value)
  }

  function Silence(n: nat): (r: seq<real>)
    ensures |r| == n && forall i :: 0 <= i < n ==> r[i] == 0.0
  {
    seq(n, _ => 0.0)
  }

  // ---------------------------------------------------------------- the queue

  datatype Playback = Playback(queue: seq<Sample>, playing: bool, started: bool,
                               underrun: nat, overflow: nat, rendered: nat, stale: nat)

  function Newest(queue: seq<Sample>, capacity: nat): seq<Sample>
  {
    if |queue| <= capacity then queue else queue[|queue| - capacity..]
  }

  function AfterPush(p: Playback, values: seq<real>, queuedAt: real, capacity: nat): Playback
  {
    var all := p.queue + Tag(values, queuedAt);
    p.(queue := Newest(all, capacity), overflow := p.overflow + |all| - |Newest(all, capacity)|)
  }

  predicate IsStale(s: Sample, now: real) { now - s.queuedAt > MAX_AGE }

  // How many samples at the front are too old.
  function Expired(queue: seq<Sample>, now: real): (n: nat)
    ensures n <= |queue|
  {
    if queue == [] || !IsStale(queue[0], now) then 0 else 1 + Expired(queue[1..], now)
  }

  function DropStale(p: Playback, now: real): Playback
  {
    p.(queue := p.queue[Expired(p.queue, now)..], stale := p.stale + Expired(p.queue, now))
  }

  lemma DropStaleStep(p: Playback, now: real)
    requires p.queue != [] && IsStale(p.queue[0], now)
    ensures DropStale(p.(queue := p.queue[1..], stale := p.stale + 1), now) == DropStale(p, now)
  {
  }

  lemma NothingStale(p: Playback, now: real)
    requires p.queue != [] ==> !IsStale(p.queue[0], now)
    ensures DropStale(p, now) == p
  {
  }

  // Playback starts only when the target is reached, and stops when the queue runs dry.
  predicate Plays(p: Playback, target: nat) { p.playing || |p.queue| >= target }

  function Take(p: Playback, n: nat): nat { if n <= |p.queue| then n else |p.queue| }

  function AfterRender(p: Playback, n: nat, now: real, target: nat): Playback
  {
    Continued(DropStale(p, now), n, target)
  }

  function Output(p: Playback, n: nat, now: real, target: nat): seq<real>
  {
    Played(DropStale(p, now), n, target)
  }

  function Continued(p: Playback, n: nat, target: nat): Playback
  {
    if !Plays(p, target) then
      if p.started then p.(underrun := p.underrun + n) else p
    else
      var count := Take(p, n);
      Playback(p.queue[count..], count == n, if p.playing then p.started else true,
          p.underrun + (n - count), p.overflow, p.rendered + count, p.stale)
  }

  function Played(p: Playback, n: nat, target: nat): seq<real>
  {
    if !Plays(p, target) then Silence(n)
    else Values(p.queue[..Take(p, n)]) + Silence(n - Take(p, n))
  }

  function AfterReset(p: Playback): Playback { p.(queue := [], playing := false, started := false) }

  // ---------------------------------------------------------------- a render, sample by sample

  // What is dropped for its age: the first k samples, all older than 0.25 s, up to the first that
  // is not.
  ghost predicate DropsOld(queue: seq<Sample>, now: real, k: nat)
  {
    && k <= |queue| && (forall i :: 0 <= i < k ==> now - queue[i].queuedAt > 0.25)
    && (k < |queue| ==> now - queue[k].queuedAt <= 0.25)
  }

  lemma {:induction false} ExpiredExactly(queue: seq<Sample>, now: real, k: nat)
    ensures DropsOld(queue, now, k) <==> k == Expired(queue, now)
  {
    if queue != [] && IsStale(queue[0], now) {
      if k > 0 {
        ExpiredExactly(queue[1..], now, k - 1);
        if DropsOld(queue, now, k) {
          assert DropsOld(queue[1..], now, k - 1);
        }
        if k - 1 == Expired(queue[1..], now) {
          assert forall i :: 0 < i < |queue| ==> queue[i] == queue[1..][i - 1];
        }
      }
    }
  }

  // One block for the device: old samples go; a buffer that is not playing waits, in silence, for
  // `target` samples; then the block is filled as far as samples go, and playing goes on only
  // while they fill it.
  ghost predicate IsBlock(p: Playback, q: Playback, output: seq<real>, n: nat, target: nat, k: nat, count: nat)
  {
    && k <= |p.queue| && k + count <= |p.queue| && |output| == n
    && var left := |p.queue| - k; var waits := !p.playing && left < target;
    && count == (if waits then 0 else if left < n then left else n)
    && (forall i :: 0 <= i < n ==> output[i] == if i < count then p.queue[k + i].value else 0.0)
    && q.queue == p.queue[k + count..] && q.playing == (!waits && count == n)
    && q.started == (p.started || (!p.playing && !waits))
    && q.underrun == p.underrun + (if !waits then n - count else if p.started then n else 0)
    && q.overflow == p.overflow && q.rendered == p.rendered + count && q.stale == p.stale + k
  }

  lemma RenderIsBlock(p: Playback, n: nat, now: real, target: nat) returns (k: nat, count: nat)
    ensures DropsOld(p.queue, now, k)
    ensures IsBlock(p, AfterRender(p, n, now, target), Output(p, n, now, target), n, target, k, count)
  {
    k := Expired(p.queue, now);
    ExpiredExactly(p.queue, now, k);
    var young := DropStale(p, now);
    count := if Plays(young, target) then Take(young, n) else 0;
    assert young.queue[count..] == p.queue[k + count..];
  }

  // Position `at` of a ring of `capacity` slots, for positions at most one lap ahead.
  // ---------------------------------------------------------------- the ring

  function Wrapped(at: nat, capacity: nat): nat { if at < capacity then at else at - capacity }

  lemma WrapIsModulo(at: nat, capacity: nat)
    requires 0 < capacity && at < 2 * capacity
    ensures at % capacity == Wrapped(at, capacity)
  {
    if at >= capacity {
      assert at == capacity * 1 + (at - capacity);
    }
  }

  // The `length` samples that start at `start`, in queue order.
  function Window(values: seq<real>, times: seq<real>, start: nat, length: nat): (w: seq<Sample>)
    requires |values| == |times| && start < |values| && length <= |values|
    ensures |w| == length
    ensures forall i :: 0 <= i < length ==>
              w[i] == Sample(values[Wrapped(start + i, |values|)], times[Wrapped(start + i, |values|)])
  {
    seq(length, i requires 0 <= i < length =>
        Sample(values[Wrapped(start + i, |values|)], times[Wrapped(start + i, |values|)]))
  }

  lemma WindowWithout(values: seq<real>, times: seq<real>, start: nat, length: nat, k: nat)
    requires |values| == |times| && start < |values| && k <= length <= |values|
    ensures var next := Wrapped(start + k, |values|);
            next < |values| && Window(values, times, next, length - k) == Window(values, times, start, length)[k..]
  {
  }

  lemma WindowWith(values: seq<real>, times: seq<real>, start: nat, length: nat, value: real, time: real)
    requires |values| == |times| && start < |values| && length < |values|
    ensures var at := Wrapped(start + length, |values|);
            && at < |values|
            && Window(values[at := value], times[at := time], start, length + 1) ==
                Window(values, times, start, length) + [Sample(value, time)]
  {
  }

  class RemoteAudioBuffer {
    const samples: array<real>
    const queuedAt: array<real>
    const capacity: nat
    const targetSamples: nat
    var readIndex: nat
    var length: nat
    var playing: bool
    var started: bool
    var underrunSamples: nat
    var overflowSamples: nat
    var renderedSamples: nat
    var staleSamples: nat

    ghost predicate Valid()
      reads this, samples, queuedAt
    {
      && samples != queuedAt
      && samples.Length == queuedAt.Length == capacity
      && 1 <= targetSamples <= capacity
      && readIndex < capacity && length <= capacity
    }

    ghost function Queue(): seq<Sample>
      requires Valid()
      reads this, samples, queuedAt
    {
      Window(samples[..], queuedAt[..], readIndex, length)
    }

    ghost function View(): Playback
      requires Valid()
      reads this, samples, queuedAt
    {
      Playback(Queue(), playing, started, underrunSamples, overflowSamples, renderedSamples, staleSamples)
    }

    // The source throws a RangeError for a capacity that is not a positive integer; the target is
    // rounded and kept within the capacity.
    constructor (capacity: nat, target: int)
      requires capacity >= 1
      ensures Valid() && fresh(samples) && fresh(queuedAt) && this.capacity == capacity
      ensures targetSamples == if target < 1 then 1 else if target > capacity then capacity else target
      ensures View() == Playback([], false, false, 0, 0, 0, 0)
    {
      samples := new real[capacity](_ => 0.0);
      queuedAt := new real[capacity](_ => 0.0);
      this.capacity := capacity;
      var least := if target < capacity then target else capacity;
      targetSamples := if least < 1 then 1 else least;
      readIndex, length, playing, started := 0, 0, false, false;
      underrunSamples, overflowSamples, renderedSamples, staleSamples := 0, 0, 0, 0;
    }

    method Reset()
      requires Valid()
      modifies this
      ensures Valid() && View() == AfterReset(old(View()))
      ensures Queue() == [] && !playing && !started && overflowSamples == old(overflowSamples)
              && underrunSamples == old(underrunSamples) && renderedSamples == old(renderedSamples)
              && staleSamples == old(staleSamples)
    {
      readIndex := 0;
      length := 0;
      playing := false;
      started := false;
    }

    // Advances the read position; the samples passed over leave the queue.
    method Advance(k: nat)
      requires Valid() && k <= length
      modifies `readIndex, `length
      ensures Valid() && length == old(length) - k && Queue() == old(Queue())[k..]
    {
      WrapIsModulo(readIndex + k, capacity);
      WindowWithout(samples[..], queuedAt[..], readIndex, length, k);
      readIndex := (readIndex + k) % capacity;
      length := length - k;
    }

    method Write(value: real, time: real)
      requires Valid() && length < capacity
      modifies `length, samples, queuedAt
      ensures Valid() && length == old(length) + 1 && Queue() == old(Queue()) + [Sample(value, time)]
    {
      WrapIsModulo(readIndex + length, capacity);
      WindowWith(samples[..], queuedAt[..], readIndex, length, value, time);
      var writeIndex := (readIndex + length) % capacity;
      samples[writeIndex] := value;
      queuedAt[writeIndex] := time;
      length := length + 1;
    }

    // Keeps the newest `capacity` samples of the queue and the packet together.
    method Push(packet: seq<real>, requested: real, time: real)
      requires Valid()
      modifies this, samples, queuedAt
      ensures Valid()
      ensures var n := Clamped(requested, |packet|);
              View() == AfterPush(old(View()), packet[..n], time, capacity)
      ensures var all := old(Queue()) + Tag(packet[..Clamped(requested, |packet|)], time);
              && length == (if |all| <= capacity then |all| else capacity) && Queue() == all[|all| - length..]
              && overflowSamples == old(overflowSamples) + |all| - length
    {
      var count := Clamped(requested, |packet|);
      var skipped := if count > capacity then count - capacity else 0;
      var discard := if length + count - skipped > capacity then length + count - skipped - capacity else 0;
      NewestOfBoth(Queue(), packet[..count], time, capacity, skipped, discard);
      assert packet[..count][skipped..] == packet[skipped..count];
      Advance(discard);
      overflowSamples := overflowSamples + skipped + discard;
      WriteAll(packet, skipped, count, time);
    }

    method WriteAll(packet: seq<real>, first: nat, count: nat, time: real)
      requires Valid() && first <= count <= |packet| && length + (count - first) <= capacity
      modifies `length, samples, queuedAt
      ensures Valid() && Queue() == old(Queue()) + Tag(packet[first..count], time)
    {
      var index := first;
      while index < count
        invariant first <= index <= count && Valid() && length == old(length) + index - first
        invariant Queue() == old(Queue()) + Tag(packet[first..index], time)
      {
        assert packet[first..index + 1] == packet[first..index] + [packet[index]];
        Write(packet[index], time);
        index := index + 1;
      }
    }

    static function Clamped(requested: real, most: nat): nat
    {
      var floor := requested.Floor;
      if floor < 0 then 0 else if floor > most then most else floor
    }

    // Rounded down, and between none and all.
    static lemma ClampedExactly(requested: real, most: nat)
      ensures requested < 1.0 ==> Clamped(requested, most) == 0
      ensures 0.0 <= requested < most as real ==>
                Clamped(requested, most) as real <= requested < Clamped(requested, most) as real + 1.0
      ensures requested >= most as real ==> Clamped(requested, most) == most
    {
    }

    static lemma NewestOfBoth(before: seq<Sample>, values: seq<real>, time: real, capacity: nat, skipped: nat,
          discard: nat)
      requires |before| <= capacity
      requires skipped == if |values| > capacity then |values| - capacity else 0
      requires discard == if |before| + |values| - skipped > capacity then |before| + |values| - skipped - capacity
              else 0
      ensures discard <= |before| && skipped <= |values|
      ensures before[discard..] + Tag(values[skipped..], time) == Newest(before + Tag(values, time), capacity)
    {
    }

    predicate FrontIsStale(now: real)
      requires Valid() && length > 0
      reads this, samples, queuedAt
      ensures FrontIsStale(now) == IsStale(Queue()[0], now)
    {
      now - queuedAt[readIndex] > MAX_AGE
    }

    method DiscardFront()
      requires Valid() && length > 0
      modifies `readIndex, `length, `staleSamples
      ensures Valid() && length == old(length) - 1
      ensures View() == old(View()).(queue := old(Queue())[1..], stale := old(staleSamples) + 1)
    {
      Advance(1);
      staleSamples := staleSamples + 1;
    }

    method DiscardStale(now: real)
      requires Valid()
      modifies `readIndex, `length, `staleSamples
      ensures Valid() && View() == DropStale(old(View()), now)
      ensures var k := |old(Queue())| - length;
              k >= 0 && DropsOld(old(Queue()), now, k) && Queue() == old(Queue())[k..]
    {
      ExpiredExactly(Queue(), now, Expired(Queue(), now));
      while length > 0 && FrontIsStale(now)
        invariant Valid() && DropStale(View(), now) == DropStale(old(View()), now)
        decreases length
      {
        DropStaleStep(View(), now);
        DiscardFront();
      }
      NothingStale(View(), now);
    }

    // Fills the device buffer.
    method Render(output: array<real>, now: real) returns (ghost k: nat, ghost count: nat)
      requires Valid() && output != samples && output != queuedAt
      modifies this, output
      ensures Valid()
      ensures View() == AfterRender(old(View()), output.Length, now, targetSamples)
      ensures output[..] == Output(old(View()), output.Length, now, targetSamples)
      ensures DropsOld(old(Queue()), now, k)
      ensures IsBlock(old(View()), View(), output[..], output.Length, targetSamples, k, count)
    {
      k, count := RenderIsBlock(View(), output.Length, now, targetSamples);
      forall i | 0 <= i < output.Length { output[i] := 0.0; }
      DiscardStale(now);
      Play(output);
    }

    // The part of a render after stale samples are gone.
    method Play(output: array<real>)
      requires Valid() && output != samples && output != queuedAt && output[..] == Silence(output.Length)
      modifies `readIndex, `length, `playing, `started, `underrunSamples, `renderedSamples, output
      ensures Valid()
      ensures View() == Continued(old(View()), output.Length, targetSamples)
      ensures output[..] == Played(old(View()), output.Length, targetSamples)
    {
      if !playing {
        if length < targetSamples {
          if started {
            underrunSamples := underrunSamples + output.Length;
          }
          return;
        }
        playing := true;
        started := true;
      }
      var count := if output.Length < length then output.Length else length;
      Copy(output, count);
      renderedSamples := renderedSamples + count;
      if count < output.Length {
        underrunSamples := underrunSamples + (output.Length - count);
        playing := false;
      }
    }

    method Copy(output: array<real>, count: nat)
      requires Valid() && output != samples && output != queuedAt && count <= length && count <= output.Length
      requires output[..] == Silence(output.Length)
      modifies `readIndex, `length, output
      ensures Valid() && length == old(length) - count && Queue() == old(Queue())[count..]
      ensures output[..] == Values(old(Queue())[..count]) + Silence(output.Length - count)
    {
      ghost var queue := Queue();
      var index := 0;
      while index < count
        invariant index <= count && Valid() && length == old(length)
                && readIndex == Wrapped(old(readIndex) + index, capacity)
        invariant forall i :: 0 <= i < index ==> output[i] == queue[i].value
        invariant forall i :: index <= i < output.Length ==> output[i] == 0.0
      {
        output[index] := samples[readIndex];
        WrapIsModulo(readIndex + 1, capacity);
        readIndex := (readIndex + 1) % capacity;
        index := index + 1;
      }
      WindowWithout(samples[..], queuedAt[..], old(readIndex), length, count);
      length := length - count;
    }
  }
}
