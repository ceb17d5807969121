// Whole runs of the playback queue that `RemoteAudioBuffer` implements: pushes, renders and
// resets in any order, for any capacity and any target.
module RemoteAudioPlayback {
  import opened RemoteAudioBuffers

  datatype Step = Push(values: seq<real>, queuedAt: real) | Render(frames: nat, now: real) | Reset

  // A sample that reached the device: which pushed sample it is, and when.
  datatype Heard = Heard(index: nat, sample: Sample, now: real)

  datatype History = History(pushed: seq<Sample>, playback: Playback, heard: seq<Heard>, cleared: nat)

  // The samples that a render takes from the queue `p` has after stale samples are dropped.
  function Takes(p: Playback, frames: nat, target: nat): (n: nat)
    ensures n <= |p.queue| && n <= frames
  {
    if Plays(p, target) then Take(p, frames) else 0
  }

  function HeardNow(queue: seq<Sample>, count: nat, first: nat, now: real): (r: seq<Heard>)
    requires count <= |queue|
    ensures |r| == count && forall i :: 0 <= i < count ==> r[i] == Heard(first + i, queue[i], now)
  {
    seq(count, i requires 0 <= i < count => Heard(first + i, queue[i], now))
  }

  function NewlyHeard(h: History, frames: nat, now: real, target: nat): seq<Heard>
    requires |h.playback.queue| <= |h.pushed|
  {
    var p := DropStale(h.playback, now);
    HeardNow(p.queue, Takes(p, frames, target), |h.pushed| - |p.queue|, now)
  }

  function After(h: History, step: Step, capacity: nat, target: nat): History
    requires |h.playback.queue| <= |h.pushed|
  {
    match step
    case Push(values, queuedAt) =>
      h.(pushed := h.pushed + Tag(values, queuedAt), playback := AfterPush(h.playback, values, queuedAt, capacity))
    case Reset => h.(playback := AfterReset(h.playback), cleared := h.cleared + |h.playback.queue|)
    case Render(frames, now) =>
      h.(playback := AfterRender(h.playback, frames, now, target),
          heard := h.heard + NewlyHeard(h, frames, now, target))
  }

  function Run(steps: seq<Step>, capacity: nat, target: nat): (h: History)
    ensures |h.playback.queue| <= |h.pushed|
    decreases |steps|
  {
    if steps == [] then History([], Playback([], false, false, 0, 0, 0, 0), [], 0)
    else After(Run(steps[..|steps| - 1], capacity, target), steps[|steps| - 1], capacity, target)
  }

  // ---------------------------------------------------------------- one step

  ghost predicate InOrder(heard: seq<Heard>, pushed: seq<Sample>, end: int)
  {
    && (forall i :: 0 <= i < |heard| ==>
        heard[i].index < end && heard[i].index < |pushed| && heard[i].sample == pushed[heard[i].index])
    && (forall i, j :: 0 <= i < j < |heard| ==> heard[i].index < heard[j].index)
  }

  ghost predicate Sound(h: History, capacity: nat)
  {
    && |h.playback.queue| <= capacity && |h.playback.queue| <= |h.pushed|
    && h.playback.queue == h.pushed[|h.pushed| - |h.playback.queue|..]
    && InOrder(h.heard, h.pushed, |h.pushed| - |h.playback.queue|)
    && |h.heard| == h.playback.rendered
    && |h.pushed| == h.playback.rendered + h.playback.overflow + h.playback.stale + h.cleared + |h.playback.queue|
  }

  lemma SuffixOfSuffix(pushed: seq<Sample>, m: nat, k: nat)
    requires k <= m <= |pushed|
    ensures pushed[|pushed| - m..][k..] == pushed[|pushed| - (m - k)..]
  {
  }

  lemma InOrderLater(heard: seq<Heard>, pushed: seq<Sample>, more: seq<Sample>, end: int, later: int)
    requires InOrder(heard, pushed, end) && end <= later
    ensures InOrder(heard, pushed + more, later)
  {
  }

  lemma InOrderMore(heard: seq<Heard>, more: seq<Heard>, pushed: seq<Sample>, end: int, first: nat, later: int)
    requires InOrder(heard, pushed, end) && end <= first && first + |more| <= later && first + |more| <= |pushed|
    requires forall i :: 0 <= i < |more| ==> more[i].index == first + i && more[i].sample == pushed[first + i]
    ensures InOrder(heard + more, pushed, later)
  {
  }

  lemma PushIsSound(h: History, values: seq<real>, queuedAt: real, capacity: nat, target: nat)
    requires Sound(h, capacity)
    ensures Sound(After(h, Push(values, queuedAt), capacity, target), capacity)
  {
    var more := Tag(values, queuedAt);
    var all := h.playback.queue + more;
    var pushed := h.pushed + more;
    assert all == pushed[|pushed| - |all|..];
    var dropped := |all| - |Newest(all, capacity)|;
    SuffixOfSuffix(pushed, |all|, dropped);
    InOrderLater(h.heard, h.pushed, more, |h.pushed| - |h.playback.queue|, |pushed| - |Newest(all, capacity)|);
  }

  // `more` was taken from the front of what was left in the queue.
  ghost predicate TakenFrom(pushed: seq<Sample>, more: seq<Heard>, first: int)
  {
    && 0 <= first && first + |more| <= |pushed|
    && forall i :: 0 <= i < |more| ==> more[i].index == first + i && more[i].sample == pushed[first + i]
  }

  // `after` is `h` once `more` was taken from its queue and the rest of what is gone was stale.
  ghost predicate Rendered(h: History, after: History, more: seq<Heard>)
  {
    && var p, r := h.playback, after.playback;
    && after == h.(playback := r, heard := h.heard + more)
    && |r.queue| + |more| <= |p.queue| <= |h.pushed|
    && r.queue == h.pushed[|h.pushed| - |r.queue|..]
    && TakenFrom(h.pushed, more, |h.pushed| - |r.queue| - |more|)
    && r.rendered == p.rendered + |more| && r.overflow == p.overflow
    && r.stale == p.stale + |p.queue| - |r.queue| - |more|
  }

  lemma SoundMore(h: History, after: History, more: seq<Heard>, capacity: nat)
    requires Sound(h, capacity) && Rendered(h, after, more)
    ensures Sound(after, capacity)
  {
    var left := |h.pushed| - |after.playback.queue|;
    InOrderMore(h.heard, more, h.pushed, |h.pushed| - |h.playback.queue|, left - |more|, left);
  }

  lemma TakesFront(pushed: seq<Sample>, d: Playback, frames: nat, now: real, target: nat)
    requires |d.queue| <= |pushed| && d.queue == pushed[|pushed| - |d.queue|..]
    ensures var r := Continued(d, frames, target); var count := Takes(d, frames, target);
            && r.queue == pushed[|pushed| - |r.queue|..] && |r.queue| == |d.queue| - count
            && TakenFrom(pushed, HeardNow(d.queue, count, |pushed| - |d.queue|, now), |pushed| - |d.queue|)
            && r.rendered == d.rendered + count && r.overflow == d.overflow && r.stale == d.stale
  {
    SuffixOfSuffix(pushed, |d.queue|, Takes(d, frames, target));
  }

  // What is left to render from, once the stale front is gone.
  ghost predicate Left(h: History, d: Playback)
  {
    && var p := h.playback;
    && |d.queue| <= |p.queue| <= |h.pushed| && d.queue == h.pushed[|h.pushed| - |d.queue|..]
    && d.rendered == p.rendered && d.overflow == p.overflow && d.stale == p.stale + |p.queue| - |d.queue|
  }

  lemma ContinuedIsRendered(h: History, d: Playback, after: History, more: seq<Heard>, frames: nat, now: real,
        target: nat)
    requires Left(h, d) && more == HeardNow(d.queue, Takes(d, frames, target), |h.pushed| - |d.queue|, now)
    requires after == h.(playback := Continued(d, frames, target), heard := h.heard + more)
    ensures Rendered(h, after, more)
  {
    TakesFront(h.pushed, d, frames, now, target);
    TakenIsRendered(h, d, after, more);
  }

  lemma TakenIsRendered(h: History, d: Playback, after: History, more: seq<Heard>)
    requires Left(h, d) && after == h.(playback := after.playback, heard := h.heard + more)
    requires |after.playback.queue| == |d.queue| - |more|
    requires after.playback.queue == h.pushed[|h.pushed| - |after.playback.queue|..]
    requires TakenFrom(h.pushed, more, |h.pushed| - |d.queue|)
    requires after.playback.rendered == d.rendered + |more|
    requires after.playback.overflow == d.overflow && after.playback.stale == d.stale
    ensures Rendered(h, after, more)
  {
  }

  lemma FreshAreLeft(h: History, now: real)
    requires |h.playback.queue| <= |h.pushed| && h.playback.queue == h.pushed[|h.pushed| - |h.playback.queue|..]
    ensures Left(h, DropStale(h.playback, now))
  {
    SuffixOfSuffix(h.pushed, |h.playback.queue|, Expired(h.playback.queue, now));
  }

  lemma RenderIsRendered(h: History, frames: nat, now: real, capacity: nat, target: nat)
    requires |h.playback.queue| <= |h.pushed| && Left(h, DropStale(h.playback, now))
    ensures Rendered(h, After(h, Render(frames, now), capacity, target), NewlyHeard(h, frames, now, target))
  {
    var after, more := After(h, Render(frames, now), capacity, target), NewlyHeard(h, frames, now, target);
    ContinuedIsRendered(h, DropStale(h.playback, now), after, more, frames, now, target);
  }

  lemma RenderIsSound(h: History, frames: nat, now: real, capacity: nat, target: nat)
    requires Sound(h, capacity)
    ensures Sound(After(h, Render(frames, now), capacity, target), capacity)
  {
    FreshAreLeft(h, now);
    RenderIsRendered(h, frames, now, capacity, target);
    SoundMore(h, After(h, Render(frames, now), capacity, target), NewlyHeard(h, frames, now, target), capacity);
  }

  lemma {:induction false} RunIsSound(steps: seq<Step>, capacity: nat, target: nat)
    ensures Sound(Run(steps, capacity, target), capacity)
    decreases |steps|
  {
    if steps != [] {
      var before := Run(steps[..|steps| - 1], capacity, target);
      RunIsSound(steps[..|steps| - 1], capacity, target);
      match steps[|steps| - 1] {
        case Push(values, queuedAt) => PushIsSound(before, values, queuedAt, capacity, target);
        case Render(frames, now) => RenderIsSound(before, frames, now, capacity, target);
        case Reset =>
          InOrderLater(before.heard, before.pushed, [], |before.pushed| - |before.playback.queue|, |before.pushed|);
          assert before.pushed + [] == before.pushed;
      }
    }
  }

  // ---------------------------------------------------------------- the promises

  // The ring always holds exactly the newest pushed samples, never more than fit, and a push loses
  // only what does not fit.
  lemma KeepsTheNewest(steps: seq<Step>, capacity: nat, target: nat)
    ensures var h := Run(steps, capacity, target);
            |h.playback.queue| <= capacity && h.playback.queue == h.pushed[|h.pushed| - |h.playback.queue|..]
    ensures steps != [] && steps[|steps| - 1].Push? ==>
              var before := |Run(steps[..|steps| - 1], capacity, target).playback.queue|;
              var all := before + |steps[|steps| - 1].values|;
              |Run(steps, capacity, target).playback.queue| == if all <= capacity then all else capacity
  {
    RunIsSound(steps, capacity, target);
  }

  // Every pushed sample is accounted for once.
  lemma EverySampleIsCounted(steps: seq<Step>, capacity: nat, target: nat)
    ensures var h := Run(steps, capacity, target); var p := h.playback;
            |h.pushed| == p.rendered + p.overflow + p.stale + h.cleared + |p.queue|
  {
    RunIsSound(steps, capacity, target);
  }

  // What is heard is a subsequence of what was pushed: in order, and no sample twice.
  lemma HeardInOrder(steps: seq<Step>, capacity: nat, target: nat, i: nat, j: nat)
    requires i < j < |Run(steps, capacity, target).heard|
    ensures var h := Run(steps, capacity, target);
            && h.heard[i].index < h.heard[j].index < |h.pushed|
            && h.heard[i].sample == h.pushed[h.heard[i].index] && h.heard[j].sample == h.pushed[h.heard[j].index]
  {
    RunIsSound(steps, capacity, target);
  }

  // The device gets the samples heard by this render, and silence after them.
  lemma OutputIsHeardThenSilence(h: History, frames: nat, now: real, capacity: nat, target: nat)
    requires |h.playback.queue| <= |h.pushed|
    ensures var output := Output(h.playback, frames, now, target);
            var heard := After(h, Render(frames, now), capacity, target).heard[|h.heard|..];
            && |output| == frames && |heard| <= frames
            && (forall i :: 0 <= i < frames ==> output[i] == if i < |heard| then heard[i].sample.value else 0.0)
  {
    assert After(h, Render(frames, now), capacity, target).heard[|h.heard|..] == NewlyHeard(h, frames, now, target);
  }

  ghost predicate NeverDecreasing(pushed: seq<Sample>)
  {
    forall i, j :: 0 <= i < j < |pushed| ==> pushed[i].queuedAt <= pushed[j].queuedAt
  }

  lemma {:induction false} FirstKeptIsFresh(queue: seq<Sample>, now: real)
    ensures Expired(queue, now) < |queue| ==> !IsStale(queue[Expired(queue, now)], now)
  {
    if queue != [] && IsStale(queue[0], now) {
      FirstKeptIsFresh(queue[1..], now);
    }
  }

  lemma KeptAreFresh(pushed: seq<Sample>, queue: seq<Sample>, now: real)
    requires NeverDecreasing(pushed) && |queue| <= |pushed| && queue == pushed[|pushed| - |queue|..]
    ensures forall s <- queue[Expired(queue, now)..] :: !IsStale(s, now)
  {
    var k := Expired(queue, now);
    FirstKeptIsFresh(queue, now);
    forall i | k <= i < |queue| ensures !IsStale(queue[i], now) {
      assert queue[k] == pushed[|pushed| - |queue| + k] && queue[i] == pushed[|pushed| - |queue| + i];
    }
  }

  predicate AllFresh(heard: seq<Heard>) { forall e <- heard :: !IsStale(e.sample, e.now) }

  lemma HeardNowIsFresh(heard: seq<Heard>, queue: seq<Sample>, count: nat, first: nat, now: real)
    requires AllFresh(heard) && count <= |queue| && forall s <- queue :: !IsStale(s, now)
    ensures AllFresh(heard + HeardNow(queue, count, first, now))
  {
  }

  // When queue times never decrease, nothing older than the limit is ever heard.
  lemma {:induction false} HeardIsFresh(steps: seq<Step>, capacity: nat, target: nat)
    requires NeverDecreasing(Run(steps, capacity, target).pushed)
    ensures AllFresh(Run(steps, capacity, target).heard)
    decreases |steps|
  {
    if steps != [] {
      var n := |steps| - 1;
      var before := Run(steps[..n], capacity, target);
      assert before.pushed <= Run(steps, capacity, target).pushed;
      HeardIsFresh(steps[..n], capacity, target);
      RunIsSound(steps[..n], capacity, target);
      if steps[n].Render? {
        var now := steps[n].now;
        var p := DropStale(before.playback, now);
        KeptAreFresh(before.pushed, before.playback.queue, now);
        HeardNowIsFresh(before.heard, p.queue, Takes(p, steps[n].frames, target), |before.pushed| - |p.queue|, now);
      }
    }
  }

  // ---------------------------------------------------------------- exactly when

  lemma {:induction false} ExpiredAreStale(queue: seq<Sample>, now: real)
    ensures forall i :: 0 <= i < Expired(queue, now) ==> IsStale(queue[i], now)
  {
    if queue != [] && IsStale(queue[0], now) {
      ExpiredAreStale(queue[1..], now);
      assert forall i :: 0 < i < |queue| ==> queue[i] == queue[1..][i - 1];
    }
  }

  // The earlier of two samples was queued later; at this moment it is just not stale, and the
  // later one is.
  ghost predicate IsLate(queue: seq<Sample>, i: int, j: int)
  {
    0 <= i < j < |queue| && queue[i].queuedAt > queue[j].queuedAt
  }

  lemma LateIsStale(queue: seq<Sample>, i: nat, j: nat)
    requires IsLate(queue, i, j)
    ensures var now := queue[i].queuedAt + MAX_AGE; Expired(queue, now) <= i && IsStale(queue[j], now)
  {
    ExpiredAreStale(queue, queue[i].queuedAt + MAX_AGE);
  }

  lemma StaleIsLate(queue: seq<Sample>, now: real, j: nat)
    requires Expired(queue, now) <= j < |queue| && IsStale(queue[j], now)
    ensures var k := Expired(queue, now); IsLate(queue, k, j) && Expired(queue, queue[k].queuedAt + MAX_AGE) == k
  {
    var k := Expired(queue, now);
    FirstKeptIsFresh(queue, now);
    LateIsStale(queue, k, j);
    ExpiredGrows(queue, now, queue[k].queuedAt + MAX_AGE);
  }

  lemma {:induction false} ExpiredGrows(queue: seq<Sample>, now: real, later: real)
    requires now <= later
    ensures Expired(queue, now) <= Expired(queue, later)
  {
    if queue != [] && IsStale(queue[0], now) {
      ExpiredGrows(queue[1..], now, later);
    }
  }

  // Dropping at the front leaves nothing stale, at any time, if and only if queue times never
  // decrease.
  lemma FrontDropIsEnoughExactly(queue: seq<Sample>)
    ensures (forall now, j :: Expired(queue, now) <= j < |queue| ==> !IsStale(queue[j], now)) <==>
            NeverDecreasing(queue)
  {
    if NeverDecreasing(queue) {
      forall now, j | Expired(queue, now) <= j < |queue| ensures !IsStale(queue[j], now) {
        if IsStale(queue[j], now) {
          StaleIsLate(queue, now, j);
        }
      }
    } else {
      var i, j :| 0 <= i < j < |queue| && queue[i].queuedAt > queue[j].queuedAt;
      LateIsStale(queue, i, j);
    }
  }

  // Where the earlier of two samples was queued later, a render at the moment just before it is
  // stale does not play.
  ghost predicate LateNeverPlays(p: Playback, target: nat)
  {
    forall i, j :: IsLate(p.queue, i, j) ==> !Plays(DropStale(p, p.queue[i].queuedAt + MAX_AGE), target)
  }

  // What a render at `now` hears is the queue behind its stale front, as far as it takes it.
  ghost predicate IsFromQueue(heard: seq<Heard>, p: Playback, frames: nat, now: real, target: nat)
  {
    && var k := Expired(p.queue, now);
    && |heard| == Takes(DropStale(p, now), frames, target) && k + |heard| <= |p.queue|
    && forall n :: 0 <= n < |heard| ==> heard[n].now == now && heard[n].sample == p.queue[k + n]
  }

  lemma HeardFromQueue(h: History, frames: nat, now: real, target: nat)
    requires |h.playback.queue| <= |h.pushed|
    ensures IsFromQueue(NewlyHeard(h, frames, now, target), h.playback, frames, now, target)
  {
  }

  lemma StaleIsHeard(heard: seq<Heard>, p: Playback, frames: nat, now: real, target: nat, j: nat)
    requires IsFromQueue(heard, p, frames, now, target) && Expired(p.queue, now) <= j < |p.queue|
    requires j - Expired(p.queue, now) < |heard| && IsStale(p.queue[j], now)
    ensures !AllFresh(heard)
  {
    assert heard[j - Expired(p.queue, now)] in heard;
  }

  lemma AllIsTaken(p: Playback, now: real, target: nat)
    requires Plays(DropStale(p, now), target)
    ensures Takes(DropStale(p, now), |p.queue|, target) == |p.queue| - Expired(p.queue, now)
  {
  }

  lemma LateIsHeard(h: History, target: nat, i: nat, j: nat)
    requires |h.playback.queue| <= |h.pushed| && IsLate(h.playback.queue, i, j)
    requires Plays(DropStale(h.playback, h.playback.queue[i].queuedAt + MAX_AGE), target)
    ensures !AllFresh(NewlyHeard(h, |h.playback.queue|, h.playback.queue[i].queuedAt + MAX_AGE, target))
  {
    var now := h.playback.queue[i].queuedAt + MAX_AGE;
    LateIsStale(h.playback.queue, i, j);
    AllIsTaken(h.playback, now, target);
    HeardFromQueue(h, |h.playback.queue|, now, target);
    var heard := NewlyHeard(h, |h.playback.queue|, now, target);
    StaleIsHeard(heard, h.playback, |h.playback.queue|, now, target, j);
  }

  lemma StalePlaysLate(p: Playback, now: real, target: nat, j: nat)
    requires Plays(DropStale(p, now), target) && Expired(p.queue, now) <= j < |p.queue| && IsStale(p.queue[j], now)
    ensures !LateNeverPlays(p, target)
  {
    StaleIsLate(p.queue, now, j);
  }

  lemma StaleHeardIsLate(heard: seq<Heard>, p: Playback, frames: nat, now: real, target: nat, n: nat)
    requires IsFromQueue(heard, p, frames, now, target) && n < |heard| && IsStale(heard[n].sample, now)
    ensures !LateNeverPlays(p, target)
  {
    StalePlaysLate(p, now, target, Expired(p.queue, now) + n);
  }

  // The next render hears no stale sample, whenever it comes and however much it asks for, if and
  // only if the queue holds no late pair that would play.
  lemma NextRenderIsFreshExactly(h: History, target: nat)
    requires |h.playback.queue| <= |h.pushed|
    ensures (forall frames: nat, now :: AllFresh(NewlyHeard(h, frames, now, target))) <==>
            LateNeverPlays(h.playback, target)
  {
    if LateNeverPlays(h.playback, target) {
      forall frames: nat, now ensures AllFresh(NewlyHeard(h, frames, now, target)) {
        var heard := NewlyHeard(h, frames, now, target);
        HeardFromQueue(h, frames, now, target);
        forall e <- heard ensures !IsStale(e.sample, e.now) {
          var n :| 0 <= n < |heard| && heard[n] == e;
          if IsStale(e.sample, e.now) {
            StaleHeardIsLate(heard, h.playback, frames, now, target, n);
          }
        }
      }
    } else {
      var i: nat, j: nat :| IsLate(h.playback.queue, i, j)
        && Plays(DropStale(h.playback, h.playback.queue[i].queuedAt + MAX_AGE), target);
      LateIsHeard(h, target, i, j);
    }
  }

  // While playing, that is: if and only if the queue times never decrease.
  lemma PlayingIsFreshExactly(h: History, target: nat)
    requires |h.playback.queue| <= |h.pushed| && h.playback.playing
    ensures (forall frames: nat, now :: AllFresh(NewlyHeard(h, frames, now, target))) <==>
            NeverDecreasing(h.playback.queue)
  {
    NextRenderIsFreshExactly(h, target);
    if !NeverDecreasing(h.playback.queue) {
      var i, j :| 0 <= i < j < |h.playback.queue| && h.playback.queue[i].queuedAt > h.playback.queue[j].queuedAt;
      assert IsLate(h.playback.queue, i, j);
    }
  }

  lemma FreshSuffix(heard: seq<Heard>, more: seq<Heard>)
    requires AllFresh(heard + more)
    ensures AllFresh(more)
  {
    forall e <- more ensures !IsStale(e.sample, e.now) {
      assert e in heard + more;
    }
  }

  lemma RunMore(steps: seq<Step>, step: Step, capacity: nat, target: nat)
    ensures Run(steps + [step], capacity, target) == After(Run(steps, capacity, target), step, capacity, target)
  {
    assert (steps + [step])[..|steps|] == steps;
  }

  // Without that, a stale sample behind a fresh one is heard.
  lemma HeardCanBeStale()
    ensures !AllFresh(Run([Push([1.0], 10.0)] + [Push([2.0], 0.0)] + [Render(2, 10.25)], 2, 1).heard)
  {
    var first, second, third := Push([1.0], 10.0), Push([2.0], 0.0), Render(2, 10.25);
    var h := Run([first] + [second], 2, 1);
    assert h.playback.queue == [Sample(1.0, 10.0), Sample(2.0, 0.0)] by {
      assert [] + [first] == [first];
      RunMore([], first, 2, 1);
      RunMore([first], second, 2, 1);
    }
    RunMore([first] + [second], third, 2, 1);
    LateIsHeard(h, 1, 0, 1);
    if AllFresh(h.heard + NewlyHeard(h, 2, 10.25, 1)) {
      FreshSuffix(h.heard, NewlyHeard(h, 2, 10.25, 1));
    }
  }
}
