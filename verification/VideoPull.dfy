// `SerialVideoPull` of apps/windows-ui/src/video-pull-loop.ts. Every stretch of a loop between two
// awaits is one method; starts, stops and the loops' continuations may follow in any order.
module VideoPull {
  import opened Options
  import opened Decimal

  const VIDEO_PULL_RETRY_DELAYS_MS: seq<nat> := [100, 250, 500, 1000, 2000]
  const MAX_SAFE_INTEGER := 9007199254740991

  datatype VideoPullKey = VideoPullKey(streamId: string, configVersion: nat)

  function KeyId(key: VideoPullKey): string { key.streamId + ":" + Print(key.configVersion) }

  function VideoPullRetryDelay(consecutiveFailures: real): nat
  {
    var wanted := consecutiveFailures.Floor - 1;
    VIDEO_PULL_RETRY_DELAYS_MS[if wanted < 0 then 0 else if wanted > 4 then 4 else wanted]
  }

  // The delay never decreases, starts at 100 ms and stays at 2 s from the fifth failure on.
  lemma DelaysGrow(a: real, b: real)
    requires a <= b
    ensures 100 <= VideoPullRetryDelay(a) <= VideoPullRetryDelay(b) <= 2000
    ensures b >= 5.0 ==> VideoPullRetryDelay(b) == 2000
    ensures a < 2.0 ==> VideoPullRetryDelay(a) == 100
    ensures 2.0 <= a < 3.0 ==> VideoPullRetryDelay(a) == 250
    ensures 3.0 <= a < 4.0 ==> VideoPullRetryDelay(a) == 500
    ensures 4.0 <= a < 5.0 ==> VideoPullRetryDelay(a) == 1000
  {
  }

  lemma LastColon(key: VideoPullKey)
    ensures var s, at := KeyId(key), |key.streamId|;
            && at < |s| && s[at] == ':' && (forall k :: at < k < |s| ==> s[k] != ':')
            && s[..at] == key.streamId && s[at + 1..] == Print(key.configVersion)
  {
    assert forall c <- Print(key.configVersion) :: IsDigit(c) && c != ':';
  }

  // Different streams or configurations never share a key.
  lemma KeyIdIsInjective(a: VideoPullKey, b: VideoPullKey)
    requires KeyId(a) == KeyId(b)
    ensures a == b
  {
    LastColon(a);
    LastColon(b);
    assert |a.streamId| == |b.streamId|;
    ValueOfPrint(a.configVersion);
    ValueOfPrint(b.configVersion);
  }

  // ---------------------------------------------------------------- what happened

  datatype Entry =
    | Started(generation: nat, keyId: string)
    | Stopped
    | Delivered(generation: nat, keyId: string)

  datatype Log = Empty | Then(before: Log, entry: Entry)

  // The loop that the latest start or stop leaves in charge.
  function InCharge(log: Log): Option<(nat, string)>
  {
    match log
    case Empty => None
    case Then(before, Started(generation, keyId)) => Some((generation, keyId))
    case Then(before, Stopped) => None
    case Then(before, Delivered(_, _)) => InCharge(before)
  }

  ghost predicate Sound(log: Log)
  {
    match log
    case Empty => true
    case Then(before, entry) =>
      Sound(before) && (entry.Delivered? ==> InCharge(before) == Some((entry.generation, entry.keyId)))
  }

  function Entries(log: Log): seq<Entry>
  {
    match log
    case Empty => []
    case Then(before, entry) => Entries(before) + [entry]
  }

  lemma {:induction false} InChargeSince(log: Log, from: nat)
    returns (at: nat)
    requires InCharge(log).Some? && from < |Entries(log)| && !Entries(log)[from].Delivered?
    ensures from <= at < |Entries(log)| && Entries(log)[at] == Started(InCharge(log).value.0, InCharge(log).value.1)
    ensures forall k :: at < k < |Entries(log)| ==> Entries(log)[k].Delivered?
  {
    if log.entry.Started? {
      at := |Entries(log)| - 1;
    } else {
      at := InChargeSince(log.before, from);
    }
  }

  // A delivery comes from the loop started last, with no stop or start in between; in particular
  // nothing is delivered between a stop and the next start.
  lemma {:induction false} DeliveredByTheLoopInCharge(log: Log, i: nat, j: nat) returns (at: nat)
    requires Sound(log) && i < j < |Entries(log)| && !Entries(log)[i].Delivered? && Entries(log)[j].Delivered?
    ensures i <= at < j && Entries(log)[at] == Started(Entries(log)[j].generation, Entries(log)[j].keyId)
    ensures forall k :: at < k < j ==> Entries(log)[k].Delivered?
  {
    if j == |Entries(log)| - 1 {
      at := InChargeSince(log.before, i);
    } else {
      at := DeliveredByTheLoopInCharge(log.before, i, j);
    }
  }

  // ---------------------------------------------------------------- the loops

  datatype Stage = Pulling | Delivering | Waiting(delayMs: nat)

  datatype Loop = Loop(generation: nat, keyId: string, failures: nat, stage: Stage)

  class SerialVideoPull {
    var generation: nat
    var activeKey: Option<string>
    var loops: map<nat, Loop>        // the loops that have not returned, by number
    var nextLoop: nat

    ghost var log: Log
    ghost var waitsFailed: set<nat>  // generations whose loop ended because a wait was rejected
    ghost var newest: nat            // the loop started last

    // While a key is active some loop is in charge, exactly unless its wait was rejected.
    lemma LoopInChargeExactly()
      requires Valid() && activeKey.Some?
      ensures (exists id :: id in loops && IsCurrent(loops[id])) <==> generation !in waitsFailed
    {
      if generation !in waitsFailed {
        assert newest in loops && IsCurrent(loops[newest]);
      }
    }

    // Loops have different generations, none from the future; the one in charge is among them
    // unless its wait was rejected.
    ghost predicate Valid()
      reads this
    {
      && Sound(log) && InCharge(log) == (if activeKey.Some? then Some((generation, activeKey.value)) else None)
      && (forall id <- loops :: id < nextLoop && loops[id].generation <= generation)
      && (forall a, b :: a in loops && b in loops && a != b ==> loops[a].generation != loops[b].generation)
      && (forall g <- waitsFailed :: g <= generation)
      && (forall id <- loops :: loops[id].generation !in waitsFailed)
      && (activeKey.Some? && generation !in waitsFailed ==> newest in loops && IsCurrent(loops[newest]))
    }

    predicate IsCurrent(loop: Loop)
      reads this
    {
      loop.generation == generation && activeKey == Some(loop.keyId)
    }

    constructor ()
      ensures Valid() && activeKey == None && loops == map[]
    {
      generation, activeKey, loops, nextLoop, log, waitsFailed := 0, None, map[], 0, Empty, {};
      newest := 0;
    }

    method Start(key: VideoPullKey)
      requires Valid()
      modifies this
      ensures Valid() && activeKey == Some(KeyId(key))
      ensures old(activeKey) == Some(KeyId(key)) ==> unchanged(this)
      ensures old(activeKey) != Some(KeyId(key)) ==>
                && generation == old(generation) + 1 && log == Then(old(log), Started(generation, KeyId(key)))
                && loops == old(loops)[old(nextLoop) := Loop(generation, KeyId(key), 0, Pulling)]
                && forall id <- old(loops) :: !IsCurrent(loops[id])
    {
      var keyId := KeyId(key);
      if activeKey == Some(keyId) {
        return;
      }
      generation, activeKey := generation + 1, Some(keyId);
      log := Then(log, Started(generation, keyId));
      loops := loops[nextLoop := Loop(generation, keyId, 0, Pulling)];
      newest, nextLoop := nextLoop, nextLoop + 1;
    }

    method Stop()
      requires Valid()
      modifies `generation, `activeKey, `log
      ensures Valid() && activeKey == None && generation == old(generation) + 1 && log == Then(old(log), Stopped)
      ensures forall id <- loops :: !IsCurrent(loops[id])
    {
      generation, activeKey, log := generation + 1, None, Then(log, Stopped);
    }

    // The while condition: the loop goes on with another pull or returns.
    method Continue(id: nat)
      requires Valid() && id in loops
      modifies `loops
      ensures Valid()
      ensures loops == if IsCurrent(old(loops)[id]) then old(loops)[id := old(loops)[id].(stage := Pulling)]
              else old(loops) - {id}
    {
      var loop := loops[id];
      if IsCurrent(loop) {
        Become(id, loop.(stage := Pulling));
      } else {
        loops := loops - {id};
      }
    }

    method Become(id: nat, loop: Loop)
      requires Valid() && id in loops && loop.generation == loops[id].generation && loop.keyId == loops[id].keyId
      modifies `loops
      ensures Valid() && loops == old(loops)[id := loop]
    {
      loops := loops[id := loop];
      assert forall a <- loops :: a in old(loops) && IsCurrent(loops[a]) == IsCurrent(old(loops)[a]);
    }

    // pullFrame resolves: the frame is delivered only for the loop in charge.
    method PullResolved(id: nat) returns (delivered: bool)
      requires Valid() && id in loops && loops[id].stage.Pulling?
      modifies `loops, `log
      ensures Valid() && delivered == IsCurrent(old(loops)[id])
      ensures if delivered
              then loops == old(loops)[id := old(loops)[id].(failures := 0, stage := Delivering)]
                  && log == Then(old(log), Delivered(generation, activeKey.value))
              else loops == old(loops) - {id} && log == old(log)
    {
      var loop := loops[id];
      delivered := IsCurrent(loop);
      if delivered {
        log := Then(log, Delivered(loop.generation, loop.keyId));
        Become(id, loop.(failures := 0, stage := Delivering));
      } else {
        loops := loops - {id};
      }
    }

    // pullFrame rejects: wait before the next pull, longer after each failure in a row.
    method PullRejected(id: nat) returns (delayMs: nat)
      requires Valid() && id in loops && loops[id].stage.Pulling?
      modifies `loops
      ensures Valid()
      ensures IsCurrent(old(loops)[id]) ==>
                && 100 <= delayMs <= 2000 && delayMs >= VideoPullRetryDelay(old(loops)[id].failures as real)
                && id in loops && loops == old(loops)[id := loops[id]] && loops[id].stage == Waiting(delayMs)
                && loops[id].generation == old(loops)[id].generation && loops[id].keyId == old(loops)[id].keyId
                && loops[id].failures ==
                    (if old(loops)[id].failures < MAX_SAFE_INTEGER then old(loops)[id].failures + 1
                      else MAX_SAFE_INTEGER)
                && delayMs == VideoPullRetryDelay(loops[id].failures as real)
      ensures !IsCurrent(old(loops)[id]) ==> loops == old(loops) - {id}
    {
      var loop := loops[id];
      delayMs := 0;
      if !IsCurrent(loop) {
        loops := loops - {id};
        return;
      }
      var failures := if loop.failures + 1 < MAX_SAFE_INTEGER then loop.failures + 1 else MAX_SAFE_INTEGER;
      delayMs := VideoPullRetryDelay(failures as real);
      DelaysGrow(failures as real, failures as real);
      Become(id, loop.(failures := failures, stage := Waiting(delayMs)));
    }

    // waitForRetry settles; a rejected wait ends the loop without a word.
    method WaitSettled(id: nat, rejected: bool)
      requires Valid() && id in loops && loops[id].stage.Waiting?
      modifies `loops, `waitsFailed
      ensures Valid()
      ensures rejected ==> loops == old(loops) - {id} && waitsFailed == old(waitsFailed) + {old(loops)[id].generation}
      ensures rejected && IsCurrent(old(loops)[id]) ==>
              activeKey.Some? && forall other <- loops :: !IsCurrent(loops[other])
      ensures !rejected ==>
                && waitsFailed == old(waitsFailed)
                && loops == if IsCurrent(old(loops)[id]) then old(loops)[id := old(loops)[id].(stage := Pulling)]
                    else old(loops) - {id}
    {
      if rejected {
        waitsFailed := waitsFailed + {loops[id].generation};
        loops := loops - {id};
      } else {
        Continue(id);
      }
    }

    // deliverFrame has returned, or its error was reported.
    method DeliveryDone(id: nat)
      requires Valid() && id in loops && loops[id].stage.Delivering?
      modifies `loops
      ensures Valid()
      ensures loops == if IsCurrent(old(loops)[id]) then old(loops)[id := old(loops)[id].(stage := Pulling)]
              else old(loops) - {id}
    {
      Continue(id);
    }
  }

  // A start, a rejected pull and a rejected wait: no loop is left, and starting the key again
  // starts none.
  method RejectedWaitStalls(key: VideoPullKey) returns (pull: SerialVideoPull)
    ensures pull.Valid() && pull.activeKey == Some(KeyId(key)) && pull.loops == map[]
  {
    pull := new SerialVideoPull();
    var id := pull.nextLoop;
    pull.Start(key);
    var delayMs := pull.PullRejected(id);
    pull.WaitSettled(id, true);
    pull.Start(key);
  }
}
