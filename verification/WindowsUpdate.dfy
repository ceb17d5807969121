// `WindowsUpdater` of apps/windows-ui/src/windows-update.ts. Every stretch of code between two
// awaits is one method; a method that takes the number of a run is the continuation of that run,
// and the continuations and the public methods may follow each other in any order.
module WindowsUpdate {
  import opened Options
  import opened ReleaseVersions

  const UPDATE_CHECK_INTERVAL_MS := 14400000
  const UPDATE_RETRY_INTERVAL_MS := 60000

  datatype InstallStage = CheckingPackage | Downloading | Verifying | Finishing

  datatype Progress = Progress(stage: InstallStage, version: Option<string>, downloadedBytes: Option<nat>,
      totalBytes: Option<nat>)

  datatype Offer = Offer(currentVersion: string, latestVersion: string, publishedAt: Option<string>)

  datatype State =
    | Idle
    | Checking
    | Failed
    | Available(offer: Offer)
    | Current(currentVersion: string, latestVersion: string)
    | NoUpdate(currentVersion: string, reason: Reason)
    | Installing(progress: Progress, cancelling: bool, cancelError: Option<string>)
    | InstallError(latestVersion: string, message: string)

  function ResultState(check: UpdateCheck): State
  {
    match check
    case Newer(current, latest, publishedAt) => Available(Offer(current, latest, publishedAt))
    case UpToDate(current, latest) => Current(current, latest)
    case Unavailable(current, reason) => NoUpdate(current, reason)
  }

  // The state that a verdict calls for, and how long to wait then.
  ghost predicate Shows(state: State, interval: nat, version: string, source: ReleaseSource)
  {
    && (state.Available? <==> IsOffer(version, source))
    && (state.Available? ==>
          state.offer == Offer(Show(Parse(version).value), Show(Parse(source.latestVersion).value),
              source.publishedAt))
    && (state.NoUpdate? <==>
        Parse(version).None? || source.NotAvailable? || Parse(source.latestVersion).None?)
    && (state.NoUpdate? ==>
          state.reason == if Parse(version).Some? && source.NotAvailable? then source.reason else InvalidRelease)
    && (state.Available? || state.NoUpdate? || state.Current?)
    && (state.Current? ==>
          state.currentVersion == Show(Parse(version).value)
          && state.latestVersion == Show(Parse(source.latestVersion).value))
    && (state.NoUpdate? ==>
          state.currentVersion == if Parse(version).Some? then Show(Parse(version).value) else version)
    && interval == (if state.NoUpdate? && state.reason != NoRelease then 60000 else 14400000)
  }

  lemma VerdictIsShown(version: string, source: ReleaseSource)
    ensures var check := Evaluated(version, source);
            Shows(ResultState(check), IntervalAfter(check), version, source)
  {
    OffersOnlyNewer(version, source);
  }

  // A release that cannot be used is asked for again soon, unless there is none.
  function IntervalAfter(check: UpdateCheck): nat
  {
    if check.Unavailable? && !check.reason.NoRelease? then UPDATE_RETRY_INTERVAL_MS else UPDATE_CHECK_INTERVAL_MS
  }

  // The asynchronous runs behind check(), install() and cancel(). `Ending` is a run whose work
  // is done and whose `finally` is still to come.
  datatype CheckStage = CheckQueued | AwaitVersion | AwaitRelease(version: string) | CheckEnding
  datatype CheckRun = CheckRun(revision: nat, previous: State, force: bool, stage: CheckStage)

  datatype InstallRunStage = InstallQueued | AwaitInstall | AwaitCancel(message: string, cancel: nat) | InstallEnding
  datatype InstallRun = InstallRun(revision: nat, stage: InstallRunStage)

  datatype CancelStage = CancelQueued | AwaitCancelAnswer | CancelEnding
  datatype CancelRun = CancelRun(revision: nat, stage: CancelStage)

  // Who changed the state, under which revision, and which install was the latest then.
  datatype Author = ByCheck(revision: nat) | ByInstall(revision: nat) | ByCancel(revision: nat) | ByUser
  datatype Change = Change(author: Author, to: State, latestInstall: nat, cancelAcceptedFor: Option<nat>)

  // The promise: a check never speaks once an install has started after it, an install or cancel
  // speaks only for the latest install, and only a cancel accepted for that very install turns
  // its failure into "available".
  predicate IsProper(c: Change)
  {
    match c.author
    case ByCheck(revision) => revision > c.latestInstall
    case ByInstall(revision) =>
      revision == c.latestInstall && (c.to.Available? ==> c.cancelAcceptedFor == Some(revision))
    case ByCancel(revision) => revision == c.latestInstall && c.to.Installing?
    case ByUser => c.to.Checking? || c.to.Installing?
  }

  // Every change of the state so far, the latest outermost.
  datatype History = Start | Then(before: History, change: Change)

  // A history whose latest install is `latest`: installs only get newer and every change is proper.
  ghost predicate Sound(history: History, latest: nat)
  {
    match history
    case Start => true
    case Then(before, change) =>
      change.latestInstall <= latest && IsProper(change) && Sound(before, change.latestInstall)
  }

  function Changes(history: History): seq<Change>
  {
    match history
    case Start => []
    case Then(before, change) => Changes(before) + [change]
  }

  lemma {:induction false} InstallsOnlyGrow(history: History, latest: nat, i: nat, j: nat)
    requires Sound(history, latest) && i <= j < |Changes(history)|
    ensures var h := Changes(history); h[i].latestInstall <= h[j].latestInstall <= latest && IsProper(h[j])
  {
    var before := Changes(history.before);
    if j < |before| {
      InstallsOnlyGrow(history.before, history.change.latestInstall, i, j);
    } else if i < j {
      InstallsOnlyGrow(history.before, history.change.latestInstall, i, j - 1);
    }
  }

  // Once an install has started, a check older than it never changes the state again, and a
  // later "available" that an install reports comes from a cancel accepted for that install.
  lemma {:induction false} NoCheckSpeaksAfterInstall(history: History, latest: nat, i: nat, j: nat)
    requires Sound(history, latest) && i < j < |Changes(history)|
    ensures var earlier, later := Changes(history)[i], Changes(history)[j];
            && (later.author.ByCheck? ==> later.author.revision > earlier.latestInstall)
            && (later.author.ByInstall? ==> later.author.revision >= earlier.latestInstall)
            && (later.author.ByInstall? && later.to.Available? ==>
                later.cancelAcceptedFor == Some(later.author.revision))
  {
    InstallsOnlyGrow(history, latest, i, j);
  }

  class WindowsUpdater {
    var state: State
    var checkPending: Option<nat>
    var installPending: Option<nat>
    var cancelPending: Option<nat>
    var revision: nat
    var checkedAt: Option<int>
    var checkIntervalMs: nat
    var available: Option<Offer>
    var dismissedVersion: Option<string>
    var cancelAccepted: bool
    var notifications: nat           // calls of changed()

    // The unfinished runs, by number.
    var checks: map<nat, CheckRun>
    var installs: map<nat, InstallRun>
    var cancels: map<nat, CancelRun>
    var nextRun: nat

    ghost var latestInstall: nat                  // revision of the latest install
    ghost var cancelAcceptedFor: Option<nat>      // install for which a cancel was accepted
    ghost var history: History

    // At most one run of each kind is unfinished, and it is the pending one.
    ghost predicate SingleFlight()
      reads this
    {
      && checks.Keys == (if checkPending.Some? then {checkPending.value} else {})
      && installs.Keys == (if installPending.Some? then {installPending.value} else {})
      && cancels.Keys == (if cancelPending.Some? then {cancelPending.value} else {})
    }

    // A check of the current revision is newer than every install and remembers the offer shown;
    // the state is "checking" only while such a check is at work.
    ghost predicate CheckOk()
      reads this
    {
      && (state.Checking? ==> checkPending.Some?)
      && (checkPending.Some? && checkPending.value in checks ==>
            var run := checks[checkPending.value];
            && run.revision <= revision
            && (run.revision == revision ==> run.revision > latestInstall)
            && (run.revision == revision && run.previous.Available? && !run.stage.CheckEnding? ==>
                available == Some(run.previous.offer))
            && (state.Checking? ==> run.revision == revision && !run.stage.CheckEnding?))
    }

    ghost predicate InstallOk()
      reads this
    {
      && latestInstall <= revision
      && (state.Installing? ==> latestInstall == revision && available.Some?)
      && (state.InstallError? ==> available.Some?)
      && (installPending.Some? && installPending.value in installs ==>
            var run := installs[installPending.value];
            run.revision == revision == latestInstall && available.Some?
                && (!run.stage.InstallEnding? ==> state.Installing?))
      && (cancelPending.Some? && cancelPending.value in cancels ==>
          cancels[cancelPending.value].revision <= latestInstall)
      && (cancelAccepted ==> cancelAcceptedFor == Some(latestInstall))
    }

    ghost predicate Valid()
      reads this
    {
      && SingleFlight() && CheckOk() && InstallOk()
      && (state.Available? ==> available == Some(state.offer))
      && Sound(history, latestInstall)
    }

    // What every step keeps: revisions and installs only grow, history is only extended, and no
    // change of state goes unrecorded.
    twostate predicate Steps()
      reads this
    {
      && old(revision) <= revision && old(latestInstall) <= latestInstall
      && ((history == old(history) && state == old(state))
          || (history.Then? && history.before == old(history) && history.change.to == state))
    }

    constructor ()
      ensures Valid() && state == Idle && available == None
    {
      state, available, dismissedVersion := Idle, None, None;
      checkPending, installPending, cancelPending := None, None, None;
      revision, checkedAt, checkIntervalMs := 0, None, UPDATE_CHECK_INTERVAL_MS;
      cancelAccepted, notifications := false, 0;
      checks, installs, cancels, nextRun := map[], map[], map[], 0;
      latestInstall, cancelAcceptedFor, history := 0, None, Start;
    }

    // Assigns the state and tells the window.
    method Become(to: State, ghost author: Author)
      requires Sound(history, latestInstall) && IsProper(Change(author, to, latestInstall, cancelAcceptedFor))
      modifies `state, `history, `notifications
      ensures state == to && notifications == old(notifications) + 1
      ensures history == Then(old(history), Change(author, to, latestInstall, cancelAcceptedFor))
      ensures Sound(history, latestInstall)
    {
      history := Then(history, Change(author, to, latestInstall, cancelAcceptedFor));
      state, notifications := to, notifications + 1;
    }

    // ---------------------------------------------------------------- check()

    method Check(force: bool, now: int) returns (run: Option<nat>)
      requires Valid()
      modifies `state, `checkPending, `revision, `checkedAt, `checks, `nextRun, `notifications, `history
      ensures Valid() && Steps()
      ensures old(installPending).Some? || old(state).Installing? ==> run == None && unchanged(this)
      ensures old(installPending).None? && !old(state).Installing? && old(checkPending).Some? ==>
                run == old(checkPending) && unchanged(this)
      ensures var blocked := old(installPending).Some? || old(state).Installing? || old(checkPending).Some?;
              var recent := !force && old(checkedAt).Some? && now - old(checkedAt).value < checkIntervalMs;
              && (!blocked && recent ==> run == None && unchanged(this))
              && (!blocked && !recent ==>
                    && run.Some? && run == checkPending && revision == old(revision) + 1 && checkedAt == Some(now)
                    && checks == map[run.value := CheckRun(revision, old(state), force, CheckQueued)]
                    && state == (if force || !old(state).Available? then Checking else old(state)))
    {
      if installPending.Some? || state.Installing? {
        return None;
      }
      if checkPending.Some? {
        return checkPending;
      }
      if !force && checkedAt.Some? && now - checkedAt.value < checkIntervalMs {
        return None;
      }
      run := BeginCheck(force, now);
    }

    method AddCheck(previous: State, force: bool) returns (run: Option<nat>)
      modifies `checkPending, `checks, `nextRun
      ensures run.Some? && checkPending == run
              && checks == old(checks)[run.value := CheckRun(revision, previous, force, CheckQueued)]
    {
      run := Some(nextRun);
      checks := checks[nextRun := CheckRun(revision, previous, force, CheckQueued)];
      checkPending := run;
      nextRun := nextRun + 1;
    }

    method BeginCheck(force: bool, now: int) returns (run: Option<nat>)
      requires Valid() && installPending.None? && !state.Installing? && checkPending.None?
      modifies `state, `checkPending, `revision, `checkedAt, `checks, `nextRun, `notifications, `history
      ensures Valid() && Steps()
      ensures run.Some? && run == checkPending && revision == old(revision) + 1 && checkedAt == Some(now)
      ensures checks == map[run.value := CheckRun(revision, old(state), force, CheckQueued)]
      ensures state == if force || !old(state).Available? then Checking else old(state)
    {
      run := ReserveCheck(force, now);
      if force || !state.Available? {
        Become(Checking, ByUser);
      }
    }

    method ReserveCheck(force: bool, now: int) returns (run: Option<nat>)
      requires Valid() && installPending.None? && !state.Installing? && checkPending.None?
      modifies `checkPending, `revision, `checkedAt, `checks, `nextRun
      ensures Valid() && run.Some? && run == checkPending
      ensures revision == old(revision) + 1 && checkedAt == Some(now)
      ensures checks == map[run.value := CheckRun(revision, state, force, CheckQueued)]
    {
      revision := revision + 1;
      checkedAt := Some(now);
      run := AddCheck(state, force);
    }

    // The microtask that asks for the installed version.
    method StartCheck(id: nat)
      requires Valid() && id in checks && checks[id].stage.CheckQueued?
      modifies `checks
      ensures Valid() && Steps() && checks == old(checks)[id := old(checks)[id].(stage := AwaitVersion)]
    {
      checks := checks[id := checks[id].(stage := AwaitVersion)];
    }

    // dependencies.version() settles; None is a rejection.
    method VersionArrived(id: nat, version: Option<string>, now: int)
      requires Valid() && id in checks && checks[id].stage.AwaitVersion?
      modifies `state, `checkedAt, `checkIntervalMs, `checks, `notifications, `history
      ensures Valid() && Steps()
      ensures version.Some? ==>
                && checks == old(checks)[id := old(checks)[id].(stage := AwaitRelease(version.value))]
                && state == old(state) && checkedAt == old(checkedAt) && checkIntervalMs == old(checkIntervalMs)
      ensures version.None? ==>
              checks == old(checks)[id := old(checks)[id].(stage := CheckEnding)] && FailedCheck(old(checks)[id], now)
    {
      if version.Some? {
        checks := checks[id := checks[id].(stage := AwaitRelease(version.value))];
        return;
      }
      CheckFails(id, now);
    }

    // What a failed check leaves: nothing when stale, otherwise an offer it did not have to hide,
    // or the error.
    twostate predicate FailedCheck(run: CheckRun, now: int)
      reads this
    {
      && available == old(available)
      && (run.revision != old(revision) ==>
            state == old(state) && checkedAt == old(checkedAt) && checkIntervalMs == old(checkIntervalMs))
      && (run.revision == old(revision) ==>
            && checkedAt == Some(now) && checkIntervalMs == UPDATE_RETRY_INTERVAL_MS
            && state == if run.previous.Available? && !run.force then run.previous else Failed)
    }

    method EndCheck(id: nat)
      requires id in checks
      modifies `checks
      ensures checks == old(checks)[id := old(checks)[id].(stage := CheckEnding)]
    {
      checks := checks[id := checks[id].(stage := CheckEnding)];
    }

    method SettleCheck(id: nat, now: int, interval: nat)
      requires id in checks
      modifies `checks, `checkedAt, `checkIntervalMs
      ensures checks == old(checks)[id := old(checks)[id].(stage := CheckEnding)]
      ensures checkedAt == Some(now) && checkIntervalMs == interval
    {
      checks := checks[id := checks[id].(stage := CheckEnding)];
      checkedAt, checkIntervalMs := Some(now), interval;
    }

    method CheckFails(id: nat, now: int)
      requires Valid() && id in checks && !checks[id].stage.CheckEnding?
      modifies `state, `checkedAt, `checkIntervalMs, `checks, `notifications, `history
      ensures Valid() && Steps() && FailedCheck(old(checks)[id], now)
      ensures checks == old(checks)[id := old(checks)[id].(stage := CheckEnding)]
    {
      if checks[id].revision != revision {
        EndCheck(id);
      } else {
        CurrentCheckFails(id, now);
      }
    }

    method CurrentCheckFails(id: nat, now: int)
      requires Valid() && id in checks && !checks[id].stage.CheckEnding? && checks[id].revision == revision
      modifies `state, `checkedAt, `checkIntervalMs, `checks, `notifications, `history
      ensures Valid() && Steps() && FailedCheck(old(checks)[id], now)
      ensures checks == old(checks)[id := old(checks)[id].(stage := CheckEnding)]
    {
      var run := checks[id];
      SettleCheck(id, now, UPDATE_RETRY_INTERVAL_MS);
      Become(if run.previous.Available? && !run.force then run.previous else Failed, ByCheck(run.revision));
    }

    // dependencies.check() settles.
    method ReleaseArrived(id: nat, source: Option<ReleaseSource>, now: int)
      requires Valid() && id in checks && checks[id].stage.AwaitRelease?
      modifies `state, `available, `checkedAt, `checkIntervalMs, `checks, `notifications, `history
      ensures Valid() && Steps()
      ensures checks == old(checks)[id := old(checks)[id].(stage := CheckEnding)]
      ensures source.None? ==> FailedCheck(old(checks)[id], now)
      ensures source.Some? && old(checks)[id].revision != revision ==>
                state == old(state) && available == old(available) && checkedAt == old(checkedAt)
                    && checkIntervalMs == old(checkIntervalMs)
      ensures source.Some? && old(checks)[id].revision == revision ==>
                var result := Evaluated(old(checks)[id].stage.version, source.value);
                && state == ResultState(result) && checkedAt == Some(now)
                && available == (if result.Newer? then Some(state.offer) else old(available))
                && checkIntervalMs == IntervalAfter(result)
      ensures source.Some? && old(checks)[id].revision == revision ==>
                Shows(state, checkIntervalMs, old(checks)[id].stage.version, source.value)
    {
      if source.None? {
        CheckFails(id, now);
        return;
      }
      var result := EvaluateWindowsRelease(checks[id].stage.version, source.value);
      if checks[id].revision != revision {
        EndCheck(id);
        return;
      }
      VerdictIsShown(checks[id].stage.version, source.value);
      CheckShows(id, result, now, checks[id].stage.version, source.value);
    }

    method CheckShows(id: nat, result: UpdateCheck, now: int, ghost version: string, ghost source: ReleaseSource)
      requires Valid() && id in checks && !checks[id].stage.CheckEnding? && checks[id].revision == revision
      requires Shows(ResultState(result), IntervalAfter(result), version, source)
      modifies `state, `available, `checkedAt, `checkIntervalMs, `checks, `notifications, `history
      ensures Valid() && Steps()
      ensures checks == old(checks)[id := old(checks)[id].(stage := CheckEnding)]
      ensures && state == ResultState(result) && checkedAt == Some(now)
              && available == (if result.Newer? then Some(state.offer) else old(available))
              && checkIntervalMs == IntervalAfter(result)
      ensures Shows(state, checkIntervalMs, version, source)
    {
      CheckSucceeds(id, result, now);
    }

    method CheckSucceeds(id: nat, result: UpdateCheck, now: int)
      requires Valid() && id in checks && !checks[id].stage.CheckEnding? && checks[id].revision == revision
      modifies `state, `available, `checkedAt, `checkIntervalMs, `checks, `notifications, `history
      ensures Valid() && Steps()
      ensures checks == old(checks)[id := old(checks)[id].(stage := CheckEnding)]
      ensures && state == ResultState(result) && checkedAt == Some(now)
              && available == (if result.Newer? then Some(state.offer) else old(available))
              && checkIntervalMs == IntervalAfter(result)
    {
      SettleResult(id, result, now);
      Become(ResultState(result), ByCheck(revision));
    }

    method SettleResult(id: nat, result: UpdateCheck, now: int)
      requires id in checks
      modifies `available, `checkedAt, `checkIntervalMs, `checks
      ensures checks == old(checks)[id := old(checks)[id].(stage := CheckEnding)] && checkedAt == Some(now)
      ensures available == if result.Newer? then Some(ResultState(result).offer) else old(available)
      ensures checkIntervalMs == IntervalAfter(result)
    {
      SettleCheck(id, now, IntervalAfter(result));
      if result.Newer? {
        available := Some(Offer(result.currentVersion, result.latestVersion, result.publishedAt));
      }
    }

    method CheckFinally(id: nat)
      requires Valid() && id in checks && checks[id].stage.CheckEnding?
      modifies `checks, `checkPending
      ensures Valid() && Steps() && checks == old(checks) - {id} && checkPending == None
    {
      checks := checks - {id};
      if checkPending == Some(id) {
        checkPending := None;
      }
    }

    // ---------------------------------------------------------------- install()

    method Install() returns (run: Option<nat>)
      requires Valid()
      modifies `state, `installPending, `revision, `dismissedVersion, `cancelAccepted, `installs, `nextRun,
              `notifications, `latestInstall, `history
      ensures Valid() && Steps()
      ensures old(installPending).Some? ==> run == old(installPending) && unchanged(this)
      ensures var starts := old(installPending).None? && old(available).Some?
              && (old(state).Available? || old(state).InstallError?);
              && (old(installPending).None? && !starts ==> run == None && unchanged(this))
              && (starts ==>
                    && run.Some? && run == installPending && revision == latestInstall == old(revision) + 1
                    && !cancelAccepted && dismissedVersion == None
                    && installs == map[run.value := InstallRun(revision, InstallQueued)]
                    && state == Installing(Progress(CheckingPackage, Some(available.value.latestVersion), None, None),
                        false, None)
                    && forall c <- checks :: checks[c].revision < revision)
    {
      if installPending.Some? {
        return installPending;
      }
      if available.None? || (!state.Available? && !state.InstallError?) {
        return None;
      }
      run := BeginInstall();
    }

    method NewInstall()
      modifies `revision, `dismissedVersion, `cancelAccepted, `latestInstall
      ensures revision == latestInstall == old(revision) + 1 && !cancelAccepted && dismissedVersion == None
    {
      revision := revision + 1;
      cancelAccepted := false;
      dismissedVersion := None;
      latestInstall := revision;
    }

    method AddInstall() returns (run: Option<nat>)
      modifies `installPending, `installs, `nextRun
      ensures run.Some? && installPending == run
              && installs == old(installs)[run.value := InstallRun(revision, InstallQueued)]
    {
      run := Some(nextRun);
      installs := installs[nextRun := InstallRun(revision, InstallQueued)];
      installPending := run;
      nextRun := nextRun + 1;
    }

    method BeginInstall() returns (run: Option<nat>)
      requires Valid() && installPending.None? && available.Some? && (state.Available? || state.InstallError?)
      modifies `state, `installPending, `revision, `dismissedVersion, `cancelAccepted, `installs, `nextRun,
              `notifications, `latestInstall, `history
      ensures Valid() && Steps()
      ensures run.Some? && run == installPending && revision == latestInstall == old(revision) + 1
      ensures !cancelAccepted && dismissedVersion == None
      ensures installs == map[run.value := InstallRun(revision, InstallQueued)]
      ensures state == Installing(Progress(CheckingPackage, Some(available.value.latestVersion), None, None), false,
              None)
      ensures forall c <- checks :: checks[c].revision < revision
    {
      NewInstall();
      run := AddInstall();
      Become(Installing(Progress(CheckingPackage, Some(available.value.latestVersion), None, None), false, None),
          ByUser);
    }

    method StartInstall(id: nat)
      requires Valid() && id in installs && installs[id].stage.InstallQueued?
      modifies `installs
      ensures Valid() && Steps() && installs == old(installs)[id := old(installs)[id].(stage := AwaitInstall)]
    {
      installs := installs[id := installs[id].(stage := AwaitInstall)];
    }

    // The progress callback handed to the install of revision `of`; it can come at any time.
    method InstallProgress(of: nat, progress: Progress)
      requires Valid() && of <= latestInstall
      modifies `state, `notifications, `history
      ensures Valid() && Steps()
      ensures of != revision || !old(state).Installing? ==> unchanged(this)
      ensures of == revision && old(state).Installing? ==>
                state == Installing(progress, old(state).cancelling,
                    if progress.stage.Downloading? then old(state).cancelError else None)
    {
      if of != revision || !state.Installing? {
        return;
      }
      Become(Installing(progress, state.cancelling, if progress.stage.Downloading? then state.cancelError else None),
          ByInstall(of));
    }

    method InstallResolved(id: nat)
      requires Valid() && id in installs && installs[id].stage.AwaitInstall?
      modifies `state, `installs, `notifications, `history
      ensures Valid() && Steps() && installs == old(installs)[id := old(installs)[id].(stage := InstallEnding)]
      ensures old(state).Installing?
              && state == old(state).(progress := old(state).progress.(stage := Finishing), cancelling := false)
    {
      var run := installs[id];
      installs := installs[id := run.(stage := InstallEnding)];
      if run.revision != revision || !state.Installing? {
        return;
      }
      Become(state.(progress := state.progress.(stage := Finishing), cancelling := false), ByInstall(run.revision));
    }

    // install() rejects; a cancel that is still pending is waited for first.
    method InstallRejected(id: nat, message: string)
      requires Valid() && id in installs && installs[id].stage.AwaitInstall?
      modifies `state, `installs, `notifications, `history
      ensures Valid() && Steps()
      ensures cancelPending.Some? ==>
                && installs ==
                    old(installs)[id := old(installs)[id].(stage := AwaitCancel(message, cancelPending.value))]
                && state == old(state)
      ensures cancelPending.None? ==>
              installs == old(installs)[id := old(installs)[id].(stage := InstallEnding)] && Ends(message)
    {
      if cancelPending.Some? {
        installs := installs[id := installs[id].(stage := AwaitCancel(message, cancelPending.value))];
        return;
      }
      InstallEnds(id, message);
    }

    // The cancel that a failed install waited for has settled.
    method InstallCancelSettled(id: nat)
      requires Valid() && id in installs && installs[id].stage.AwaitCancel? && installs[id].stage.cancel !in cancels
      modifies `state, `installs, `notifications, `history
      ensures Valid() && Steps() && Ends(old(installs)[id].stage.message)
      ensures installs == old(installs)[id := old(installs)[id].(stage := InstallEnding)]
    {
      InstallEnds(id, installs[id].stage.message);
    }

    // How a failed install ends: back to the offer if a cancel of it was accepted, else the error.
    ghost predicate Ends(message: string)
      reads this
    {
      && available.Some?
      && state == if cancelAccepted then Available(available.value)
          else InstallError(available.value.latestVersion, message)
    }

    method InstallEnds(id: nat, message: string)
      requires Valid() && id in installs && !installs[id].stage.InstallEnding?
      modifies `state, `installs, `notifications, `history
      ensures Valid() && Steps() && Ends(message)
      ensures installs == old(installs)[id := old(installs)[id].(stage := InstallEnding)]
    {
      var run := installs[id];
      installs := installs[id := run.(stage := InstallEnding)];
      if run.revision != revision || available.None? {
        return;
      }
      Become(if cancelAccepted then Available(available.value)
          else InstallError(available.value.latestVersion, message), ByInstall(run.revision));
    }

    method InstallFinally(id: nat)
      requires Valid() && id in installs && installs[id].stage.InstallEnding?
      modifies `installs, `installPending
      ensures Valid() && Steps() && installs == old(installs) - {id} && installPending == None
    {
      installs := installs - {id};
      if installPending == Some(id) {
        installPending := None;
      }
    }

    // ---------------------------------------------------------------- cancel()

    method Cancel() returns (run: Option<nat>)
      requires Valid()
      modifies `state, `cancelPending, `cancels, `nextRun, `notifications, `history
      ensures Valid() && Steps()
      ensures old(cancelPending).Some? ==> run == old(cancelPending) && unchanged(this)
      ensures var starts := old(cancelPending).None? && old(state).Installing?
              && old(state).progress.stage.Downloading? && !old(state).cancelling;
              && (old(cancelPending).None? && !starts ==> run == None && unchanged(this))
              && (starts ==>
                    && run.Some? && run == cancelPending
                        && cancels == map[run.value := CancelRun(revision, CancelQueued)]
                    && state == Installing(old(state).progress, true, None))
    {
      if cancelPending.Some? {
        return cancelPending;
      }
      if !state.Installing? || !state.progress.stage.Downloading? || state.cancelling {
        return None;
      }
      run := Some(nextRun);
      cancels := cancels[nextRun := CancelRun(revision, CancelQueued)];
      cancelPending := run;
      nextRun := nextRun + 1;
      Become(Installing(state.progress, true, None), ByCancel(revision));
    }

    method StartCancel(id: nat)
      requires Valid() && id in cancels && cancels[id].stage.CancelQueued?
      modifies `cancels
      ensures Valid() && Steps() && cancels == old(cancels)[id := old(cancels)[id].(stage := AwaitCancelAnswer)]
    {
      cancels := cancels[id := cancels[id].(stage := AwaitCancelAnswer)];
    }

    method CancelAnswered(id: nat, accepted: bool)
      requires Valid() && id in cancels && cancels[id].stage.AwaitCancelAnswer?
      modifies `state, `cancels, `cancelAccepted, `cancelAcceptedFor, `notifications, `history
      ensures Valid() && Steps() && cancels == old(cancels)[id := old(cancels)[id].(stage := CancelEnding)]
      ensures var run := old(cancels)[id];
              && cancelAccepted == (if run.revision == revision then accepted else old(cancelAccepted))
              && state == if run.revision == revision && !accepted && old(state).Installing?
                  then old(state).(cancelling := false) else old(state)
    {
      var run := cancels[id];
      cancels := cancels[id := run.(stage := CancelEnding)];
      if run.revision != revision {
        return;
      }
      cancelAccepted := accepted;
      if accepted {
        cancelAcceptedFor := Some(run.revision);
      } else if state.Installing? {
        Become(state.(cancelling := false), ByCancel(run.revision));
      }
    }

    method CancelFailed(id: nat, message: string)
      requires Valid() && id in cancels && cancels[id].stage.AwaitCancelAnswer?
      modifies `state, `cancels, `notifications, `history
      ensures Valid() && Steps() && cancels == old(cancels)[id := old(cancels)[id].(stage := CancelEnding)]
      ensures state == if old(cancels)[id].revision == revision && old(state).Installing?
                       then Installing(old(state).progress, false, Some(message)) else old(state)
    {
      var run := cancels[id];
      cancels := cancels[id := run.(stage := CancelEnding)];
      if run.revision != revision || !state.Installing? {
        return;
      }
      Become(Installing(state.progress, false, Some(message)), ByCancel(run.revision));
    }

    method CancelFinally(id: nat)
      requires Valid() && id in cancels && cancels[id].stage.CancelEnding?
      modifies `cancels, `cancelPending
      ensures Valid() && Steps() && cancels == old(cancels) - {id} && cancelPending == None
    {
      cancels := cancels - {id};
      if cancelPending == Some(id) {
        cancelPending := None;
      }
    }

    // ---------------------------------------------------------------- the banner

    predicate BannerVisible()
      reads this
    {
      state.Installing?
      || (state.Available? && dismissedVersion != Some(state.offer.latestVersion))
      || (state.InstallError? && dismissedVersion != Some(state.latestVersion))
    }

    method Dismiss()
      requires Valid()
      modifies `dismissedVersion, `notifications
      ensures Valid() && Steps()
      ensures BannerVisible() == state.Installing?
      ensures dismissedVersion ==
              if state.Available? then Some(state.offer.latestVersion)
              else if state.InstallError? then Some(state.latestVersion) else old(dismissedVersion)
    {
      if state.Available? {
        dismissedVersion := Some(state.offer.latestVersion);
        notifications := notifications + 1;
      } else if state.InstallError? {
        dismissedVersion := Some(state.latestVersion);
        notifications := notifications + 1;
      }
    }
  }
}
