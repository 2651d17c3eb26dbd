/**
 * The break phase machine: idle, then a warning, then the overlay, then idle
 * again.
 *
 * Each timer callback of the application is an event method here, carrying
 * the current time and, where the callback queries it, the idle time:
 *   - `OnWarningDeadline` is the delayed call scheduled when a warning starts;
 *     it cannot be cancelled, and only its phase guard keeps a stale one out;
 *   - `OnGracePoll` and `OnCountdownStep` are the two repeating overlay timers.
 *     A cancelled timer never fires again, so each is a no-op unless
 *     `overlayTimer` says that timer is the armed one.
 * The break-started, overlay-started and break-ended callbacks are the calls
 * into the chat-status integration; a requested screen lock is returned as a
 * flag.
 */
module BreakSchedulers {

  import opened Wrappers
  import opened SwiftText
  import opened BreakTiers
  import opened Configs
  import opened PauseStates
  import opened BreakPhases
  import opened BreakLogs
  import opened AppStates
  import opened SlackStatus

  /** Which repeating overlay timer is armed. */
  datatype OverlayTimer = NoTimer | GracePoll | Countdown

  /** Idle seconds after which the grace period ends and the countdown starts. */
  const GraceIdleSeconds: real := 5.0

  /** Idle seconds below which the user counts as still active during the grace period. */
  const ActiveInputSeconds: real := 1.0

  /** A log entry about `tier` at time `now`. */
  function TierEntry(tier: BreakTier, event: LogEvent, reason: Option<string>, now: real): (e: LogEntry)
    ensures e.date == now && e.tierName == tier.name && e.tierColor == RawName(tier.color)
    ensures e.event == event && e.reason == reason
  {
    LogEntry(now, tier.name, RawName(tier.color), event, reason)
  }

  /** The reason logged when a threshold is queued behind an exception. */
  function QueueReason(exceptionReason: Option<string>): (r: string)
    ensures exceptionReason.Some? ==> r == exceptionReason.value
    ensures exceptionReason.None? ==> r == "exception"
  {
    exceptionReason.GetOr("exception")
  }

  // ---------------------------------------------------------------------
  // handleExceptionEnded: the longest queued tier

  /** The configured tiers whose id is queued, in configuration order. */
  function QueuedTiers(tiers: seq<BreakTier>, queued: set<TierId>): seq<BreakTier> {
    if tiers == [] then []
    else
      var last := tiers[|tiers| - 1];
      QueuedTiers(tiers[..|tiers| - 1], queued) + (if last.id in queued then [last] else [])
  }

  /** No configured tier is queued exactly when the filtered list is empty. */
  lemma {:induction false} QueuedTiersEmpty(tiers: seq<BreakTier>, queued: set<TierId>)
    ensures QueuedTiers(tiers, queued) == [] <==> forall i :: 0 <= i < |tiers| ==> tiers[i].id !in queued
  {
    if tiers != [] {
      var n := |tiers| - 1;
      QueuedTiersEmpty(tiers[..n], queued);
      assert forall j :: 0 <= j < n ==> tiers[j] == tiers[..n][j];
    }
  }

  /** `tiers[i]` is queued, no queued tier has a longer break, and every queued tier before it a shorter one. */
  predicate FirstLongestQueued(tiers: seq<BreakTier>, queued: set<TierId>, i: int) {
    && 0 <= i < |tiers| && tiers[i].id in queued
    && (forall j :: 0 <= j < |tiers| && tiers[j].id in queued ==> tiers[j].breakDuration <= tiers[i].breakDuration)
    && (forall j :: 0 <= j < i && tiers[j].id in queued ==> tiers[j].breakDuration < tiers[i].breakDuration)
  }

  lemma FirstLongestQueuedExtend(tiers: seq<BreakTier>, queued: set<TierId>, i: int)
    requires tiers != [] && FirstLongestQueued(tiers[..|tiers| - 1], queued, i)
    requires tiers[|tiers| - 1].id in queued ==> tiers[|tiers| - 1].breakDuration <= tiers[i].breakDuration
    ensures FirstLongestQueued(tiers, queued, i)
  {
    assert forall j :: 0 <= j < |tiers| - 1 ==> tiers[j] == tiers[..|tiers| - 1][j];
  }

  lemma FirstLongestQueuedLast(tiers: seq<BreakTier>, queued: set<TierId>)
    requires tiers != [] && tiers[|tiers| - 1].id in queued
    requires forall j :: 0 <= j < |tiers| - 1 && tiers[j].id in queued ==>
      tiers[j].breakDuration < tiers[|tiers| - 1].breakDuration
    ensures FirstLongestQueued(tiers, queued, |tiers| - 1)
  {
  }

  /** Appending a queued tier: the longest-first choice of the front is kept unless the new tier's break is strictly longer. */
  lemma LongestQueuedAppend(tiers: seq<BreakTier>, queued: set<TierId>)
    requires tiers != [] && tiers[|tiers| - 1].id in queued
    ensures var front := tiers[..|tiers| - 1];
      var last := tiers[|tiers| - 1];
      var m := LongestFirst(QueuedTiers(front, queued));
      LongestFirst(QueuedTiers(tiers, queued)) ==
        if m.Some? && !(m.value.breakDuration < last.breakDuration) then m else Some(last)
  {
    var front := tiers[..|tiers| - 1];
    var last := tiers[|tiers| - 1];
    var s := QueuedTiers(front, queued) + [last];
    assert QueuedTiers(tiers, queued) == s;
    assert s[..|s| - 1] == QueuedTiers(front, queued);
  }

  /** A queued tier appended after a front whose longest-first choice, if any, has a strictly shorter break is the first longest. */
  lemma LongestQueuedNewLast(tiers: seq<BreakTier>, queued: set<TierId>)
    requires tiers != [] && tiers[|tiers| - 1].id in queued
    requires var m := LongestFirst(QueuedTiers(tiers[..|tiers| - 1], queued));
      m.Some? ==>
        && m.value.breakDuration < tiers[|tiers| - 1].breakDuration
        && exists i :: FirstLongestQueued(tiers[..|tiers| - 1], queued, i) && tiers[i] == m.value
    ensures FirstLongestQueued(tiers, queued, |tiers| - 1)
  {
    var n := |tiers| - 1;
    var front := tiers[..n];
    var m := LongestFirst(QueuedTiers(front, queued));
    if m.Some? {
      var i :| FirstLongestQueued(front, queued, i) && tiers[i] == m.value;
      forall j | 0 <= j < n && tiers[j].id in queued
        ensures tiers[j].breakDuration < tiers[n].breakDuration
      {
        assert front[j] == tiers[j];
      }
    } else {
      QueuedTiersEmpty(front, queued);
      forall j | 0 <= j < n
        ensures tiers[j].id !in queued
      {
        assert front[j] == tiers[j];
      }
    }
    FirstLongestQueuedLast(tiers, queued);
  }

  /**
   * The break replayed when exceptions end: none when no configured tier is
   * queued, otherwise the first configured queued tier whose break is longest
   * among the queued ones.
   */
  lemma {:induction false} LongestQueuedSpec(tiers: seq<BreakTier>, queued: set<TierId>)
    ensures LongestFirst(QueuedTiers(tiers, queued)).None? <==>
      forall i :: 0 <= i < |tiers| ==> tiers[i].id !in queued
    ensures LongestFirst(QueuedTiers(tiers, queued)).Some? ==>
      exists i :: FirstLongestQueued(tiers, queued, i) && tiers[i] == LongestFirst(QueuedTiers(tiers, queued)).value
  {
    QueuedTiersEmpty(tiers, queued);
    if tiers != [] {
      var n := |tiers| - 1;
      var front := tiers[..n];
      var last := tiers[n];
      var m := LongestFirst(QueuedTiers(front, queued));
      LongestQueuedSpec(front, queued);
      if last.id !in queued {
        assert QueuedTiers(tiers, queued) == QueuedTiers(front, queued) + [] == QueuedTiers(front, queued);
        if m.Some? {
          var i :| FirstLongestQueued(front, queued, i) && front[i] == m.value;
          FirstLongestQueuedExtend(tiers, queued, i);
          assert tiers[i] == front[i];
        }
      } else {
        LongestQueuedAppend(tiers, queued);
        if m.Some? && !(m.value.breakDuration < last.breakDuration) {
          var i :| FirstLongestQueued(front, queued, i) && front[i] == m.value;
          FirstLongestQueuedExtend(tiers, queued, i);
          assert tiers[i] == front[i];
          assert LongestFirst(QueuedTiers(tiers, queued)) == Some(tiers[i]);
        } else {
          LongestQueuedNewLast(tiers, queued);
          assert LongestFirst(QueuedTiers(tiers, queued)) == Some(tiers[n]);
        }
      }
    }
  }

  // ---------------------------------------------------------------------
  // The warning deadline guard

  /** The deadline guard: the phase is still a warning, for a tier with the deadline's tier id. */
  predicate DeadlineAdvances(phase: BreakPhase, tier: BreakTier) {
    phase.Warning? && phase.tier.id == tier.id
  }

  /**
   * The guard compares tier ids only.  A deadline advances the warning in
   * progress exactly when that warning's tier has the deadline's tier id,
   * whatever the warning's start time and whatever the tier's other fields:
   * so a deadline scheduled by an earlier warning for the same tier also
   * advances a warning started after it, before that warning's own deadline.
   * Outside a warning no deadline advances.
   */
  lemma StaleDeadlineAdvances(tier: BreakTier, current: BreakTier, startedAt: real)
    ensures DeadlineAdvances(Warning(current, startedAt), tier) <==> current.id == tier.id
    ensures forall p: BreakPhase :: !p.Warning? ==> !DeadlineAdvances(p, tier)
  {
  }

  // ---------------------------------------------------------------------
  // The countdown

  /**
   * The remaining break time after `k` countdown steps from `r`: each
   * `OnCountdownStep` whose result stays positive replaces the overlay
   * state's `remainingBreakTime` by `remainingBreakTime - 1.0`, so after `k`
   * such steps from a countdown that started at `r` it holds `AfterSteps(r, k)`,
   * and the step whose result is zero or below completes the break.
   */
  function AfterSteps(r: real, k: nat): real {
    r - k as real
  }

  /** The countdown completes at step `n`: its remaining time is gone there and not at any earlier step. */
  predicate CompletesAt(r: real, n: nat) {
    n >= 1 && AfterSteps(r, n) <= 0.0 && forall k :: 1 <= k < n ==> AfterSteps(r, k) > 0.0
  }

  /** `ceil(r)`, but at least one step. */
  function StepsNeeded(r: real): (n: nat)
    ensures n >= 1
  {
    if r <= 1.0 then 1 else -((-r).Floor)
  }

  /**
   * Each step takes exactly one second off, and the step that takes the
   * remaining time to zero or below completes the break, so a countdown from
   * `r` completes at exactly step `ceil(r)` (at the first step when `r <= 1`).
   */
  lemma CountdownLength(r: real, n: nat)
    ensures CompletesAt(r, n) <==> n == StepsNeeded(r)
  {
    var m := StepsNeeded(r);
    assert AfterSteps(r, m) <= 0.0;
    assert forall k :: 1 <= k < m ==> AfterSteps(r, k) > 0.0;
  }

  // ---------------------------------------------------------------------
  // postponeBreak

  /** The counter `postponeBreak(minutes:)` leaves: `minutes` of activity short of the threshold, floored at zero. */
  function PostponedCounter(tier: BreakTier, minutes: int): real {
    Max0(tier.activeInterval - (minutes as real) * 60.0)
  }

  /**
   * After a postponement by `minutes` the tier is due again after exactly
   * `60 * minutes` seconds of further activity (or its whole interval, if that
   * is shorter): a tick accruing `e` seconds makes it due iff `e` reaches that.
   */
  lemma PostponeRoundTrip(tiers: seq<BreakTier>, c: Counters, tier: BreakTier, minutes: nat, e: real)
    requires UniqueIds(tiers) && tier in tiers && tier.activeInterval >= 0.0
    ensures var c2 := c[tier.id := PostponedCounter(tier, minutes)];
      var left := if tier.activeInterval < (minutes as real) * 60.0 then tier.activeInterval else (minutes as real) * 60.0;
      && Remaining(c2, tier) == left
      && (Due(Incremented(tiers, c2, e), tier) <==> e >= left)
  {
    var c2 := c[tier.id := PostponedCounter(tier, minutes)];
    IncrementedSpec(tiers, c2, e);
    assert tier.id in TierIds(tiers);
  }

  // ---------------------------------------------------------------------
  // The scheduler

  class BreakScheduler {
    const app: AppState
    const logger: BreakLogger
    const slack: SlackIntegration
    var overlayTimer: OverlayTimer

    /**
     * The phase machine's own invariant: an armed overlay timer means the
     * overlay is up; the overlay phase always has an overlay state for its
     * tier; the grace poll runs only during the grace period and the
     * countdown only after it.
     */
    predicate Valid()
      reads this, app
    {
      && (overlayTimer != NoTimer ==> app.breakPhase.Overlay? && app.overlayState.Some?)
      && (app.breakPhase.Overlay? ==> app.overlayState.Some? && app.overlayState.value.tier == app.breakPhase.tier)
      && (overlayTimer == GracePoll ==> app.overlayState.value.isGracePeriod)
      && (overlayTimer == Countdown ==> !app.overlayState.value.isGracePeriod)
    }

    /** `setup(appState:)`: no timer armed yet. */
    constructor (app: AppState, logger: BreakLogger, slack: SlackIntegration)
      requires app.breakPhase.Overlay? ==> app.overlayState.Some? && app.overlayState.value.tier == app.breakPhase.tier
      ensures this.app == app && this.logger == logger && this.slack == slack
      ensures overlayTimer == NoTimer
      ensures Valid()
    {
      this.app := app;
      this.logger := logger;
      this.slack := slack;
      overlayTimer := NoTimer;
    }

    /** `cancelCurrentBreak`: stop every timer, drop the overlay and end the break. */
    method CancelCurrentBreak()
      modifies this`overlayTimer, app`breakPhase, app`overlayState, slack`breakIsActive, slack`didSetStatus
      ensures overlayTimer == NoTimer && app.breakPhase == Idle && app.overlayState == None
      ensures !slack.breakIsActive
      ensures slack.didSetStatus == (old(slack.didSetStatus) && slack.token.None?)
      ensures Valid()
    {
      overlayTimer := NoTimer;
      app.breakPhase := Idle;
      app.overlayState := None;
      var _ := slack.BreakEnded();
    }

    /**
     * `handleTierThresholdReached`: while an exception is active the tier is
     * only queued, and logged as deferred the first time; otherwise a
     * postponed tier is ignored and any other tier starts a warning.
     */
    method HandleTierThresholdReached(tier: BreakTier, now: real)
      requires Valid()
      modifies app`queuedBreaks, app`breakPhase, this`overlayTimer, logger
      ensures Valid()
      ensures old(app.exceptionsActive) ==>
        && app.queuedBreaks == old(app.queuedBreaks) + {tier.id}
        && app.breakPhase == old(app.breakPhase) && overlayTimer == old(overlayTimer)
        && logger.file ==
             if tier.id in old(app.queuedBreaks) then old(logger.file)
             else Stored(Appended(LoadEntries(old(logger.file)),
                                  TierEntry(tier, Deferred, Some(QueueReason(app.exceptionReason)), now)))
      ensures !old(app.exceptionsActive) ==> app.queuedBreaks == old(app.queuedBreaks) && logger.file == old(logger.file)
      ensures !old(app.exceptionsActive) && IsPostponed(app.postponements, tier, now) ==>
        app.breakPhase == old(app.breakPhase) && overlayTimer == old(overlayTimer)
      ensures !old(app.exceptionsActive) && !IsPostponed(app.postponements, tier, now) ==>
        app.breakPhase == Warning(tier, now) && overlayTimer == NoTimer
    {
      if app.exceptionsActive {
        if tier.id !in app.queuedBreaks {
          app.queuedBreaks := app.queuedBreaks + {tier.id};
          logger.Log(TierEntry(tier, Deferred, Some(QueueReason(app.exceptionReason)), now));
        }
        return;
      }
      if IsPostponed(app.postponements, tier, now) {
        return;
      }
      StartWarning(tier, now);
    }

    /**
     * `handleExceptionEnded`: nothing when no break is queued; otherwise the
     * queue is emptied and a warning starts for the longest queued tier, if
     * any queued id is still configured.
     */
    method HandleExceptionEnded(now: real)
      requires Valid()
      modifies app`queuedBreaks, app`breakPhase, this`overlayTimer
      ensures Valid()
      ensures old(app.queuedBreaks) == {} ==>
        app.queuedBreaks == {} && app.breakPhase == old(app.breakPhase) && overlayTimer == old(overlayTimer)
      ensures old(app.queuedBreaks) != {} ==>
        && app.queuedBreaks == {}
        && match LongestFirst(QueuedTiers(app.config.tiers, old(app.queuedBreaks)))
           case None => app.breakPhase == old(app.breakPhase) && overlayTimer == old(overlayTimer)
           case Some(t) => app.breakPhase == Warning(t, now) && overlayTimer == NoTimer
    {
      if app.queuedBreaks == {} {
        return;
      }
      var longestQueued := LongestFirst(QueuedTiers(app.config.tiers, app.queuedBreaks));
      app.queuedBreaks := {};
      if longestQueued.Some? {
        StartWarning(longestQueued.value, now);
      }
    }

    /** `startWarning`: cancel whatever was running and enter the warning phase for `tier`, started now. */
    method StartWarning(tier: BreakTier, now: real)
      modifies this`overlayTimer, app`breakPhase
      ensures app.breakPhase == Warning(tier, now) && overlayTimer == NoTimer
      ensures Valid()
    {
      overlayTimer := NoTimer;
      app.breakPhase := Warning(tier, now);
    }

    /**
     * The warning deadline for `tier`: it moves to the overlay only while the
     * phase is still a warning with the same tier id, and then shows the
     * overlay for the deadline's own tier.
     */
    method OnWarningDeadline(tier: BreakTier, now: real)
      requires Valid()
      modifies this`overlayTimer, app`breakPhase, app`overlayState, logger, slack`breakIsActive, slack`didSetStatus
      ensures Valid()
      ensures !DeadlineAdvances(old(app.breakPhase), tier) ==>
        && overlayTimer == old(overlayTimer) && app.breakPhase == old(app.breakPhase)
        && app.overlayState == old(app.overlayState) && logger.file == old(logger.file)
        && slack.breakIsActive == old(slack.breakIsActive) && slack.didSetStatus == old(slack.didSetStatus)
      ensures DeadlineAdvances(old(app.breakPhase), tier) ==> OverlayStarted(tier, now)
    {
      if app.breakPhase.Warning? && app.breakPhase.tier.id == tier.id {
        StartOverlay(tier, now);
      }
    }

    /** `startBreakImmediately`: skip the warning and show the overlay at once. */
    method StartBreakImmediately(tier: BreakTier, now: real)
      modifies this`overlayTimer, app`breakPhase, app`overlayState, logger, slack`breakIsActive, slack`didSetStatus
      ensures Valid()
      ensures OverlayStarted(tier, now)
    {
      overlayTimer := NoTimer;
      StartOverlay(tier, now);
    }

    /** The state `startOverlay` leaves, relative to the state before it. */
    twostate predicate OverlayStarted(tier: BreakTier, now: real)
      reads this, app, logger, slack
    {
      && app.breakPhase == Overlay(tier)
      && app.overlayState == Some(NewOverlayState(tier, now))
      && overlayTimer == GracePoll
      && logger.file == Stored(Appended(LoadEntries(old(logger.file)), TierEntry(tier, Started, None, now)))
      && (old(slack.token).Some? ==> slack.breakIsActive && !slack.didSetStatus)
      && (old(slack.token).None? ==>
            slack.breakIsActive == old(slack.breakIsActive) && slack.didSetStatus == old(slack.didSetStatus))
    }

    /**
     * `startOverlay`: enter the overlay phase with a fresh overlay state, log
     * the start, set the chat status and arm the grace poll.
     */
    method StartOverlay(tier: BreakTier, now: real)
      modifies this`overlayTimer, app`breakPhase, app`overlayState, logger, slack`breakIsActive, slack`didSetStatus
      ensures Valid()
      ensures OverlayStarted(tier, now)
    {
      app.breakPhase := Overlay(tier);
      app.overlayState := Some(NewOverlayState(tier, now));
      logger.Log(TierEntry(tier, Started, None, now));
      var _ := slack.BreakStarted(tier.breakDuration, now);
      overlayTimer := GracePoll;
    }

    /**
     * The grace poll: after five idle seconds the grace period ends and the
     * countdown takes over; below one idle second the last input time is
     * refreshed; in between nothing changes.
     */
    method OnGracePoll(idleSeconds: real, now: real)
      requires Valid()
      modifies this`overlayTimer, app`overlayState
      ensures Valid()
      ensures app.breakPhase == old(app.breakPhase)
      ensures old(overlayTimer) != GracePoll || old(app.overlayState).None? || !old(app.overlayState).value.isGracePeriod ==>
        overlayTimer == old(overlayTimer) && app.overlayState == old(app.overlayState)
      ensures old(overlayTimer) == GracePoll && old(app.overlayState).Some? && old(app.overlayState).value.isGracePeriod ==>
        var o := old(app.overlayState).value;
        && (idleSeconds >= GraceIdleSeconds ==>
              overlayTimer == Countdown && app.overlayState == Some(o.(isGracePeriod := false)))
        && (idleSeconds < ActiveInputSeconds ==>
              overlayTimer == GracePoll && app.overlayState == Some(o.(lastInputTime := now)))
        && (ActiveInputSeconds <= idleSeconds < GraceIdleSeconds ==>
              overlayTimer == GracePoll && app.overlayState == Some(o))
    {
      if overlayTimer != GracePoll || app.overlayState.None? {
        return;
      }
      var overlayState := app.overlayState.value;
      if overlayState.isGracePeriod {
        if idleSeconds >= GraceIdleSeconds {
          app.overlayState := Some(overlayState.(isGracePeriod := false));
          overlayTimer := Countdown;
        } else if idleSeconds < ActiveInputSeconds {
          app.overlayState := Some(overlayState.(lastInputTime := now));
        }
      }
    }

    /**
     * One countdown step: a second comes off the remaining break time, and
     * once it reaches zero or below the break completes.
     */
    method OnCountdownStep(now: real) returns (locked: bool)
      requires Valid()
      modifies this`overlayTimer, app`overlayState, app`breakPhase, app`tierCounters, app`postponements,
               app`queuedBreaks, logger, slack`breakIsActive, slack`didSetStatus
      ensures Valid()
      ensures old(overlayTimer) != Countdown || old(app.overlayState).None? ==>
        && !locked && overlayTimer == old(overlayTimer) && app.overlayState == old(app.overlayState)
        && app.breakPhase == old(app.breakPhase) && app.tierCounters == old(app.tierCounters)
        && app.postponements == old(app.postponements) && app.queuedBreaks == old(app.queuedBreaks)
        && logger.file == old(logger.file)
        && slack.breakIsActive == old(slack.breakIsActive) && slack.didSetStatus == old(slack.didSetStatus)
      ensures old(overlayTimer) == Countdown && old(app.overlayState).Some? ==>
        var o := old(app.overlayState).value;
        var left := o.remainingBreakTime - 1.0;
        && (left > 0.0 ==>
              && !locked && overlayTimer == Countdown
              && app.overlayState == Some(o.(remainingBreakTime := left))
              && app.breakPhase == old(app.breakPhase) && app.tierCounters == old(app.tierCounters)
              && app.postponements == old(app.postponements) && app.queuedBreaks == old(app.queuedBreaks)
              && logger.file == old(logger.file)
              && slack.breakIsActive == old(slack.breakIsActive) && slack.didSetStatus == old(slack.didSetStatus))
        && (left <= 0.0 ==>
              && locked == o.lockAfterBreak
              && BreakFinished(o.tier, TierEntry(o.tier, Completed, None, now))
              && app.tierCounters == Zeroed(app.config.tiers, old(app.tierCounters), o.tier.breakDuration))
    {
      locked := false;
      if overlayTimer != Countdown || app.overlayState.None? {
        return;
      }
      var overlayState := app.overlayState.value;
      overlayState := overlayState.(remainingBreakTime := overlayState.remainingBreakTime - 1.0);
      app.overlayState := Some(overlayState);
      if overlayState.remainingBreakTime <= 0.0 {
        locked := CompleteBreak(now);
      }
    }

    /**
     * The common end of a completed, skipped or postponed break: the entry
     * is logged, every timer is stopped, the phase is idle with no overlay,
     * and the chat status is cleared; postponements and the queue lose
     * exactly the tiers a cascade reset from `tier` covers.
     */
    twostate predicate BreakFinished(tier: BreakTier, entry: LogEntry)
      reads this, app, logger, slack
    {
      && overlayTimer == NoTimer && app.breakPhase == Idle && app.overlayState == None
      && logger.file == Stored(Appended(LoadEntries(old(logger.file)), entry))
      && !slack.breakIsActive
      && slack.didSetStatus == (old(slack.didSetStatus) && slack.token.None?)
      && app.postponements == old(app.postponements) - ResetIds(app.config.tiers, tier.breakDuration)
      && app.queuedBreaks == old(app.queuedBreaks) - ResetIds(app.config.tiers, tier.breakDuration)
    }

    /**
     * `completeBreak`: with no overlay state nothing happens; otherwise the
     * completion is logged, the tiers the break covers are reset, the break
     * ends, and a lock is requested iff the user asked for one.
     */
    method CompleteBreak(now: real) returns (locked: bool)
      requires Valid()
      modifies this`overlayTimer, app`overlayState, app`breakPhase, app`tierCounters, app`postponements,
               app`queuedBreaks, logger, slack`breakIsActive, slack`didSetStatus
      ensures old(app.overlayState).None? ==>
        && !locked && overlayTimer == old(overlayTimer) && app.overlayState == None
        && app.breakPhase == old(app.breakPhase) && app.tierCounters == old(app.tierCounters)
        && app.postponements == old(app.postponements) && app.queuedBreaks == old(app.queuedBreaks)
        && logger.file == old(logger.file)
        && slack.breakIsActive == old(slack.breakIsActive) && slack.didSetStatus == old(slack.didSetStatus)
      ensures old(app.overlayState).Some? ==>
        var o := old(app.overlayState).value;
        && locked == o.lockAfterBreak
        && BreakFinished(o.tier, TierEntry(o.tier, Completed, None, now))
        && app.tierCounters == Zeroed(app.config.tiers, old(app.tierCounters), o.tier.breakDuration)
      ensures Valid()
    {
      if app.overlayState.None? {
        return false;
      }
      var overlayState := app.overlayState.value;
      var shouldLock := overlayState.lockAfterBreak;
      var tier := overlayState.tier;
      logger.Log(TierEntry(tier, Completed, None, now));
      overlayTimer := NoTimer;
      app.CascadeReset(tier);
      app.breakPhase := Idle;
      app.overlayState := None;
      var _ := slack.BreakEnded();
      locked := shouldLock;
    }

    /** `skipBreak`: as a completion, but logged as skipped by the user. */
    method SkipBreak(now: real) returns (locked: bool)
      requires Valid()
      modifies this`overlayTimer, app`overlayState, app`breakPhase, app`tierCounters, app`postponements,
               app`queuedBreaks, logger, slack`breakIsActive, slack`didSetStatus
      ensures Valid()
      ensures old(app.overlayState).None? ==>
        && !locked && overlayTimer == old(overlayTimer) && app.overlayState == None
        && app.breakPhase == old(app.breakPhase) && app.tierCounters == old(app.tierCounters)
        && app.postponements == old(app.postponements) && app.queuedBreaks == old(app.queuedBreaks)
        && logger.file == old(logger.file)
        && slack.breakIsActive == old(slack.breakIsActive) && slack.didSetStatus == old(slack.didSetStatus)
      ensures old(app.overlayState).Some? ==>
        var o := old(app.overlayState).value;
        && locked == o.lockAfterBreak
        && BreakFinished(o.tier, TierEntry(o.tier, Skipped, Some("user"), now))
        && app.tierCounters == Zeroed(app.config.tiers, old(app.tierCounters), o.tier.breakDuration)
    {
      if app.overlayState.None? {
        return false;
      }
      var overlayState := app.overlayState.value;
      var shouldLock := overlayState.lockAfterBreak;
      var tier := overlayState.tier;
      logger.Log(TierEntry(tier, Skipped, Some("user"), now));
      overlayTimer := NoTimer;
      app.CascadeReset(tier);
      app.breakPhase := Idle;
      app.overlayState := None;
      var _ := slack.BreakEnded();
      locked := shouldLock;
    }

    /**
     * `postponeBreak(minutes:)`: the postponement is logged, only the
     * overlay's own tier has its counter set `minutes` short of its
     * threshold (no cascade, no postponement entry), and the break ends.
     */
    method PostponeBreak(minutes: int, now: real) returns (locked: bool)
      requires Valid()
      modifies this`overlayTimer, app`overlayState, app`breakPhase, app`tierCounters, logger,
               slack`breakIsActive, slack`didSetStatus
      ensures Valid()
      ensures old(app.overlayState).None? ==>
        && !locked && overlayTimer == old(overlayTimer) && app.overlayState == None
        && app.breakPhase == old(app.breakPhase) && app.tierCounters == old(app.tierCounters)
        && logger.file == old(logger.file)
        && slack.breakIsActive == old(slack.breakIsActive) && slack.didSetStatus == old(slack.didSetStatus)
      ensures old(app.overlayState).Some? ==>
        var o := old(app.overlayState).value;
        && locked == o.lockAfterBreak
        && overlayTimer == NoTimer && app.breakPhase == Idle && app.overlayState == None
        && app.tierCounters == old(app.tierCounters)[o.tier.id := PostponedCounter(o.tier, minutes)]
        && logger.file == Stored(Appended(LoadEntries(old(logger.file)),
                                          TierEntry(o.tier, Postponed, Some(IntText(minutes) + " min"), now)))
        && !slack.breakIsActive
        && slack.didSetStatus == (old(slack.didSetStatus) && slack.token.None?)
    {
      if app.overlayState.None? {
        return false;
      }
      var overlayState := app.overlayState.value;
      var shouldLock := overlayState.lockAfterBreak;
      var tier := overlayState.tier;
      logger.Log(TierEntry(tier, Postponed, Some(IntText(minutes) + " min"), now));
      overlayTimer := NoTimer;
      app.tierCounters := app.tierCounters[tier.id := Max0(tier.activeInterval - (minutes as real) * 60.0)];
      app.breakPhase := Idle;
      app.overlayState := None;
      var _ := slack.BreakEnded();
      locked := shouldLock;
    }

    /** `handleLockAfterBreakToggled`: request a lock after the current break; it is never turned back off. */
    method HandleLockAfterBreakToggled()
      requires Valid()
      modifies app`overlayState
      ensures Valid()
      ensures old(app.overlayState).None? ==> app.overlayState == None
      ensures old(app.overlayState).Some? ==> app.overlayState == Some(old(app.overlayState).value.(lockAfterBreak := true))
    {
      if app.overlayState.Some? {
        app.overlayState := Some(app.overlayState.value.(lockAfterBreak := true));
      }
    }
  }
}
