/**
 * The application delegate's routing: it owns one of each component over a
 * shared session state, and turns menu actions, exception edges, timer
 * events and configuration changes into calls on the phase machine.
 */
module AppDelegates {

  import opened Wrappers
  import opened BreakTiers
  import opened Configs
  import opened PauseStates
  import opened BreakPhases
  import opened BreakLogs
  import opened AppStates
  import opened SlackStatus
  import opened TimerEngines
  import opened BreakSchedulers
  import opened ExceptionMonitors

  /** The tier id an exception start re-queues: that of the warning or overlay in progress, if any. */
  function InterruptedTier(phase: BreakPhase): (r: Option<TierId>)
    ensures r.None? <==> phase.Idle?
    ensures phase.Warning? ==> r == Some(phase.tier.id)
    ensures phase.Overlay? ==> r == Some(phase.tier.id)
  {
    match phase
    case Idle => None
    case Warning(t, _) => Some(t.id)
    case Overlay(t) => Some(t.id)
  }

  /** The pause a menu choice sets: until `now + d` for a duration `d`, indefinitely for none. */
  function PauseFor(duration: Option<real>, now: real): (p: PauseState)
    ensures duration.Some? ==> p == PausedUntil(now + duration.value)
    ensures duration.None? ==> p == PausedIndefinitely
  {
    match duration
    case Some(d) => PausedUntil(now + d)
    case None => PausedIndefinitely
  }

  /**
   * A pause for a positive duration holds for exactly that long: it is in
   * force strictly before `now + d`, reports the time left, and lapses at
   * `now + d`; an indefinite pause holds at every time.
   */
  lemma PauseForSpec(duration: Option<real>, now: real, later: real)
    requires now <= later
    ensures duration.None? ==> IsPaused(PauseFor(duration, now), later)
    ensures duration.Some? ==> (IsPaused(PauseFor(duration, now), later) <==> later < now + duration.value)
    ensures duration.Some? && later < now + duration.value ==>
      RemainingSeconds(PauseFor(duration, now), later) == Some(now + duration.value - later)
  {
  }

  class AppDelegate {
    const app: AppState
    const logger: BreakLogger
    const slack: SlackIntegration
    const engine: TimerEngine
    const scheduler: BreakScheduler
    const monitor: ExceptionMonitor

    /** All components share the one session state, log and chat-status integration, and the phase machine is consistent. */
    predicate Valid()
      reads this, app, scheduler, engine, monitor
    {
      && engine.app == app && engine.logger == logger
      && scheduler.app == app && scheduler.logger == logger && scheduler.slack == slack
      && monitor.app == app
      && scheduler.Valid()
    }

    /** `applicationDidFinishLaunching`: wire the components over the loaded configuration. */
    constructor (config: Config, logFile: LogFile, now: real)
      ensures Valid()
      ensures app.config == config && app.tierCounters == Initialized(config.tiers, map[])
      ensures app.breakPhase == Idle && app.pauseState == NotPaused
      ensures slack.token == NormalizedToken(config.slackToken)
      ensures engine.lastTickTime == now && scheduler.overlayTimer == NoTimer
    {
      var app := new AppState(config);
      var logger := new BreakLogger(logFile);
      var slack := new SlackIntegration();
      slack.UpdateToken(config.slackToken);
      var scheduler := new BreakScheduler(app, logger, slack);
      var monitor := new ExceptionMonitor(app);
      var engine := new TimerEngine(app, logger, now);
      this.app := app;
      this.logger := logger;
      this.slack := slack;
      this.engine := engine;
      this.scheduler := scheduler;
      this.monitor := monitor;
    }

    /** `onPause`: pause until `now + d`, or indefinitely. */
    method OnPause(duration: Option<real>, now: real)
      modifies app`pauseState
      ensures app.pauseState == PauseFor(duration, now)
    {
      if duration.Some? {
        app.pauseState := PausedUntil(now + duration.value);
      } else {
        app.pauseState := PausedIndefinitely;
      }
    }

    /** `onResume`: counting resumes. */
    method OnResume()
      modifies app`pauseState
      ensures app.pauseState == NotPaused
    {
      app.pauseState := NotPaused;
    }

    /** Take a break now: straight to the overlay, past any exception or postponement. */
    method OnTakeBreakNow(tier: BreakTier, now: real)
      requires Valid()
      modifies scheduler`overlayTimer, app`breakPhase, app`overlayState, logger, slack`breakIsActive, slack`didSetStatus
      ensures Valid()
      ensures scheduler.OverlayStarted(tier, now)
    {
      scheduler.StartBreakImmediately(tier, now);
    }

    /** Test a break: straight to the warning, past any exception or postponement. */
    method OnTestBreak(tier: BreakTier, now: real)
      requires Valid()
      modifies scheduler`overlayTimer, app`breakPhase
      ensures Valid()
      ensures app.breakPhase == Warning(tier, now) && scheduler.overlayTimer == NoTimer
    {
      scheduler.StartWarning(tier, now);
    }

    /**
     * An exception edge.  When exceptions start, a warning or overlay in
     * progress is re-queued by tier id and cancelled; an idle machine is left
     * alone.  When they end, the queued breaks are replayed.
     */
    method OnExceptionStateChanged(isActive: bool, now: real)
      requires Valid()
      modifies scheduler`overlayTimer, app`breakPhase, app`overlayState, app`queuedBreaks,
               slack`breakIsActive, slack`didSetStatus
      ensures Valid()
      ensures isActive && old(app.breakPhase).Idle? ==>
        && app.breakPhase == old(app.breakPhase) && app.overlayState == old(app.overlayState)
        && app.queuedBreaks == old(app.queuedBreaks) && scheduler.overlayTimer == old(scheduler.overlayTimer)
        && slack.breakIsActive == old(slack.breakIsActive) && slack.didSetStatus == old(slack.didSetStatus)
      ensures isActive && !old(app.breakPhase).Idle? ==>
        && app.queuedBreaks == old(app.queuedBreaks) + {InterruptedTier(old(app.breakPhase)).value}
        && app.breakPhase == Idle && app.overlayState == None && scheduler.overlayTimer == NoTimer
        && !slack.breakIsActive && slack.didSetStatus == (old(slack.didSetStatus) && slack.token.None?)
      ensures !isActive ==>
        && app.overlayState == old(app.overlayState)
        && slack.breakIsActive == old(slack.breakIsActive) && slack.didSetStatus == old(slack.didSetStatus)
        && (old(app.queuedBreaks) == {} ==>
              && app.queuedBreaks == old(app.queuedBreaks)
              && app.breakPhase == old(app.breakPhase) && scheduler.overlayTimer == old(scheduler.overlayTimer))
        && (old(app.queuedBreaks) != {} ==>
              && app.queuedBreaks == {}
              && match LongestFirst(QueuedTiers(app.config.tiers, old(app.queuedBreaks)))
                 case None => app.breakPhase == old(app.breakPhase) && scheduler.overlayTimer == old(scheduler.overlayTimer)
                 case Some(t) => app.breakPhase == Warning(t, now) && scheduler.overlayTimer == NoTimer)
    {
      if isActive {
        match app.breakPhase
        case Warning(tier, _) =>
          app.queuedBreaks := app.queuedBreaks + {tier.id};
          scheduler.CancelCurrentBreak();
        case Overlay(tier) =>
          app.queuedBreaks := app.queuedBreaks + {tier.id};
          scheduler.CancelCurrentBreak();
        case Idle =>
      } else {
        scheduler.HandleExceptionEnded(now);
      }
    }

    /**
     * `configChanged`: a break in progress is cancelled (its tier may be gone
     * or changed), the counters are re-initialised for the new tier set and
     * the chat-status token is refreshed.
     */
    method OnConfigChanged()
      requires Valid()
      modifies scheduler`overlayTimer, app`breakPhase, app`overlayState, app`tierCounters,
               slack`token, slack`breakIsActive, slack`didSetStatus
      ensures Valid()
      ensures app.breakPhase == Idle
      ensures !old(app.breakPhase).Idle? ==>
        && app.overlayState == None && scheduler.overlayTimer == NoTimer
        && !slack.breakIsActive && slack.didSetStatus == (old(slack.didSetStatus) && old(slack.token).None?)
      ensures old(app.breakPhase).Idle? ==>
        && app.overlayState == old(app.overlayState) && scheduler.overlayTimer == old(scheduler.overlayTimer)
        && slack.breakIsActive == old(slack.breakIsActive) && slack.didSetStatus == old(slack.didSetStatus)
      ensures app.tierCounters == Initialized(app.config.tiers, old(app.tierCounters))
      ensures slack.token == NormalizedToken(app.config.slackToken)
    {
      if !app.breakPhase.Idle? {
        scheduler.CancelCurrentBreak();
      }
      app.InitializeCounters();
      slack.UpdateToken(app.config.slackToken);
    }

    /** One timer tick: the engine accounts for the time, and a fired tier goes to the scheduler. */
    method OnTick(now: real, idleSeconds: real)
      requires Valid()
      modifies engine, app`tierCounters, app`queuedBreaks, app`breakPhase, scheduler`overlayTimer, logger
      ensures Valid()
      ensures engine.lastTickTime == now
    {
      var fired := engine.Tick(now, idleSeconds);
      if fired.Some? {
        scheduler.HandleTierThresholdReached(fired.value, now);
      }
    }

    /** One exception poll: the monitor evaluates the signals, and an edge goes to the exception handler. */
    method OnExceptionPoll(micInUse: bool, ws: Workspace, now: real)
      requires Valid()
      modifies monitor, app`exceptionsActive, app`exceptionReason, scheduler`overlayTimer, app`breakPhase,
               app`overlayState, app`queuedBreaks, slack`breakIsActive, slack`didSetStatus
      ensures Valid()
      ensures app.exceptionsActive == Evaluate(app.config, micInUse, ws).isActive
      ensures monitor.wasExceptionActive == app.exceptionsActive
    {
      var edge := monitor.Poll(micInUse, ws);
      if edge.Some? {
        OnExceptionStateChanged(edge.value, now);
      }
    }
  }
}
