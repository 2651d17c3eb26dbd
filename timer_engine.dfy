/**
 * The once-a-second accounting tick and the wake handler.
 *
 * A tick advances the counters (up while the user is active, down while the
 * user is idle), then scans the configured tiers in order for one whose
 * counter has reached its threshold.  A due tier is passed over while it is
 * postponed, and while a strictly longer break is due within the merge
 * window; the first due tier that is neither is fired, and the scan stops.
 * A tier passed over for a merge is logged as deferred once per merge
 * episode: its id stays in `mergeLoggedTiers` until the tier next fires.
 *
 * The scan is specified by `Scan`, which describes what the rest of the loop
 * does from a given index; the lemmas below say which tier fires and how
 * the merge log behaves.
 */
module TimerEngines {

  import opened Wrappers
  import opened BreakTiers
  import opened Configs
  import opened PauseStates
  import opened BreakPhases
  import opened BreakLogs
  import opened AppStates

  /** Longest stretch of time one tick accounts for. */
  const MaxTickElapsed: real := 5.0

  /** `min(elapsed, 5.0)` for the time since the previous tick. */
  function ClampedElapsed(lastTick: real, now: real): (e: real)
    ensures e <= MaxTickElapsed && e <= now - lastTick
    ensures e == MaxTickElapsed || e == now - lastTick
  {
    if now - lastTick < MaxTickElapsed then now - lastTick else MaxTickElapsed
  }

  /** The counter update of one tick: increment below the idle threshold, unwind at or above it. */
  function Accrued(config: Config, c: Counters, elapsed: real, idleSeconds: real): Counters {
    if idleSeconds < config.idleThreshold then Incremented(config.tiers, c, elapsed)
    else Unwound(config.tiers, c, elapsed)
  }

  /**
   * With unique tier ids, a tick adds the elapsed time to every configured
   * counter while the user is active, and otherwise lowers each by it,
   * floored at zero; unconfigured entries are untouched.
   */
  lemma AccruedSpec(config: Config, c: Counters, elapsed: real, idleSeconds: real)
    requires UniqueIds(config.tiers)
    ensures Accrued(config, c, elapsed, idleSeconds).Keys == c.Keys + TierIds(config.tiers)
    ensures forall k :: k in TierIds(config.tiers) ==>
      Accrued(config, c, elapsed, idleSeconds)[k] ==
        if idleSeconds < config.idleThreshold then CounterOf(c, k) + elapsed else Max0(CounterOf(c, k) - elapsed)
    ensures forall k :: k in c && k !in TierIds(config.tiers) ==> Accrued(config, c, elapsed, idleSeconds)[k] == c[k]
  {
    if idleSeconds < config.idleThreshold {
      IncrementedSpec(config.tiers, c, elapsed);
    } else {
      UnwoundSpec(config.tiers, c, elapsed);
    }
  }

  /** Ticks with a clock that does not run backwards keep every counter non-negative. */
  lemma TickKeepsCountersNonNegative(config: Config, c: Counters, lastTick: real, now: real, idleSeconds: real)
    requires AllNonNegative(c) && lastTick <= now
    ensures AllNonNegative(Accrued(config, c, ClampedElapsed(lastTick, now), idleSeconds))
  {
    if idleSeconds < config.idleThreshold {
      IncrementedNonNegative(config.tiers, c, ClampedElapsed(lastTick, now));
    } else {
      UnwoundNonNegative(config.tiers, c, ClampedElapsed(lastTick, now));
    }
  }

  // ---------------------------------------------------------------------
  // mergeTarget

  /** A strictly longer break whose tier is due within the merge window, but not yet due. */
  predicate MergesInto(other: BreakTier, tier: BreakTier, c: Counters, mergeWindow: real) {
    && other.breakDuration > tier.breakDuration
    && 0.0 < Remaining(c, other)
    && Remaining(c, other) <= mergeWindow
  }

  /** `mergeTarget`: the first configured tier, in order, that `tier` merges into. */
  function MergeTarget(tiers: seq<BreakTier>, c: Counters, mergeWindow: real, tier: BreakTier): Option<BreakTier> {
    if tiers == [] then None
    else if MergesInto(tiers[0], tier, c, mergeWindow) then Some(tiers[0])
    else MergeTarget(tiers[1..], c, mergeWindow, tier)
  }

  /**
   * There is a merge target exactly when some configured tier qualifies, and
   * it is the first qualifying tier in configuration order.
   */
  lemma {:induction false} MergeTargetSpec(tiers: seq<BreakTier>, c: Counters, mergeWindow: real, tier: BreakTier)
    ensures MergeTarget(tiers, c, mergeWindow, tier).None? <==>
      forall k :: 0 <= k < |tiers| ==> !MergesInto(tiers[k], tier, c, mergeWindow)
    ensures MergeTarget(tiers, c, mergeWindow, tier).Some? ==>
      exists k :: (0 <= k < |tiers| && tiers[k] == MergeTarget(tiers, c, mergeWindow, tier).value
        && MergesInto(tiers[k], tier, c, mergeWindow)
        && forall j :: 0 <= j < k ==> !MergesInto(tiers[j], tier, c, mergeWindow))
  {
    if tiers != [] && !MergesInto(tiers[0], tier, c, mergeWindow) {
      MergeTargetSpec(tiers[1..], c, mergeWindow, tier);
      assert forall k :: 0 < k < |tiers| ==> tiers[k] == tiers[1..][k - 1];
      if MergeTarget(tiers, c, mergeWindow, tier).Some? {
        var k :| 0 <= k < |tiers[1..]| && tiers[1..][k] == MergeTarget(tiers, c, mergeWindow, tier).value
          && MergesInto(tiers[1..][k], tier, c, mergeWindow)
          && forall j :: 0 <= j < k ==> !MergesInto(tiers[1..][j], tier, c, mergeWindow);
        assert tiers[k + 1] == tiers[1..][k];
      }
    }
  }

  /** A tier never merges into itself, nor into a tier with the same or a shorter break. */
  lemma MergeTargetIsLonger(tiers: seq<BreakTier>, c: Counters, mergeWindow: real, tier: BreakTier)
    requires MergeTarget(tiers, c, mergeWindow, tier).Some?
    ensures MergeTarget(tiers, c, mergeWindow, tier).value.breakDuration > tier.breakDuration
    ensures MergeTarget(tiers, c, mergeWindow, tier).value != tier
    ensures MergeTarget(tiers, c, mergeWindow, tier).value in tiers
  {
    MergeTargetSpec(tiers, c, mergeWindow, tier);
  }

  // ---------------------------------------------------------------------
  // The threshold scan

  /** A due tier passed over in favour of the longer break it merges into. */
  datatype Deferral = Deferral(tier: BreakTier, mergedInto: BreakTier)

  /** The log entry written for a deferral at time `now`. */
  function DeferralEntry(d: Deferral, now: real): (e: LogEntry)
    ensures e.event == Deferred && e.date == now
    ensures e.tierName == d.tier.name && e.tierColor == RawName(d.tier.color)
    ensures e.reason == Some("merged into " + d.mergedInto.name)
  {
    LogEntry(now, d.tier.name, RawName(d.tier.color), Deferred, Some("merged into " + d.mergedInto.name))
  }

  /** The log entries of a run of deferrals, in order. */
  function DeferralEntries(ds: seq<Deferral>, now: real): (es: seq<LogEntry>)
    ensures |es| == |ds|
    ensures forall k :: 0 <= k < |ds| ==> es[k] == DeferralEntry(ds[k], now)
  {
    if ds == [] then [] else DeferralEntries(ds[..|ds| - 1], now) + [DeferralEntry(ds[|ds| - 1], now)]
  }

  lemma DeferralEntriesSnoc(ds: seq<Deferral>, d: Deferral, now: real)
    ensures DeferralEntries(ds + [d], now) == DeferralEntries(ds, now) + [DeferralEntry(d, now)]
  {
    assert (ds + [d])[..|ds|] == ds;
  }

  /** What the threshold scan does: the tier it fires, the merge-logged ids it leaves, and the deferrals it logs. */
  datatype ScanResult = ScanResult(fired: Option<BreakTier>, logged: set<TierId>, deferrals: seq<Deferral>)

  /** A tier the scan fires when it reaches it: due, not postponed and with no merge target. */
  predicate Fires(tiers: seq<BreakTier>, c: Counters, postponements: map<TierId, real>, now: real, mergeWindow: real, t: BreakTier) {
    Due(c, t) && !IsPostponed(postponements, t, now) && MergeTarget(tiers, c, mergeWindow, t).None?
  }

  /** The threshold loop from index `i` on, with `logged` as the merge-logged ids so far. */
  function Scan(tiers: seq<BreakTier>, i: nat, c: Counters, postponements: map<TierId, real>, now: real,
                mergeWindow: real, logged: set<TierId>): ScanResult
    requires i <= |tiers|
    decreases |tiers| - i
  {
    if i == |tiers| then ScanResult(None, logged, [])
    else
      var t := tiers[i];
      if !Due(c, t) || IsPostponed(postponements, t, now) then
        Scan(tiers, i + 1, c, postponements, now, mergeWindow, logged)
      else
        match MergeTarget(tiers, c, mergeWindow, t)
        case Some(m) =>
          if t.id in logged then Scan(tiers, i + 1, c, postponements, now, mergeWindow, logged)
          else
            var rest := Scan(tiers, i + 1, c, postponements, now, mergeWindow, logged + {t.id});
            rest.(deferrals := [Deferral(t, m)] + rest.deferrals)
        case None => ScanResult(Some(t), logged - {t.id}, [])
  }

  /** One step of the scan at tier `i`: passed over, deferred and logged, or fired. */
  lemma ScanStep(tiers: seq<BreakTier>, i: nat, c: Counters, postponements: map<TierId, real>, now: real,
                 mergeWindow: real, logged: set<TierId>)
    requires i < |tiers|
    ensures var t := tiers[i];
      var r := Scan(tiers, i, c, postponements, now, mergeWindow, logged);
      && (!Due(c, t) || IsPostponed(postponements, t, now)
          || (MergeTarget(tiers, c, mergeWindow, t).Some? && t.id in logged) ==>
            r == Scan(tiers, i + 1, c, postponements, now, mergeWindow, logged))
      && (Due(c, t) && !IsPostponed(postponements, t, now)
          && MergeTarget(tiers, c, mergeWindow, t).Some? && t.id !in logged ==>
            var rest := Scan(tiers, i + 1, c, postponements, now, mergeWindow, logged + {t.id});
            r == rest.(deferrals := [Deferral(t, MergeTarget(tiers, c, mergeWindow, t).value)] + rest.deferrals))
      && (Fires(tiers, c, postponements, now, mergeWindow, t) ==> r == ScanResult(Some(t), logged - {t.id}, []))
  {
  }

  /** Loop state against the whole scan: the rest of the scan from here, after the deferrals `done`, is the whole of it. */
  predicate ScanRemains(target: ScanResult, rest: ScanResult, done: seq<Deferral>) {
    target.fired == rest.fired && target.logged == rest.logged && target.deferrals == done + rest.deferrals
  }

  /** Logging one deferral moves it from the rest of the scan to the deferrals done. */
  lemma ScanRemainsDefer(target: ScanResult, here: ScanResult, rest: ScanResult, done: seq<Deferral>, d: Deferral)
    requires ScanRemains(target, here, done)
    requires here == rest.(deferrals := [d] + rest.deferrals)
    ensures ScanRemains(target, rest, done + [d])
  {
    assert done + ([d] + rest.deferrals) == (done + [d]) + rest.deferrals;
  }

  /** The outcome of a scan as the engine realises it: the fired tier, the merge log, and the log file written. */
  predicate ScanDone(r: ScanResult, fired: Option<BreakTier>, logged: set<TierId>, file0: LogFile, file: LogFile, now: real) {
    fired == r.fired && logged == r.logged && file == LogAll(file0, DeferralEntries(r.deferrals, now))
  }

  /** No tier at an index in `[i, k)` fires. */
  predicate NoneFires(tiers: seq<BreakTier>, c: Counters, postponements: map<TierId, real>, now: real,
                      mergeWindow: real, i: nat, k: nat)
    requires k <= |tiers|
  {
    forall j :: i <= j < k ==> !Fires(tiers, c, postponements, now, mergeWindow, tiers[j])
  }

  /**
   * The scan fires a tier exactly when some tier from `i` on fires, and then
   * it is the first such tier in configuration order.
   */
  lemma {:induction false} ScanFiresFirst(tiers: seq<BreakTier>, i: nat, c: Counters, postponements: map<TierId, real>,
                                          now: real, mergeWindow: real, logged: set<TierId>)
    requires i <= |tiers|
    decreases |tiers| - i
    ensures var r := Scan(tiers, i, c, postponements, now, mergeWindow, logged);
      r.fired.None? <==> NoneFires(tiers, c, postponements, now, mergeWindow, i, |tiers|)
    ensures var r := Scan(tiers, i, c, postponements, now, mergeWindow, logged);
      r.fired.Some? ==> exists k :: (i <= k < |tiers| && tiers[k] == r.fired.value
        && Fires(tiers, c, postponements, now, mergeWindow, tiers[k])
        && NoneFires(tiers, c, postponements, now, mergeWindow, i, k))
  {
    if i < |tiers| {
      var t := tiers[i];
      var r := Scan(tiers, i, c, postponements, now, mergeWindow, logged);
      if Fires(tiers, c, postponements, now, mergeWindow, t) {
        assert r.fired == Some(t);
        assert NoneFires(tiers, c, postponements, now, mergeWindow, i, i);
      } else {
        var deferred := Due(c, t) && !IsPostponed(postponements, t, now) && t.id !in logged;
        var l := if deferred then logged + {t.id} else logged;
        ScanFiresFirst(tiers, i + 1, c, postponements, now, mergeWindow, l);
        var rest := Scan(tiers, i + 1, c, postponements, now, mergeWindow, l);
        ScanStep(tiers, i, c, postponements, now, mergeWindow, logged);
        assert r.fired == rest.fired;
        if rest.fired.Some? {
          var k :| i + 1 <= k < |tiers| && tiers[k] == rest.fired.value
            && Fires(tiers, c, postponements, now, mergeWindow, tiers[k])
            && NoneFires(tiers, c, postponements, now, mergeWindow, i + 1, k);
          assert NoneFires(tiers, c, postponements, now, mergeWindow, i, k);
        }
      }
    }
  }

  /** A deferral the scan may log: its tier is due, not postponed, and merges into the recorded target. */
  predicate Deferrable(tiers: seq<BreakTier>, c: Counters, postponements: map<TierId, real>, now: real,
                       mergeWindow: real, d: Deferral) {
    && Due(c, d.tier) && !IsPostponed(postponements, d.tier, now)
    && MergeTarget(tiers, c, mergeWindow, d.tier) == Some(d.mergedInto)
  }

  /** The tier ids of a run of deferrals. */
  function DeferredIds(ds: seq<Deferral>): set<TierId> {
    if ds == [] then {} else {ds[0].tier.id} + DeferredIds(ds[1..])
  }

  /** No two deferrals of a run are for the same tier id. */
  predicate DistinctIds(ds: seq<Deferral>) {
    forall k, l :: 0 <= k < l < |ds| ==> ds[k].tier.id != ds[l].tier.id
  }

  /**
   * Every deferral of the scan from `i` is for a tier from `i` on, is
   * deferrable, and is for an id that was not merge-logged before the scan.
   */
  lemma {:induction false} ScanDeferralsValid(tiers: seq<BreakTier>, i: nat, c: Counters, postponements: map<TierId, real>,
                                              now: real, mergeWindow: real, logged: set<TierId>)
    requires i <= |tiers|
    decreases |tiers| - i
    ensures var r := Scan(tiers, i, c, postponements, now, mergeWindow, logged);
      forall d :: d in r.deferrals ==>
        d.tier in tiers[i..] && Deferrable(tiers, c, postponements, now, mergeWindow, d) && d.tier.id !in logged
  {
    if i < |tiers| {
      var t := tiers[i];
      assert tiers[i + 1..] == tiers[i..][1..];
      ScanStep(tiers, i, c, postponements, now, mergeWindow, logged);
      if !Due(c, t) || IsPostponed(postponements, t, now) || MergeTarget(tiers, c, mergeWindow, t).None? {
        ScanDeferralsValid(tiers, i + 1, c, postponements, now, mergeWindow, logged);
      } else if t.id in logged {
        ScanDeferralsValid(tiers, i + 1, c, postponements, now, mergeWindow, logged);
      } else {
        ScanDeferralsValid(tiers, i + 1, c, postponements, now, mergeWindow, logged + {t.id});
      }
    }
  }

  /** A deferral scan never logs the same tier id twice. */
  lemma {:induction false} ScanDeferralsDistinct(tiers: seq<BreakTier>, i: nat, c: Counters, postponements: map<TierId, real>,
                                                 now: real, mergeWindow: real, logged: set<TierId>)
    requires i <= |tiers|
    decreases |tiers| - i
    ensures DistinctIds(Scan(tiers, i, c, postponements, now, mergeWindow, logged).deferrals)
  {
    if i < |tiers| {
      var t := tiers[i];
      ScanStep(tiers, i, c, postponements, now, mergeWindow, logged);
      if !Due(c, t) || IsPostponed(postponements, t, now) || MergeTarget(tiers, c, mergeWindow, t).None? {
        ScanDeferralsDistinct(tiers, i + 1, c, postponements, now, mergeWindow, logged);
      } else if t.id in logged {
        ScanDeferralsDistinct(tiers, i + 1, c, postponements, now, mergeWindow, logged);
      } else {
        var rest := Scan(tiers, i + 1, c, postponements, now, mergeWindow, logged + {t.id}).deferrals;
        var ds := Scan(tiers, i, c, postponements, now, mergeWindow, logged).deferrals;
        ScanDeferralsDistinct(tiers, i + 1, c, postponements, now, mergeWindow, logged + {t.id});
        ScanDeferralsValid(tiers, i + 1, c, postponements, now, mergeWindow, logged + {t.id});
        assert ds[1..] == rest;
        forall k, l | 0 <= k < l < |ds| ensures ds[k].tier.id != ds[l].tier.id {
          assert ds[l] == rest[l - 1];
          if k == 0 {
            assert rest[l - 1] in rest;
          } else {
            assert ds[k] == rest[k - 1];
          }
        }
      }
    }
  }

  /** The merge-logged ids after the scan: the old ones plus the deferred ones, less the fired tier's. */
  lemma {:induction false} ScanLoggedIds(tiers: seq<BreakTier>, i: nat, c: Counters, postponements: map<TierId, real>,
                                         now: real, mergeWindow: real, logged: set<TierId>)
    requires i <= |tiers|
    decreases |tiers| - i
    ensures var r := Scan(tiers, i, c, postponements, now, mergeWindow, logged);
      r.logged == (logged + DeferredIds(r.deferrals)) - (if r.fired.Some? then {r.fired.value.id} else {})
  {
    if i < |tiers| {
      var t := tiers[i];
      ScanStep(tiers, i, c, postponements, now, mergeWindow, logged);
      if !Due(c, t) || IsPostponed(postponements, t, now) || MergeTarget(tiers, c, mergeWindow, t).None? {
        ScanLoggedIds(tiers, i + 1, c, postponements, now, mergeWindow, logged);
      } else if t.id in logged {
        ScanLoggedIds(tiers, i + 1, c, postponements, now, mergeWindow, logged);
      } else {
        var ds := Scan(tiers, i, c, postponements, now, mergeWindow, logged).deferrals;
        var rest := Scan(tiers, i + 1, c, postponements, now, mergeWindow, logged + {t.id}).deferrals;
        ScanLoggedIds(tiers, i + 1, c, postponements, now, mergeWindow, logged + {t.id});
        assert ds[1..] == rest;
        assert DeferredIds(ds) == {t.id} + DeferredIds(rest);
      }
    }
  }

  /** The engine: the tick's own bookkeeping, with the shared state and the log it updates. */
  class TimerEngine {
    const app: AppState
    const logger: BreakLogger
    var lastTickTime: real
    var mergeLoggedTiers: set<TierId>

    /** `start(appState:)`: the clock starts now, and nothing has been merge-logged. */
    constructor (app: AppState, logger: BreakLogger, now: real)
      ensures this.app == app && this.logger == logger
      ensures lastTickTime == now && mergeLoggedTiers == {}
    {
      this.app := app;
      this.logger := logger;
      lastTickTime := now;
      mergeLoggedTiers := {};
    }

    /**
     * `tick`: account for the time since the last tick and fire at most one
     * due tier.  Nothing is counted while paused or while a break is in
     * progress; otherwise the counters advance by the clamped elapsed time
     * and the scan decides the fired tier, the merge log and the entries
     * appended to the break log.  The fired tier is returned to the caller,
     * which hands it to the scheduler.
     */
    method Tick(now: real, idleSeconds: real) returns (fired: Option<BreakTier>)
      modifies this, app`tierCounters, logger
      ensures lastTickTime == now
      ensures IsPaused(old(app.pauseState), now) || !old(app.breakPhase).Idle? ==>
        && fired.None?
        && app.tierCounters == old(app.tierCounters)
        && mergeLoggedTiers == old(mergeLoggedTiers)
        && logger.file == old(logger.file)
      ensures !IsPaused(old(app.pauseState), now) && old(app.breakPhase).Idle? ==>
        && app.tierCounters == Accrued(app.config, old(app.tierCounters), ClampedElapsed(old(lastTickTime), now), idleSeconds)
        && ScanDone(Scan(app.config.tiers, 0, app.tierCounters, app.postponements, now, app.config.mergeWindow,
                         old(mergeLoggedTiers)),
                    fired, mergeLoggedTiers, old(logger.file), logger.file, now)
    {
      var elapsed := now - lastTickTime;
      lastTickTime := now;
      var clampedElapsed := if elapsed < MaxTickElapsed then elapsed else MaxTickElapsed;
      // With one clock reading per tick, the auto-resume of an expired timed
      // pause is unreachable here: an expired pause is not paused (see
      // PauseStates.AutoResumeUnreachable).
      if IsPaused(app.pauseState, now) {
        return None;
      }
      if !app.breakPhase.Idle? {
        return None;
      }
      if idleSeconds < app.config.idleThreshold {
        app.IncrementCounters(clampedElapsed);
      } else {
        app.UnwindCounters(clampedElapsed);
      }

      fired := CheckThresholds(now);
    }

    /** The threshold loop of `tick`, over the counters as they stand. */
    method CheckThresholds(now: real) returns (fired: Option<BreakTier>)
      modifies this`mergeLoggedTiers, logger
      ensures ScanDone(Scan(app.config.tiers, 0, app.tierCounters, app.postponements, now, app.config.mergeWindow,
                            old(mergeLoggedTiers)),
                       fired, mergeLoggedTiers, old(logger.file), logger.file, now)
    {
      var tiers := app.config.tiers;
      var c := app.tierCounters;
      var postponements := app.postponements;
      var mergeWindow := app.config.mergeWindow;
      var logged := mergeLoggedTiers;
      ghost var target := Scan(tiers, 0, c, postponements, now, mergeWindow, logged);
      ghost var file0 := logger.file;
      ghost var done: seq<Deferral> := [];
      fired := None;
      var i := 0;
      while i < |tiers|
        invariant 0 <= i <= |tiers|
        invariant fired.None?
        invariant ScanRemains(target, Scan(tiers, i, c, postponements, now, mergeWindow, logged), done)
        invariant logger.file == LogAll(file0, DeferralEntries(done, now))
      {
        var tier := tiers[i];
        ScanStep(tiers, i, c, postponements, now, mergeWindow, logged);
        var counter := CounterOf(c, tier.id);
        // A postponed tier, and a tier with a merge target, are passed over.
        if counter >= tier.activeInterval && !IsPostponed(postponements, tier, now) {
          var mergedInto := MergeTarget(tiers, c, mergeWindow, tier);
          if mergedInto.None? {
            logged := logged - {tier.id};
            fired := Some(tier);
            assert target.fired == fired && target.logged == logged && target.deferrals == done + [] == done;
            break;
          }
          if tier.id !in logged {
            var d := Deferral(tier, mergedInto.value);
            ScanRemainsDefer(target, Scan(tiers, i, c, postponements, now, mergeWindow, logged),
                             Scan(tiers, i + 1, c, postponements, now, mergeWindow, logged + {tier.id}), done, d);
            logged := logged + {tier.id};
            logger.Log(DeferralEntry(d, now));
            DeferralEntriesSnoc(done, d, now);
            LogAllSnoc(file0, DeferralEntries(done, now), DeferralEntry(d, now));
            done := done + [d];
          }
        }
        i := i + 1;
      }
      assert target.fired == fired && target.logged == logged && target.deferrals == done + [] == done;
      assert target == Scan(app.config.tiers, 0, app.tierCounters, app.postponements, now, app.config.mergeWindow,
                            old(mergeLoggedTiers));
      assert file0 == old(logger.file);
      mergeLoggedTiers := logged;
    }

    /**
     * The wake handler: after sleep the counters unwind by the whole idle
     * time if it exceeds the idle threshold, and the clock restarts.
     */
    method OnWake(idleSeconds: real, now: real)
      modifies this`lastTickTime, app`tierCounters
      ensures lastTickTime == now
      ensures app.tierCounters ==
        if idleSeconds > app.config.idleThreshold then Unwound(app.config.tiers, old(app.tierCounters), idleSeconds)
        else old(app.tierCounters)
    {
      if idleSeconds > app.config.idleThreshold {
        app.UnwindCounters(idleSeconds);
      }
      lastTickTime := now;
    }
  }
}
