# BreakTime break-timing model

BreakTime is a macOS menu-bar app that counts active time per *break tier*.
A tier is, for example, "Stretch: 15 seconds every 20 minutes of activity"
or "Walk: 5 minutes every hour". When a tier's counter reaches its active
interval, a warning border appears. An overlay with a countdown follows. The
break then ends by completing, skipping or postponing. Exceptions suspend
breaks: the microphone in use, screen sharing, or a chosen application that
is open or focused.

This project models the break-timing state machine in Dafny:

- the session state and its per-tier counter accounting (`AppStates`);
- the one-second tick (`TimerEngines`);
- the phase machine idle → warning → overlay → idle (`BreakSchedulers`);
- the exception poll (`ExceptionMonitors`);
- the wiring between them (`AppDelegates`);
- the value types (`BreakTiers`, `Configs`, `PauseStates`, `BreakPhases`, `ExceptionRules`);
- the break log (`BreakLogs`);
- the chat-status bookkeeping (`SlackStatus`);
- the three time formatters (`MenuBar`, `OverlayView`, `TiersSettings`);
- the settings-pane edits (`TiersSettings`, `TierEditor`, `ExceptionsSettings`).

Objects whose fields the app updates in place are classes. Each method's
`modifies` clause names exactly the fields it writes, and its `ensures`
gives the new state as a function of the old one. Each loop is a Dafny loop
that is proved against a specification function walking the same list. The
meaning of each specification function is proved in separate lemmas:

- exact key sets and values of the counter maps;
- first-in-order choices;
- the sort being a permutation that is ordered;
- the log bounds.

Pure code is written as functions. Its partner is either an independent
reader (the formatted times read back to the number they show) or a lemma
giving the promised property.

Timer callbacks, dispatch deadlines and notifications become explicit event
methods. Each event takes `now` and, where the app queries it, the idle time
as parameters. Time is `real` seconds. Swift's `Int(x)` truncation and its
integer `/` and `%` are written out (`SwiftText.Trunc`, `Quot`, `Rem`),
because Dafny's own operators round differently for negative operands.

Places where the model follows the code rather than a reading of its intent:

- The trigger's merge test and the display's merge test are different
  (`TimerEngines.MergesInto` against `AppStates.DisplayMerges`).
- Postponing rewrites the counter; nothing writes `postponements`.
- The warning deadline's guard compares tier ids only
  (`BreakSchedulers.StaleDeadlineAdvances`).
- The timed-pause auto-resume branch of `tick` cannot run with one clock
  reading per tick (`PauseStates.AutoResumeUnreachable`). The app reads the
  clock twice there, so it can run if the pause ends between the two reads;
  the model does not capture that (see "Left out").
- `startWarning` leaves a previous `overlayState` in place. So the model
  claims "overlay phase ⇒ overlay state for that tier", not the converse.
- `Config.swift` declares neither `warningDuration` nor `slackToken`, but the
  scheduler and the app delegate read both. They are `Config` fields here,
  with the warning duration defaulting to the 30-second fallback
  (`BreakScheduler.swift:139`).
- `onOverlayStarted` is assigned in `AppDelegate.swift:83` but never declared
  in `BreakScheduler.swift`. The model calls it where the overlay starts, so
  the chat status is set as the overlay appears.

## Model

| member | source | states |
|---|---|---|
| AppStates.Max0 | BreakTime/Models/AppState.swift:41 | `max(0, x)`: the result is non-negative, at least `x`, and is either 0 or `x` |
| AppStates.SeededSpec | BreakTime/Models/AppState.swift:22-26 | the seeding loop adds exactly the configured ids to the key set, and every entry reads as the old counter, a missing one as 0 |
| AppStates.InitializedSpec | BreakTime/Models/AppState.swift:21-30 | after `initializeCounters` the key set is exactly the configured ids; surviving tiers keep their value and new tiers start at 0 |
| AppStates.AppState.InitializeCounters | BreakTime/Models/AppState.swift:21-30 | the loop and the filter leave `tierCounters == Initialized(config.tiers, old counters)` |
| AppStates.IncrementedSpec | BreakTime/Models/AppState.swift:32-36 | with unique ids, every configured counter grows by `e` (missing as 0), the key set gains the configured ids, and other keys are untouched |
| AppStates.IncrementedNonNegative | BreakTime/Models/AppState.swift:32-36 | incrementing by a non-negative amount keeps every counter non-negative |
| AppStates.AppState.IncrementCounters | BreakTime/Models/AppState.swift:32-36 | the loop leaves `tierCounters == Incremented(config.tiers, old counters, e)` |
| AppStates.UnwoundSpec | BreakTime/Models/AppState.swift:38-43 | with unique ids, every configured counter becomes `max(0, c - e)`, and other keys are untouched |
| AppStates.UnwoundNonNegative | BreakTime/Models/AppState.swift:38-43 | for any ids and any amount, every configured counter is present and non-negative after unwinding, and non-negative maps stay non-negative |
| AppStates.AppState.UnwindCounters | BreakTime/Models/AppState.swift:38-43 | the loop leaves `tierCounters == Unwound(config.tiers, old counters, e)` |
| AppStates.ResetIdsSpec | BreakTime/Models/AppState.swift:45-58 | an id is covered by a cascade reset iff some configured tier with that id has a break no longer than the trigger's |
| AppStates.ZeroedSpec | BreakTime/Models/AppState.swift:46-50 | the counter loop zeroes exactly the covered ids (adding them if missing) and leaves every other entry as it was |
| AppStates.TriggerCoversItself | BreakTime/Models/AppState.swift:47 | a configured triggering tier is always covered by its own reset |
| AppStates.AppState.CascadeReset | BreakTime/Models/AppState.swift:45-59 | counters are `Zeroed`, and the covered ids are removed from both `postponements` and `queuedBreaks` |
| AppStates.AppState.ZeroCovered | BreakTime/Models/AppState.swift:46-50 | the first loop leaves `tierCounters == Zeroed(config.tiers, old counters, d)` |
| AppStates.AppState.UnpostponeCovered | BreakTime/Models/AppState.swift:52-54 | the second loop removes exactly the covered ids from `postponements` |
| AppStates.AppState.UnqueueCovered | BreakTime/Models/AppState.swift:56-58 | the third loop removes exactly the covered ids from `queuedBreaks` |
| AppStates.UpcomingSpec | BreakTime/Models/AppState.swift:63-69 | the `compactMap` keeps exactly the configured tiers with positive remaining time, each paired with that remaining time |
| AppStates.InsertByRemainingPerm | BreakTime/Models/AppState.swift:70 | one insertion step adds exactly the inserted entry (as a multiset) |
| AppStates.InsertByRemainingSorted | BreakTime/Models/AppState.swift:70 | one insertion step keeps a sequence ordered by remaining time |
| AppStates.SortByRemainingSpec | BreakTime/Models/AppState.swift:70 | the sort's result is ordered by remaining time and is a permutation of its input |
| AppStates.NearestSpec | BreakTime/Models/AppState.swift:63-75 | `sorted.first` exists iff some tier has positive remaining time; it is such a tier with the least remaining time |
| AppStates.LongestFirst | BreakTime/Models/AppState.swift:74 | `max(by: breakDuration)` is nil iff the list is empty |
| AppStates.LongestFirstSpec | BreakTime/Models/AppState.swift:74 | a non-nil result is a tier whose break no tier exceeds, and every tier before it has a strictly shorter break (the first maximum) |
| AppStates.FirstMerging | BreakTime/Models/AppState.swift:78-84 | the loop's result merges and every entry before it does not; a nil result means no entry merges |
| AppStates.NextBreakTierExists | BreakTime/Models/AppState.swift:62-87 | `nextBreakTier` is nil iff no tier is configured, and otherwise is a configured tier |
| AppStates.NextBreakTierAllDue | BreakTime/Models/AppState.swift:72-75 | when no tier has time to go, the answer is the first tier with the longest break |
| AppStates.NextBreakTierMerge | BreakTime/Models/AppState.swift:77-86 | otherwise the answer is the nearest tier or the first entry, in ascending remaining order, that is strictly longer and within the merge window; it is the nearest iff no entry merges |
| AppStates.NextBreakTierUpcoming | BreakTime/Models/AppState.swift:77-86 | in that case the answer is a configured tier with positive remaining time |
| AppStates.NextBreakCountdownSpec | BreakTime/Models/AppState.swift:89-94 | the countdown is nil iff no tier is configured, and otherwise is `max(0, remaining)` of the chosen tier |
| AppStates.AppState.constructor | BreakTime/Models/AppState.swift:5-19 | the initial state: the given config, counters initialised from empty, not paused, idle, nothing queued or postponed, no exception |
| TimerEngines.ClampedElapsed | BreakTime/Services/TimerEngine.swift:48-52 | the elapsed time is `min(now - lastTick, 5)`; there is no floor |
| TimerEngines.AccruedSpec | BreakTime/Services/TimerEngine.swift:71-79 | below the idle threshold every configured counter grows by the elapsed time; from the threshold on (equality included) it unwinds to `max(0, c - e)` |
| TimerEngines.TickKeepsCountersNonNegative | BreakTime/Services/TimerEngine.swift:48-79 | with a monotone clock, a tick keeps all counters non-negative |
| TimerEngines.MergeTargetSpec | BreakTime/Services/TimerEngine.swift:106-116 | `mergeTarget` is nil iff no configured tier is strictly longer with `0 < remaining <= mergeWindow`; otherwise it is the first such tier |
| TimerEngines.MergeTargetIsLonger | BreakTime/Services/TimerEngine.swift:106-116 | a merge target is a configured tier with a strictly longer break, so never the tier itself |
| TimerEngines.DeferralEntry | BreakTime/Services/TimerEngine.swift:94 | the "deferred" entry carries the tier's name and colour name and the reason "merged into <target name>" |
| TimerEngines.DeferralEntries | BreakTime/Services/TimerEngine.swift:94 | one deferred entry per deferral, in order |
| TimerEngines.ScanStep | BreakTime/Services/TimerEngine.swift:82-103 | at each tier the loop passes over it, defers it (the first time only), or fires it and stops |
| TimerEngines.ScanFiresFirst | BreakTime/Services/TimerEngine.swift:82-103 | the scan fires a tier iff some tier is due, not postponed and has no merge target; the fired tier is the first such tier in configuration order |
| TimerEngines.ScanDeferralsValid | BreakTime/Services/TimerEngine.swift:84-97 | each logged deferral is for a due, non-postponed tier with a merge target, recorded against that target, and not merge-logged before |
| TimerEngines.ScanDeferralsDistinct | BreakTime/Services/TimerEngine.swift:92-95 | no tier is logged as "merged" twice in one tick |
| TimerEngines.ScanLoggedIds | BreakTime/Services/TimerEngine.swift:92-98 | the merge-logged ids afterwards are the old ones plus the newly deferred ones, minus the fired tier's id |
| TimerEngines.TimerEngine.Tick | BreakTime/Services/TimerEngine.swift:44-104 | sets `lastTickTime := now`; while paused or not idle nothing else changes and nothing fires; otherwise the counters accrue and the fired tier, merge log and log file are those of the scan |
| TimerEngines.TimerEngine.CheckThresholds | BreakTime/Services/TimerEngine.swift:82-103 | the `for`/`continue`/`break` loop returns the scan's fired tier, leaves its merge-logged ids, and appends its deferral entries to the log in order |
| TimerEngines.TimerEngine.OnWake | BreakTime/Services/TimerEngine.swift:29-34 | the counters unwind by the full idle time only when it strictly exceeds the idle threshold, and `lastTickTime` is reset |
| TimerEngines.TimerEngine.constructor | BreakTime/Services/TimerEngine.swift:7-14 | the engine starts with `lastTickTime = now` and no merge-logged tiers |
| BreakSchedulers.TierEntry | BreakTime/Services/BreakScheduler.swift:155 | a log entry for a tier: its name, its colour's raw name, the event, the reason and the date |
| BreakSchedulers.QueueReason | BreakTime/Services/BreakScheduler.swift:59 | the queued-break reason is the exception reason, or "exception" when there is none |
| BreakSchedulers.QueuedTiersEmpty | BreakTime/Services/BreakScheduler.swift:77-78 | the filtered list is empty iff no configured tier is queued |
| BreakSchedulers.LongestQueuedSpec | BreakTime/Services/BreakScheduler.swift:77-79 | the replayed tier is nil iff no configured tier is queued, and otherwise is the first configured queued tier with the longest break |
| BreakSchedulers.StaleDeadlineAdvances | BreakTime/Services/BreakScheduler.swift:117-123 | a deadline advances the warning in progress iff that warning's tier has the deadline's tier id, whatever its start time, so a stale deadline advances a later warning for the same tier; outside a warning it never advances |
| BreakSchedulers.CountdownLength | BreakTime/Services/BreakScheduler.swift:195-200 | a countdown from `r` completes at step `n` iff `n` is `ceil(r)` (at least 1) |
| BreakSchedulers.PostponeRoundTrip | BreakTime/Services/BreakScheduler.swift:249-250 | after postponing by `m` minutes the tier has `min(activeInterval, 60m)` left, and an increment of `e` makes it due iff `e` reaches that |
| BreakSchedulers.BreakScheduler.constructor | BreakTime/Services/BreakScheduler.swift:5-18 | no timer armed; the scheduler invariant holds |
| BreakSchedulers.BreakScheduler.CancelCurrentBreak | BreakTime/Services/BreakScheduler.swift:45-51 | timers stop, the phase becomes idle, the overlay state goes, and the chat status is ended |
| BreakSchedulers.BreakScheduler.HandleTierThresholdReached | BreakTime/Services/BreakScheduler.swift:53-70 | under an exception only the id is queued (logged "deferred" only on first insertion); otherwise a postponed tier changes nothing and any other tier starts a warning at `now` |
| BreakSchedulers.BreakScheduler.HandleExceptionEnded | BreakTime/Services/BreakScheduler.swift:72-86 | nothing happens on an empty queue; otherwise the queue is cleared and a warning starts for the longest queued tier, if any is configured |
| BreakSchedulers.BreakScheduler.StartWarning | BreakTime/Services/BreakScheduler.swift:88-95 | the phase becomes `warning(tier, now)` and the overlay timers stop |
| BreakSchedulers.BreakScheduler.OnWarningDeadline | BreakTime/Services/BreakScheduler.swift:117-123 | the deadline starts the overlay iff the phase is still a warning for the same tier id; otherwise nothing changes |
| BreakSchedulers.BreakScheduler.StartBreakImmediately | BreakTime/Services/BreakScheduler.swift:128-133 | goes straight to the overlay |
| BreakSchedulers.BreakScheduler.StartOverlay | BreakTime/Services/BreakScheduler.swift:144-159 | phase `overlay(tier)`, a fresh overlay state, "started" appended to the log, the grace poll armed, and the chat status set when a token exists |
| BreakSchedulers.BreakScheduler.OnGracePoll | BreakTime/Services/BreakScheduler.swift:164-184 | only while the grace poll runs with a grace-period state: idle ≥ 5 ends grace and starts the countdown, idle < 1 refreshes `lastInputTime`, anything between changes nothing |
| BreakSchedulers.BreakScheduler.OnCountdownStep | BreakTime/Services/BreakScheduler.swift:190-201 | takes exactly one second off; at zero or below the break completes |
| BreakSchedulers.BreakScheduler.CompleteBreak | BreakTime/Services/BreakScheduler.swift:205-221 | with no overlay state nothing happens; otherwise "completed" is logged, the covered tiers are reset, the phase goes idle, and a lock is requested iff it was asked for |
| BreakSchedulers.BreakScheduler.SkipBreak | BreakTime/Services/BreakScheduler.swift:223-239 | as complete, logged as "skipped" with the reason "user" |
| BreakSchedulers.BreakScheduler.PostponeBreak | BreakTime/Services/BreakScheduler.swift:241-258 | with no overlay state nothing happens; otherwise only the tier's counter is rewritten to `max(0, interval - 60m)` (no cascade), "<m> min" is logged, and the phase goes idle |
| BreakSchedulers.BreakScheduler.HandleLockAfterBreakToggled | BreakTime/Services/BreakScheduler.swift:285-288 | sets `lockAfterBreak` to true on an existing overlay state and never clears it |
| BreakPhases.NewOverlayState | BreakTime/Models/BreakPhase.swift:16-22 | the new state has the tier, the full break duration remaining, grace on, lock off, and `lastInputTime = now` |
| BreakPhases.PhaseTier | BreakTime/Models/BreakPhase.swift:3-7 | the tier carried by a warning or an overlay phase |
| BreakPhases.WarningEqualityIncludesStart | BreakTime/Models/BreakPhase.swift:3-5 | two warnings for the same tier are equal iff their start times are |
| BreakPhases.PhaseCasesExclusive | BreakTime/Models/BreakPhase.swift:3-7 | every phase is exactly one of idle, warning and overlay |
| PauseStates.IsPausedCases | BreakTime/Models/PauseState.swift:8-14 | never paused when not paused, always when paused indefinitely, and paused until `d` iff `now < d` |
| PauseStates.RemainingSeconds | BreakTime/Models/PauseState.swift:16-24 | a present remaining time is positive |
| PauseStates.RemainingSecondsCases | BreakTime/Models/PauseState.swift:16-24 | the remaining time exists iff paused until a future `d`, and then is `d - now` |
| PauseStates.RemainingImpliesPaused | BreakTime/Models/PauseState.swift:8-24 | a present remaining time implies paused |
| AppStates.IsPostponedSpec | BreakTime/Models/AppState.swift:96-99 | a tier is postponed iff its entry exists and `now < until`; without an entry it never is, and once lapsed it stays lapsed at every later time |
| AppStates.IsPostponedAfterRemoval | BreakTime/Models/AppState.swift:52-54 | removing ids from the postponements lifts exactly those tiers' postponements and leaves every other tier's as it was |
| ExceptionMonitors.AppExceptionActiveSpec | BreakTime/Services/ExceptionMonitor.swift:140-152 | a focused rule holds iff the frontmost app has the rule's bundle id, an opened rule iff some running app has it; only the bundle id and mode matter; with the frontmost app running, focused implies opened |
| PauseStates.AutoResumeUnreachable | BreakTime/Services/TimerEngine.swift:55-59 | on one clock reading, a paused state is never an expired timed pause, so the auto-resume branch cannot run with one clock reading per tick |
| ExceptionMonitors.ScreenSharingSpellings | BreakTime/Services/ExceptionMonitor.swift:123-138 | screen sharing is active iff a running app has either spelling of the screen-sharing bundle id |
| ExceptionMonitors.FirstMatchingRuleSpec | BreakTime/Services/ExceptionMonitor.swift:49-55 | the rule loop finds nothing iff no rule matches, and otherwise the first matching rule in list order |
| ExceptionMonitors.EvaluateSpec | BreakTime/Services/ExceptionMonitor.swift:34-55 | active iff microphone, screen sharing or a rule applies; the reason is nil iff inactive and is, by priority, "microphone", "screen sharing", or the first matching rule's "<app> (<mode>)" |
| ExceptionMonitors.Edge | BreakTime/Services/ExceptionMonitor.swift:62-66 | an edge is reported iff the state changed, and carries the new state |
| ExceptionMonitors.ExceptionMonitor.Poll | BreakTime/Services/ExceptionMonitor.swift:31-69 | writes the evaluated flag and reason to the session and the monitor, returns the edge against the previous state, and remembers the new state |
| ExceptionMonitors.ExceptionMonitor.constructor | BreakTime/Services/ExceptionMonitor.swift:9-12 | starts inactive with no reason |
| ExceptionRules.ModeName | BreakTime/Models/ExceptionRule.swift:3-6 | the trigger mode's raw name is "focused" or "opened" |
| AppDelegates.InterruptedTier | BreakTime/App/AppDelegate.swift:100-105 | the tier id of a warning or overlay phase; none when idle |
| AppDelegates.PauseFor | BreakTime/App/AppDelegate.swift:42-46 | a duration gives `pausedUntil(now + d)`, none gives `pausedIndefinitely` |
| AppDelegates.PauseForSpec | BreakTime/App/AppDelegate.swift:40-48 | an indefinite pause stays paused; a timed pause is paused exactly until `now + d`, with `now + d - later` remaining |
| AppDelegates.AppDelegate.constructor | BreakTime/App/AppDelegate.swift:5-23 | the components share one session; counters are initialised for the config, the chat token is normalised, idle, not paused |
| AppDelegates.AppDelegate.OnPause | BreakTime/App/AppDelegate.swift:40-48 | the pause state becomes `PauseFor(duration, now)` |
| AppDelegates.AppDelegate.OnResume | BreakTime/App/AppDelegate.swift:50-54 | the pause state becomes not paused |
| AppDelegates.AppDelegate.OnTakeBreakNow | BreakTime/App/AppDelegate.swift:56-58 | straight to the overlay, bypassing exception and postponement checks: the whole `OverlayStarted` state (fresh overlay state, grace poll armed, "started" logged, chat-status flags set when a token exists) |
| AppDelegates.AppDelegate.OnTestBreak | BreakTime/App/AppDelegate.swift:60-62 | straight to a warning at `now`, bypassing exception and postponement checks |
| AppDelegates.AppDelegate.OnExceptionStateChanged | BreakTime/App/AppDelegate.swift:96-111 | a start during warning or overlay queues that tier's id and cancels to idle, ending the chat status (`didSetStatus` cleared when a token exists); a start while idle changes nothing; an end leaves an empty queue and the phase alone, and otherwise replays the queue as `handleExceptionEnded` does |
| AppDelegates.AppDelegate.OnConfigChanged | BreakTime/App/AppDelegate.swift:122-131 | a non-idle phase is cancelled first (the chat status ended with it); an idle phase keeps its overlay state, timer and chat-status flags; then the counters are re-initialised for the tiers and the chat token is updated |
| AppDelegates.AppDelegate.OnTick | BreakTime/App/AppDelegate.swift:69-73 | one tick of the engine, with a fired tier passed to the scheduler; the invariant holds and `lastTickTime = now` |
| AppDelegates.AppDelegate.OnExceptionPoll | BreakTime/App/AppDelegate.swift:93-111 | one poll of the monitor, with an edge routed to the exception handler; the session's flag is the evaluation's |
| Configs.TierIds | BreakTime/Models/AppState.swift:28 | the id set holds exactly the ids of the tiers |
| Configs.DefaultConfigFacts | BreakTime/Models/Config.swift:18-26 | the default: tiers `[short, long]`, idle threshold 180, keyboard, merge window 300, no rules, both automatic exceptions on, distinct tier ids |
| BreakTiers.RawName | BreakTime/Models/BreakTier.swift:4-12 | a colour's raw value is its lower-case name (3 to 6 letters) |
| BreakTiers.RawNameRoundTrip | BreakTime/Models/BreakTier.swift:4-12 | reading a raw name back gives the colour |
| BreakTiers.AllColorsComplete | BreakTime/Models/BreakTier.swift:4-12 | there are exactly eight distinct colours, and every colour is listed |
| BreakTiers.DefaultTierFacts | BreakTime/Models/BreakTier.swift:54-70 | short: 1200 s every, 15 s break, short screen; long: 3600 s, 300 s, long screen; the long break is longer, so its reset covers the short tier |
| BreakLogs.LoadEntries | BreakTime/Services/BreakLogger.swift:38-52 | a missing or undecodable log reads as empty |
| BreakLogs.AppendedSpec | BreakTime/Services/BreakLogger.swift:21-31 | after appending there are at most 1000 entries and the last is the new one; below 1000 everything is kept in order; otherwise the most recent 999 are kept, followed by the new one |
| BreakLogs.BreakLogger.Log | BreakTime/Services/BreakLogger.swift:21-31 | the stored log becomes `Appended(LoadEntries(old file), entry)` |
| SlackStatus.NormalizedToken | BreakTime/Services/SlackIntegration.swift:9-11 | an empty token is stored as nil, and any other value as given |
| SlackStatus.FormatStatusTextSpec | BreakTime/Services/SlackIntegration.swift:60-67 | the text is three words "BreakTime:", a number and a unit; the unit is "min" iff `Int(d)/60 > 0`, and the number is then those minutes, otherwise the truncated seconds |
| SlackStatus.SlackIntegration.UpdateToken | BreakTime/Services/SlackIntegration.swift:9-11 | stores the normalised token |
| SlackStatus.SlackIntegration.BreakStarted | BreakTime/Services/SlackIntegration.swift:13-20 | without a token nothing changes; with one the break is active, no status is set yet, and the request expires at `Int(now) + Int(d) + 60` |
| SlackStatus.SlackIntegration.BreakEnded | BreakTime/Services/SlackIntegration.swift:50-58 | the break is no longer active; a clear is requested, and `didSetStatus` cleared, iff a status was set and a token exists |
| SlackStatus.SlackIntegration.constructor | BreakTime/Services/SlackIntegration.swift:5-7 | no token and no status |
| SwiftText.Trunc | BreakTime/MenuBar/MenuBarController.swift:131 | `Int(x)` truncates toward zero |
| SwiftText.Quot | BreakTime/MenuBar/MenuBarController.swift:132-133 | Swift's integer `/` truncates toward zero |
| SwiftText.Rem | BreakTime/MenuBar/MenuBarController.swift:133-134 | Swift's `%` pairs with `/` (`a == b*q + r`) and takes the sign of the dividend |
| SwiftText.NatDigitsRoundTrip | BreakTime/MenuBar/MenuBarController.swift:137-139 | the decimal rendering of a natural number reads back as that number |
| SwiftText.IntTextRoundTrip | BreakTime/MenuBar/MenuBarController.swift:137-139 | `%d` of a non-negative number is a non-empty digit string that reads back as the number |
| SwiftText.Pad2RoundTrip | BreakTime/MenuBar/MenuBarController.swift:137-139 | `%02d` below 100 is exactly two digits that read back as the number |
| SwiftText.MinutesTextReadsBack | BreakTime/Views/Overlay/BreakOverlayView.swift:49 | "m:ss" splits into the minutes and two-digit seconds, and reads as `60m + s` |
| SwiftText.HoursTextReadsBack | BreakTime/MenuBar/MenuBarController.swift:137 | "h:mm:ss" splits into three groups and reads as `3600h + 60m + s` |
| MenuBar.TimerDisplayParts | BreakTime/MenuBar/MenuBarController.swift:131-134 | for a non-negative total, `3600h + 60m + s == total` with `m, s < 60`, and `h > 0` iff the total is at least 3600 |
| MenuBar.FormatTimerDisplayRoundTrip | BreakTime/MenuBar/MenuBarController.swift:130-141 | three groups from an hour on and two below; later groups are two digits below 60; read back in base 60 they give `Int(seconds)` |
| OverlayView.FormatTimeRoundTrip | BreakTime/Views/Overlay/BreakOverlayView.swift:45-50 | "m:ss" with two-digit seconds below 60, reading back as `max(0, Int(seconds))` |
| OverlayView.FormatTimeBelowOneSecond | BreakTime/Views/Overlay/BreakOverlayView.swift:46 | anything below one second, negative included, renders as "0:00" |
| OverlayView.FormatTimeOneHour | BreakTime/Views/Overlay/BreakOverlayView.swift:47-49 | minutes are not capped: 3600 seconds renders as "60:00" |
| TiersSettings.ShortDurationReadsBack | BreakTime/Views/Settings/BreakTiersSettingsView.swift:107 | "Xm" reads back as X minutes |
| TiersSettings.LongDurationReadsBack | BreakTime/Views/Settings/BreakTiersSettingsView.swift:105 | "Xh Ym" reads back as `60X + Y` minutes |
| TiersSettings.FormatDurationReadsBack | BreakTime/Views/Settings/BreakTiersSettingsView.swift:102-108 | `formatDuration` reads back as `Int(seconds)/60` minutes, and uses the hours form iff that is at least 60 (with minutes below 60) |
| TiersSettings.NewTier | BreakTime/Views/Settings/BreakTiersSettingsView.swift:75-82 | the added tier: "New Break", blue, 1800 s interval, 30 s break, short screen, with the given id |
| TiersSettings.WithoutIdMembers | BreakTime/Views/Settings/BreakTiersSettingsView.swift:91 | `removeAll { $0.id == id }` keeps exactly the tiers with another id and never grows the list |
| TiersSettings.WithoutIdSpec | BreakTime/Views/Settings/BreakTiersSettingsView.swift:91 | the id set loses exactly `id`, and unique ids stay unique |
| TiersSettings.WithoutIdUnique | BreakTime/Views/Settings/BreakTiersSettingsView.swift:91 | removing by id keeps ids unique |
| TiersSettings.FirstId | BreakTime/Views/Settings/BreakTiersSettingsView.swift:93 | `tiers.first?.id` is nil iff there are no tiers |
| TiersSettings.AddedTierCounters | BreakTime/Views/Settings/BreakTiersSettingsView.swift:83-84 | after an add, the new id's counter is 0, the counters cover the old ids and the new one, and old counters are kept |
| TiersSettings.DeletedTierCounters | BreakTime/Views/Settings/BreakTiersSettingsView.swift:91-92 | after a delete, the removed id has no counter, the rest cover exactly the remaining ids, and kept counters are unchanged |
| TiersSettings.TiersPane.constructor | BreakTime/Views/Settings/BreakTiersSettingsView.swift:67-71 | the selection starts at the first tier's id |
| TiersSettings.TiersPane.AddTier | BreakTime/Views/Settings/BreakTiersSettingsView.swift:74-87 | appends exactly one new tier, re-initialises the counters, and selects the new id |
| TiersSettings.TiersPane.DeleteTier | BreakTime/Views/Settings/BreakTiersSettingsView.swift:89-95 | with no selection nothing changes; otherwise the tiers with that id go, the counters are re-initialised, and the first remaining tier (or none) is selected |
| TierEditor.WithUnit | BreakTime/Views/Settings/TierEditorView.swift:63-71 | after choosing a unit the picker reads that unit, and choosing the unit already shown changes nothing (60 s on switching to minutes, 30 s on switching to seconds) |
| TierEditor.WithUnitIdempotent | BreakTime/Views/Settings/TierEditorView.swift:65-70 | choosing a unit twice is the same as choosing it once |
| TierEditor.IntervalBindingRoundTrip | BreakTime/Views/Settings/TierEditorView.swift:28-36 | the minute binding stores `minutes * 60` and reads it back; the stepper range 1–480 gives 60 s to 8 h |
| TierEditor.DurationBindingRoundTrip | BreakTime/Views/Settings/TierEditorView.swift:42-59 | within each stepper's range the unit does not change and the stepper reads back what it set; writing back the value read changes nothing |
| ExceptionsSettings.LastPathComponent | BreakTime/Views/Settings/ExceptionsSettingsView.swift:88 | the final path component, or "/" for the root |
| ExceptionsSettings.LastDot | BreakTime/Views/Settings/ExceptionsSettingsView.swift:89 | the index of the last '.' of a name, or none when it has no '.' |
| ExceptionsSettings.WithoutExtensionSpec | BreakTime/Views/Settings/ExceptionsSettingsView.swift:89 | removing the extension leaves a non-empty prefix ending before a '.' whose extension has no '.'; a name without '.' is unchanged |
| ExceptionsSettings.PickedBundleId | BreakTime/Views/Settings/ExceptionsSettingsView.swift:87-88 | the bundle's own id, falling back to the last path component |
| ExceptionsSettings.WithPickedRuleSpec | BreakTime/Views/Settings/ExceptionsSettingsView.swift:93-102 | a pick keeps bundle ids unique, the picked id is present afterwards, and the list grows by the rule at its end iff the id was new |
| ExceptionsSettings.RemovedAtSpec | BreakTime/Views/Settings/ExceptionsSettingsView.swift:57 | `remove(at: i)` deletes exactly that rule and keeps the others in order |
| ExceptionsSettings.WithTriggerModeSpec | BreakTime/Views/Settings/ExceptionsSettingsView.swift:44-49 | the picker changes that rule's mode and nothing else |
| ExceptionsSettings.ExceptionsPane.RemoveRule | BreakTime/Views/Settings/ExceptionsSettingsView.swift:56-59 | the rule list becomes `RemovedAt(rules, index)`; nothing else in the config changes |
| ExceptionsSettings.ExceptionsPane.SetTriggerMode | BreakTime/Views/Settings/ExceptionsSettingsView.swift:44-49 | the rule list becomes `WithTriggerMode(rules, index, mode)` |
| ExceptionsSettings.ExceptionsPane.PickApp | BreakTime/Views/Settings/ExceptionsSettingsView.swift:77-106 | a cancelled panel changes nothing; otherwise an "opened" rule for the picked app is appended unless its bundle id is already present |

## Left out

- Timers, dispatch deadlines, `Task`s, notification observers and weak references. Each callback is an event method taking `now` (and the idle time where it is queried). A cancelled `Timer` is the `overlayTimer` field going back to `NoTimer`.
- The warning deadline is not cancellable in the app, so it is not state here. Only its guard is modelled (`OnWarningDeadline`). `graceTimer` is never scheduled in the app and has no counterpart.
- UUIDs are natural numbers (`TierId`, rule ids). Fresh ids are parameters (`newId`, `newRuleId`). The default tiers have the fixed ids 1 and 2. Log entry ids are not modelled.
- Idle time (CGEventSource), microphone use (CoreAudio), and the frontmost and running applications (NSWorkspace) are inputs. The permission check is not modelled.
- The warning opacity ramp, sleep prevention, windows, menus, the status item and the SwiftUI views beyond the named bindings are not modelled.
- In the tier editor, only the interval and duration bindings and the unit picker are modelled. The name, colour and screen-type controls are not.
- Persistence: the config file, and the log file's encoding, directory creation and save failures. The log file is a value, `Missing`, `Unreadable` or `Stored`.
- The settings panes' `saveConfig`, and the `configChanged` notification they post. The app's reaction to it is `AppDelegates.AppDelegate.OnConfigChanged`.
- The Slack HTTP calls and their detached tasks: reading the current status, the in-flight flag update and the clear request's delivery. `BreakStarted` returns the request it would send; `BreakEnded` says whether a clear is requested.
- The screen lock is a returned `locked` flag.
- A picked application's bundle id is an input. A file location is its list of path components. Foundation's `deletingPathExtension` is taken as "strip from the last '.', unless the '.' starts the name"; its other special cases are not modelled.
- `AppStates.SortByRemainingSpec`: Swift's `sorted` is not documented as stable. The model uses a stable insertion sort, so ties keep configuration order.
- Each event takes one `now`. The app reads `Date()` separately in `tick` (`TimerEngine.swift:47`, `:58`), in `isPaused` (`PauseState.swift:11`) and in `isPostponed` (`AppState.swift:98`). So an expiry between two reads in one tick is not modelled: a timed pause that ends between the `isPaused` test and the auto-resume test, which the app turns into `.notPaused`, is one such case.
- `Double` arithmetic is modelled as exact `real`s. Rounding, and `Int(x)` trapping on infinite or NaN values, are not captured.
- `TimerEngines.TickKeepsCountersNonNegative`: assumes a monotone clock (`lastTick <= now`). The app does not clamp a negative elapsed time.
- `AppDelegates.AppDelegate.OnTick` and `AppDelegates.AppDelegate.OnExceptionPoll` state only the invariant and the state they certainly set. Their effect is the composition of `Tick` with `HandleTierThresholdReached`, and of `Poll` with `OnExceptionStateChanged`, whose contracts carry it.
- `TimerEngines.MergeTarget` is a function: its loop only searches and updates nothing.
