/**
 * The exception monitor: every poll folds the microphone, screen-sharing and
 * per-application signals into one "exceptions active" flag and a reason,
 * writes both into the session state and reports an edge when the flag
 * changes.  The operating-system queries are inputs: whether the microphone
 * is in use, and a snapshot of the workspace.
 */
module ExceptionMonitors {

  import opened Wrappers
  import opened ExceptionRules
  import opened Configs
  import opened AppStates

  /**
   * What the workspace reports: the bundle id of the frontmost application
   * (none when there is no frontmost application or it has no bundle id)
   * and the bundle id of each running application.
   */
  datatype Workspace = Workspace(frontmost: Option<string>, running: seq<Option<string>>)

  /** Whether some running application has bundle id `id`. */
  predicate IsRunning(ws: Workspace, id: string) {
    exists i :: 0 <= i < |ws.running| && ws.running[i] == Some(id)
  }

  /** `isAppExceptionActive`: a focused rule needs its application frontmost, an opened rule needs it running. */
  predicate IsAppExceptionActive(rule: ExceptionRule, ws: Workspace) {
    match rule.triggerMode
    case Focused => ws.frontmost == Some(rule.bundleIdentifier)
    case Opened => IsRunning(ws, rule.bundleIdentifier)
  }

  /**
   * A focused rule holds iff the frontmost application has the rule's
   * bundle id, an opened rule iff some running application has it; the
   * outcome depends on the bundle id and the mode alone, and when the
   * frontmost application is among the running ones, a rule that holds as
   * focused also holds as opened.
   */
  lemma AppExceptionActiveSpec(rule: ExceptionRule, ws: Workspace)
    ensures IsAppExceptionActive(rule, ws) <==>
      || (rule.triggerMode == Focused && ws.frontmost == Some(rule.bundleIdentifier))
      || (rule.triggerMode == Opened &&
          exists i :: 0 <= i < |ws.running| && ws.running[i] == Some(rule.bundleIdentifier))
    ensures forall other: ExceptionRule ::
      other.bundleIdentifier == rule.bundleIdentifier && other.triggerMode == rule.triggerMode ==>
        IsAppExceptionActive(other, ws) == IsAppExceptionActive(rule, ws)
    ensures ws.frontmost.Some? && ws.frontmost in ws.running && IsAppExceptionActive(rule.(triggerMode := Focused), ws) ==>
      IsAppExceptionActive(rule.(triggerMode := Opened), ws)
  {
  }

  /** The two bundle ids of the system's screen-sharing application. */
  const ScreenSharingIds: set<string> := {"com.apple.screensharing", "com.apple.ScreenSharing"}

  /** `isScreenSharingActive`: some running application is the screen-sharing application. */
  predicate IsScreenSharingActive(ws: Workspace) {
    exists i :: 0 <= i < |ws.running| && ws.running[i].Some? && ws.running[i].value in ScreenSharingIds
  }

  /** Screen sharing is detected under either spelling of its bundle id, and under no other id. */
  lemma ScreenSharingSpellings(ws: Workspace)
    ensures IsScreenSharingActive(ws) <==>
      IsRunning(ws, "com.apple.screensharing") || IsRunning(ws, "com.apple.ScreenSharing")
  {
    if IsScreenSharingActive(ws) {
      var i :| 0 <= i < |ws.running| && ws.running[i].Some? && ws.running[i].value in ScreenSharingIds;
      assert ws.running[i] == Some("com.apple.screensharing") || ws.running[i] == Some("com.apple.ScreenSharing");
    }
  }

  /** The reason given for a matching rule: the application's name and the trigger mode, as in "Zoom (opened)". */
  function RuleReason(rule: ExceptionRule): string {
    rule.appName + " (" + ModeName(rule.triggerMode) + ")"
  }

  /** The first rule, in list order, whose application condition holds. */
  function FirstMatchingRule(rules: seq<ExceptionRule>, ws: Workspace): Option<ExceptionRule> {
    if rules == [] then None
    else if IsAppExceptionActive(rules[0], ws) then Some(rules[0])
    else FirstMatchingRule(rules[1..], ws)
  }

  /** A matching rule is found exactly when some rule matches, and it is the first one in list order. */
  lemma {:induction false} FirstMatchingRuleSpec(rules: seq<ExceptionRule>, ws: Workspace)
    ensures FirstMatchingRule(rules, ws).None? <==> forall k :: 0 <= k < |rules| ==> !IsAppExceptionActive(rules[k], ws)
    ensures FirstMatchingRule(rules, ws).Some? ==>
      exists k :: (0 <= k < |rules| && rules[k] == FirstMatchingRule(rules, ws).value
        && IsAppExceptionActive(rules[k], ws)
        && forall j :: 0 <= j < k ==> !IsAppExceptionActive(rules[j], ws))
  {
    if rules != [] && !IsAppExceptionActive(rules[0], ws) {
      FirstMatchingRuleSpec(rules[1..], ws);
      assert forall k :: 0 < k < |rules| ==> rules[k] == rules[1..][k - 1];
      if FirstMatchingRule(rules, ws).Some? {
        var k :| 0 <= k < |rules[1..]| && rules[1..][k] == FirstMatchingRule(rules, ws).value
          && IsAppExceptionActive(rules[1..][k], ws)
          && forall j :: 0 <= j < k ==> !IsAppExceptionActive(rules[1..][j], ws);
        assert rules[k + 1] == rules[1..][k];
      }
    }
  }

  /** The outcome of one poll: the aggregated flag and its reason. */
  datatype Evaluation = Evaluation(isActive: bool, reason: Option<string>)

  /** What a poll computes from the configuration and the signals. */
  function Evaluate(config: Config, micInUse: bool, ws: Workspace): Evaluation {
    var mic := config.autoExceptionMicrophone && micInUse;
    var sharing := config.autoExceptionScreenSharing && IsScreenSharingActive(ws);
    var rule := FirstMatchingRule(config.exceptionRules, ws);
    if mic then Evaluation(true, Some("microphone"))
    else if sharing then Evaluation(true, Some("screen sharing"))
    else if rule.Some? then Evaluation(true, Some(RuleReason(rule.value)))
    else Evaluation(false, None)
  }

  /**
   * Exceptions are active iff the microphone exception is enabled and the
   * microphone is in use, or screen sharing is enabled and active, or some
   * rule matches.  The reason is nil exactly when inactive; the microphone
   * wins over screen sharing, which wins over the first matching rule.
   */
  lemma EvaluateSpec(config: Config, micInUse: bool, ws: Workspace)
    ensures var e := Evaluate(config, micInUse, ws);
      e.isActive <==>
        (config.autoExceptionMicrophone && micInUse)
        || (config.autoExceptionScreenSharing && IsScreenSharingActive(ws))
        || exists k :: 0 <= k < |config.exceptionRules| && IsAppExceptionActive(config.exceptionRules[k], ws)
    ensures var e := Evaluate(config, micInUse, ws);
      e.reason.None? <==> !e.isActive
    ensures var e := Evaluate(config, micInUse, ws);
      && (config.autoExceptionMicrophone && micInUse ==> e.reason == Some("microphone"))
      && (!(config.autoExceptionMicrophone && micInUse) && config.autoExceptionScreenSharing && IsScreenSharingActive(ws) ==>
            e.reason == Some("screen sharing"))
    ensures var e := Evaluate(config, micInUse, ws);
      !(config.autoExceptionMicrophone && micInUse) && !(config.autoExceptionScreenSharing && IsScreenSharingActive(ws))
        && e.isActive ==>
        exists k :: (0 <= k < |config.exceptionRules| && e.reason == Some(RuleReason(config.exceptionRules[k]))
          && IsAppExceptionActive(config.exceptionRules[k], ws)
          && forall j :: 0 <= j < k ==> !IsAppExceptionActive(config.exceptionRules[j], ws))
  {
    FirstMatchingRuleSpec(config.exceptionRules, ws);
  }

  /** The state-change report of a poll: `false` on a true-to-false change, `true` on false-to-true, else none. */
  function Edge(wasActive: bool, isActive: bool): (r: Option<bool>)
    ensures r.Some? <==> wasActive != isActive
    ensures r.Some? ==> r.value == isActive
  {
    if wasActive && !isActive then Some(false)
    else if !wasActive && isActive then Some(true)
    else None
  }

  class ExceptionMonitor {
    const app: AppState
    var wasExceptionActive: bool
    var activeReason: Option<string>

    /** `start(appState:)`: no exception seen yet. */
    constructor (app: AppState)
      ensures this.app == app && !wasExceptionActive && activeReason == None
    {
      this.app := app;
      wasExceptionActive := false;
      activeReason := None;
    }

    /**
     * `poll`: evaluate the signals, overwrite the session's flag and
     * reason, and report the edge against the previous poll.
     */
    method Poll(micInUse: bool, ws: Workspace) returns (edge: Option<bool>)
      modifies this, app`exceptionsActive, app`exceptionReason
      ensures var e := Evaluate(app.config, micInUse, ws);
        && app.exceptionsActive == e.isActive && app.exceptionReason == e.reason && activeReason == e.reason
        && edge == Edge(old(wasExceptionActive), e.isActive)
        && wasExceptionActive == e.isActive
    {
      var config := app.config;
      var isActive := false;
      var reason: Option<string> := None;
      if config.autoExceptionMicrophone && micInUse {
        isActive := true;
        reason := Some("microphone");
      }
      if config.autoExceptionScreenSharing && IsScreenSharingActive(ws) {
        isActive := true;
        reason := Some(reason.GetOr("screen sharing"));
      }
      ghost var beforeRules := reason;
      var rules := config.exceptionRules;
      var i := 0;
      while i < |rules|
        invariant 0 <= i <= |rules|
        invariant FirstMatchingRule(rules[i..], ws) == FirstMatchingRule(rules, ws)
        invariant reason == beforeRules && isActive == beforeRules.Some?
      {
        assert rules[i..][1..] == rules[i + 1..];
        if IsAppExceptionActive(rules[i], ws) {
          isActive := true;
          reason := Some(reason.GetOr(RuleReason(rules[i])));
          break;
        }
        i := i + 1;
      }
      assert isActive == Evaluate(config, micInUse, ws).isActive;
      app.exceptionsActive := isActive;
      app.exceptionReason := reason;
      activeReason := reason;
      if wasExceptionActive && !isActive {
        edge := Some(false);
      } else if !wasExceptionActive && isActive {
        edge := Some(true);
      } else {
        edge := None;
      }
      wasExceptionActive := isActive;
    }
  }
}
