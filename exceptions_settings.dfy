/**
 * The exceptions settings pane: the per-application rule list, where a rule
 * is removed by its position, its trigger mode is changed in place, and an
 * application chosen in an open panel is appended as an "opened" rule unless
 * a rule for its bundle id already exists.
 */
module ExceptionsSettings {

  import opened Wrappers
  import opened ExceptionRules
  import opened Configs
  import opened AppStates

  // ---------------------------------------------------------------------
  // The chosen application's location and names

  /**
   * A file location as its path components: "/Applications/Zoom.app" is
   * ["Applications", "Zoom.app"]; the root directory has none.
   */
  type PathComponents = seq<string>

  /** `lastPathComponent`: the final component, or "/" for the root. */
  function LastPathComponent(path: PathComponents): (name: string)
    ensures path == [] ==> name == "/"
    ensures path != [] ==> name == path[|path| - 1]
  {
    if path == [] then "/" else path[|path| - 1]
  }

  /** The index of the last '.' of a name, if any. */
  function LastDot(name: string): (r: Option<nat>)
    ensures r.Some? ==>
      r.value < |name| && name[r.value] == '.' && forall k :: r.value < k < |name| ==> name[k] != '.'
    ensures r.None? ==> '.' !in name
  {
    if name == [] then None
    else if name[|name| - 1] == '.' then Some(|name| - 1)
    else LastDot(name[..|name| - 1])
  }

  /**
   * A name without its extension: everything before the last '.', unless
   * that '.' starts the name (a hidden name has no extension).
   */
  function WithoutExtension(name: string): string {
    match LastDot(name)
    case Some(i) => if i == 0 then name else name[..i]
    case None => name
  }

  /**
   * Removing the extension leaves a prefix of the name; what was removed is
   * a '.' and an extension without a '.', and a name with no '.' is left
   * as it is.
   */
  lemma WithoutExtensionSpec(name: string)
    ensures var base := WithoutExtension(name);
      && base <= name
      && (base != name ==> 0 < |base| < |name| && name[|base|] == '.' && '.' !in name[|base| + 1..])
      && ('.' !in name ==> base == name)
  {
    var base := WithoutExtension(name);
    if base != name {
      var i := LastDot(name).value;
      assert base == name[..i];
      var ext := name[i + 1..];
      forall k | 0 <= k < |ext| ensures ext[k] != '.' {
        assert ext[k] == name[i + 1 + k];
      }
    }
  }

  /** The chosen application: its location, and the bundle's own identifier when it has one. */
  datatype PickedApp = PickedApp(path: PathComponents, bundleIdentifier: Option<string>)

  /** The bundle id of a rule for the chosen application: the bundle's own, else the last path component. */
  function PickedBundleId(app: PickedApp): (id: string)
    ensures app.bundleIdentifier.Some? ==> id == app.bundleIdentifier.value
    ensures app.bundleIdentifier.None? ==> id == LastPathComponent(app.path)
  {
    app.bundleIdentifier.GetOr(LastPathComponent(app.path))
  }

  /** The display name of the chosen application: its last path component without the extension. */
  function PickedAppName(app: PickedApp): string {
    WithoutExtension(LastPathComponent(app.path))
  }

  // ---------------------------------------------------------------------
  // The rule list

  /** Whether some rule is for bundle id `id`. */
  predicate HasBundleId(rules: seq<ExceptionRule>, id: string) {
    exists i :: 0 <= i < |rules| && rules[i].bundleIdentifier == id
  }

  /** No two rules are for the same bundle id. */
  predicate UniqueBundleIds(rules: seq<ExceptionRule>) {
    forall i, j :: 0 <= i < j < |rules| ==> rules[i].bundleIdentifier != rules[j].bundleIdentifier
  }

  /** The rule list after a pick: unchanged when the bundle id is already present, else the new rule appended. */
  function WithPickedRule(rules: seq<ExceptionRule>, rule: ExceptionRule): seq<ExceptionRule> {
    if HasBundleId(rules, rule.bundleIdentifier) then rules else rules + [rule]
  }

  /**
   * A pick never duplicates a bundle id: a list of unique bundle ids stays
   * unique, the picked bundle id is present afterwards, the list grows by
   * at most the one rule at its end, and it grows exactly when the bundle
   * id was new.
   */
  lemma WithPickedRuleSpec(rules: seq<ExceptionRule>, rule: ExceptionRule)
    ensures UniqueBundleIds(rules) ==> UniqueBundleIds(WithPickedRule(rules, rule))
    ensures HasBundleId(WithPickedRule(rules, rule), rule.bundleIdentifier)
    ensures WithPickedRule(rules, rule) == rules <==> HasBundleId(rules, rule.bundleIdentifier)
    ensures WithPickedRule(rules, rule) != rules ==> WithPickedRule(rules, rule) == rules + [rule]
  {
    var r := WithPickedRule(rules, rule);
    if !HasBundleId(rules, rule.bundleIdentifier) {
      assert r[|rules|] == rule;
      assert |r| != |rules|;
    }
  }

  /** The rule list without the rule at `index`. */
  function RemovedAt(rules: seq<ExceptionRule>, index: nat): seq<ExceptionRule>
    requires index < |rules|
  {
    rules[..index] + rules[index + 1..]
  }

  /**
   * Removal at an index deletes exactly that rule: the list is one shorter,
   * the rules before it stay in place, the rules after it move down by one,
   * and unique bundle ids stay unique.
   */
  lemma RemovedAtSpec(rules: seq<ExceptionRule>, index: nat)
    requires index < |rules|
    ensures |RemovedAt(rules, index)| == |rules| - 1
    ensures forall k :: 0 <= k < index ==> RemovedAt(rules, index)[k] == rules[k]
    ensures forall k :: index <= k < |rules| - 1 ==> RemovedAt(rules, index)[k] == rules[k + 1]
    ensures UniqueBundleIds(rules) ==> UniqueBundleIds(RemovedAt(rules, index))
  {
    var r := RemovedAt(rules, index);
    if UniqueBundleIds(rules) {
      forall i, j | 0 <= i < j < |r| ensures r[i].bundleIdentifier != r[j].bundleIdentifier {
        var i' := if i < index then i else i + 1;
        var j' := if j < index then j else j + 1;
        assert r[i] == rules[i'] && r[j] == rules[j'];
      }
    }
  }

  /** The rule list with the trigger mode of the rule at `index` replaced. */
  function WithTriggerMode(rules: seq<ExceptionRule>, index: nat, mode: TriggerMode): seq<ExceptionRule>
    requires index < |rules|
  {
    rules[index := rules[index].(triggerMode := mode)]
  }

  /**
   * Changing a trigger mode changes that rule's mode and nothing else: the
   * other rules, and the changed rule's id, bundle id and name, are kept.
   */
  lemma WithTriggerModeSpec(rules: seq<ExceptionRule>, index: nat, mode: TriggerMode)
    requires index < |rules|
    ensures var r := WithTriggerMode(rules, index, mode);
      && |r| == |rules|
      && r[index].triggerMode == mode
      && r[index].id == rules[index].id
      && r[index].bundleIdentifier == rules[index].bundleIdentifier
      && r[index].appName == rules[index].appName
      && (forall k :: 0 <= k < |rules| && k != index ==> r[k] == rules[k])
      && (UniqueBundleIds(rules) ==> UniqueBundleIds(r))
  {
  }

  /** The pane, editing the session's configuration. */
  class ExceptionsPane {
    const app: AppState

    constructor (app: AppState)
      ensures this.app == app
    {
      this.app := app;
    }

    /** The remove button of the rule at `index`: that rule leaves the list. */
    method RemoveRule(index: nat)
      requires index < |app.config.exceptionRules|
      modifies app`config
      ensures app.config == old(app.config).(exceptionRules := RemovedAt(old(app.config.exceptionRules), index))
    {
      var rules := app.config.exceptionRules;
      app.config := app.config.(exceptionRules := rules[..index] + rules[index + 1..]);
    }

    /** The trigger-mode picker of the rule at `index`. */
    method SetTriggerMode(index: nat, mode: TriggerMode)
      requires index < |app.config.exceptionRules|
      modifies app`config
      ensures app.config == old(app.config).(exceptionRules := WithTriggerMode(old(app.config.exceptionRules), index, mode))
    {
      var rules := app.config.exceptionRules;
      app.config := app.config.(exceptionRules := rules[index := rules[index].(triggerMode := mode)]);
    }

    /**
     * `pickApp`: a cancelled panel changes nothing; a chosen application
     * whose bundle id already has a rule changes nothing; otherwise an
     * "opened" rule for it, with the fresh id `newRuleId`, is appended.
     */
    method PickApp(picked: Option<PickedApp>, newRuleId: nat)
      modifies app`config
      ensures picked.None? ==> app.config == old(app.config)
      ensures picked.Some? ==>
        var rule := ExceptionRule(newRuleId, PickedBundleId(picked.value), PickedAppName(picked.value), Opened);
        app.config == old(app.config).(exceptionRules := WithPickedRule(old(app.config.exceptionRules), rule))
    {
      if picked.None? {
        return;
      }
      var bundleId := PickedBundleId(picked.value);
      var appName := PickedAppName(picked.value);
      if HasBundleId(app.config.exceptionRules, bundleId) {
        return;
      }
      var rule := ExceptionRule(newRuleId, bundleId, appName, Opened);
      app.config := app.config.(exceptionRules := app.config.exceptionRules + [rule]);
    }
  }
}
