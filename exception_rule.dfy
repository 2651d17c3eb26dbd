/** Per-application exception rules: while the named application is focused or open, breaks are deferred. */
module ExceptionRules {

  /** `focused`: the application is frontmost; `opened`: the application is running. */
  datatype TriggerMode = Focused | Opened

  /** The raw value of a trigger mode, used in exception reasons such as "Zoom (opened)". */
  function ModeName(m: TriggerMode): (name: string)
    ensures name == "focused" || name == "opened"
  {
    match m
    case Focused => "focused"
    case Opened => "opened"
  }

  /** An exception rule; `id` is the rule's own UUID. */
  datatype ExceptionRule = ExceptionRule(
    id: nat,
    bundleIdentifier: string,
    appName: string,
    triggerMode: TriggerMode
  )
}
