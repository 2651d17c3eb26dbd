/** The pause state of the timers, queried against the current time `now`. */
module PauseStates {

  import opened Wrappers

  datatype PauseState = NotPaused | PausedUntil(until: real) | PausedIndefinitely

  /** Whether counting is paused at time `now`. */
  predicate IsPaused(p: PauseState, now: real) {
    match p
    case NotPaused => false
    case PausedUntil(d) => now < d
    case PausedIndefinitely => true
  }

  /** Seconds left of a timed pause; nil for the other states and for an expired pause. */
  function RemainingSeconds(p: PauseState, now: real): (r: Option<real>)
    ensures r.Some? ==> r.value > 0.0
  {
    match p
    case NotPaused => None
    case PausedUntil(d) =>
      var remaining := d - now;
      if remaining > 0.0 then Some(remaining) else None
    case PausedIndefinitely => None
  }

  /** Not paused is never paused; paused indefinitely always is; a timed pause holds strictly before its end. */
  lemma IsPausedCases(p: PauseState, now: real)
    ensures p.NotPaused? ==> !IsPaused(p, now)
    ensures p.PausedIndefinitely? ==> IsPaused(p, now)
    ensures p.PausedUntil? ==> (IsPaused(p, now) <==> now < p.until)
  {
  }

  /** Remaining time exists only for an unexpired timed pause, and then it is the time to its end. */
  lemma RemainingSecondsCases(p: PauseState, now: real)
    ensures RemainingSeconds(p, now).Some? <==> p.PausedUntil? && now < p.until
    ensures RemainingSeconds(p, now).Some? ==> RemainingSeconds(p, now).value == p.until - now
  {
  }

  /** A remaining time is only ever reported while paused. */
  lemma RemainingImpliesPaused(p: PauseState, now: real)
    requires RemainingSeconds(p, now).Some?
    ensures IsPaused(p, now)
  {
  }

  /**
   * The timer tick's auto-resume test (a timed pause whose end has passed)
   * can never hold on the same `now` as a positive `IsPaused` answer.
   */
  lemma AutoResumeUnreachable(p: PauseState, now: real)
    requires IsPaused(p, now)
    ensures !(p.PausedUntil? && now >= p.until)
  {
  }
}
