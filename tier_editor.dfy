/**
 * The tier editor's timing controls.  The active interval is edited in
 * minutes and stored in seconds; the break duration is shown in minutes
 * from 60 seconds on and in seconds below, and a unit picker switches
 * between the two by snapping the duration to a value of the new unit.
 */
module TierEditor {

  /** The active-interval stepper's range and step, in minutes. */
  const IntervalMinutesMin: real := 1.0
  const IntervalMinutesMax: real := 480.0
  const IntervalMinutesStep: real := 5.0

  /** The break-duration stepper in minutes: 1 to 60 in steps of 1. */
  const DurationMinutesMin: real := 1.0
  const DurationMinutesMax: real := 60.0

  /** The break-duration stepper in seconds: 5 to 55 in steps of 5. */
  const DurationSecondsMin: real := 5.0
  const DurationSecondsMax: real := 55.0

  /** The unit picker's reading: minutes exactly when the duration is a minute or more. */
  predicate IsMinutesUnit(breakDuration: real) {
    breakDuration >= 60.0
  }

  /**
   * The unit picker's setter: switching to minutes below a minute snaps to
   * 60 seconds, switching to seconds from a minute on snaps to 30 seconds,
   * and any other choice keeps the duration.  The picker then reads back
   * the unit just chosen, and choosing the unit already shown changes
   * nothing.
   */
  function WithUnit(isMinutes: bool, breakDuration: real): (d: real)
    ensures IsMinutesUnit(d) == isMinutes
    ensures isMinutes == IsMinutesUnit(breakDuration) ==> d == breakDuration
  {
    if isMinutes && breakDuration < 60.0 then 60.0
    else if !isMinutes && breakDuration >= 60.0 then 30.0
    else breakDuration
  }

  /** Choosing a unit twice is the same as choosing it once. */
  lemma WithUnitIdempotent(isMinutes: bool, breakDuration: real)
    ensures WithUnit(isMinutes, WithUnit(isMinutes, breakDuration)) == WithUnit(isMinutes, breakDuration)
  {
  }

  /** The active-interval stepper's value: the interval in minutes. */
  function IntervalMinutes(activeInterval: real): real {
    activeInterval / 60.0
  }

  /** The active-interval stepper's setter: the minute value times 60. */
  function IntervalFromMinutes(minutes: real): real {
    minutes * 60.0
  }

  /**
   * The interval binding is a bijection: storing a stepped value reads it
   * back, re-storing the value read leaves the interval unchanged, and the
   * stepper's range is 60 seconds to 8 hours.
   */
  lemma IntervalBindingRoundTrip(minutes: real, activeInterval: real)
    ensures IntervalMinutes(IntervalFromMinutes(minutes)) == minutes
    ensures IntervalFromMinutes(IntervalMinutes(activeInterval)) == activeInterval
    ensures IntervalMinutesMin <= minutes <= IntervalMinutesMax ==>
      60.0 <= IntervalFromMinutes(minutes) <= 28800.0
  {
  }

  /** The break-duration stepper's value: minutes in the minute unit, seconds otherwise. */
  function DurationStepperValue(breakDuration: real): real {
    if IsMinutesUnit(breakDuration) then breakDuration / 60.0 else breakDuration
  }

  /** The break-duration stepper's setter, for the stepper the current unit shows. */
  function DurationFromStepper(breakDuration: real, value: real): real {
    if IsMinutesUnit(breakDuration) then value * 60.0 else value
  }

  /**
   * Within each stepper's range the unit does not change when the stepper
   * is used, and the stepper then reads back the value it set; writing back
   * the value read changes nothing.
   */
  lemma DurationBindingRoundTrip(breakDuration: real, value: real)
    ensures DurationFromStepper(breakDuration, DurationStepperValue(breakDuration)) == breakDuration
    ensures IsMinutesUnit(breakDuration) && DurationMinutesMin <= value <= DurationMinutesMax ==>
      var d := DurationFromStepper(breakDuration, value);
      IsMinutesUnit(d) && DurationStepperValue(d) == value
    ensures !IsMinutesUnit(breakDuration) && DurationSecondsMin <= value <= DurationSecondsMax ==>
      var d := DurationFromStepper(breakDuration, value);
      !IsMinutesUnit(d) && DurationStepperValue(d) == value
  {
  }
}
