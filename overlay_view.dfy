/** The break overlay's remaining-time text. */
module OverlayView {

  import opened SwiftText

  /** `formatTime`: "m:ss" of the truncated seconds, clamped at zero; the minutes are not capped. */
  function FormatTime(seconds: real): string {
    var t := Trunc(seconds);
    var totalSeconds := if t > 0 then t else 0;
    var m := Quot(totalSeconds, 60);
    var s := Rem(totalSeconds, 60);
    IntText(m) + ":" + Pad2(s)
  }

  /**
   * The text reads back: split at ':' it is minutes then two-digit seconds
   * below 60, and read as a base-60 number it gives `max(0, Int(seconds))`.
   */
  lemma FormatTimeRoundTrip(seconds: real)
    ensures var parts := Split(FormatTime(seconds), ':');
      && |parts| == 2
      && AllDigits(parts[0]) && AllDigits(parts[1])
      && |parts[1]| == 2 && DigitsValue(parts[1]) < 60
      && ClockValue(parts) == (if Trunc(seconds) > 0 then Trunc(seconds) else 0)
  {
    var t := Trunc(seconds);
    var total := if t > 0 then t else 0;
    MinutesTextReadsBack(Quot(total, 60), Rem(total, 60));
  }

  /** Anything under one second, negative values included, shows as "0:00". */
  lemma FormatTimeBelowOneSecond(seconds: real)
    requires seconds < 1.0
    ensures FormatTime(seconds) == "0:00"
  {
    assert NatDigits(0) == "0";
  }

  /** An hour shows as sixty minutes. */
  lemma FormatTimeOneHour()
    ensures FormatTime(3600.0) == "60:00"
  {
    assert Trunc(3600.0) == 3600;
    QuotRemUnique(3600, 60, 60, 0);
    assert NatDigits(60) == NatDigits(6) + [DigitChar(0)];
  }
}
