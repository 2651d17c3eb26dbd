/** The menu-bar countdown text. */
module MenuBar {

  import opened SwiftText

  /** `formatTimerDisplay`: "h:mm:ss" from one hour on, "m:ss" below, from the truncated seconds. */
  function FormatTimerDisplay(seconds: real): string {
    var totalSeconds := Trunc(seconds);
    var h := Quot(totalSeconds, 3600);
    var m := Quot(Rem(totalSeconds, 3600), 60);
    var s := Rem(totalSeconds, 60);
    if h > 0 then IntText(h) + ":" + Pad2(m) + ":" + Pad2(s)
    else IntText(m) + ":" + Pad2(s)
  }

  /**
   * For a non-negative total the hours, minutes and seconds recompose the
   * total, with minutes and seconds below 60; the hours field is used
   * exactly from 3600 seconds on.
   */
  lemma TimerDisplayParts(total: int)
    requires total >= 0
    ensures var h := Quot(total, 3600);
      var m := Quot(Rem(total, 3600), 60);
      var s := Rem(total, 60);
      && h * 3600 + m * 60 + s == total
      && 0 <= m < 60 && 0 <= s < 60
      && (h > 0 <==> total >= 3600)
  {
    var h := Quot(total, 3600);
    var r := Rem(total, 3600);
    var m := Quot(r, 60);
    var s0 := Rem(r, 60);
    assert total == 60 * (60 * h + m) + s0;
    QuotRemUnique(total, 60, 60 * h + m, s0);
  }

  /**
   * The display reads back: split at ':' it gives three digit groups from an
   * hour on and two below, every group after the first is two digits below
   * 60, and the groups read as a base-60 number give the truncated seconds.
   */
  lemma FormatTimerDisplayRoundTrip(seconds: real)
    requires seconds >= 0.0
    ensures var parts := Split(FormatTimerDisplay(seconds), ':');
      && |parts| == (if Trunc(seconds) >= 3600 then 3 else 2)
      && (forall i :: 0 <= i < |parts| ==> AllDigits(parts[i]))
      && (forall i :: 1 <= i < |parts| ==> |parts[i]| == 2 && DigitsValue(parts[i]) < 60)
      && ClockValue(parts) == Trunc(seconds)
  {
    var total := Trunc(seconds);
    var h := Quot(total, 3600);
    var m := Quot(Rem(total, 3600), 60);
    var s := Rem(total, 60);
    TimerDisplayParts(total);
    if h > 0 {
      HoursTextReadsBack(h, m, s);
    } else {
      MinutesTextReadsBack(m, s);
    }
  }
}
