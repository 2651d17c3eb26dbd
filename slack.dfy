/**
 * The chat-status integration's own state.  The network requests run in
 * detached tasks; here each synchronous call returns the request it would
 * start instead.
 */
module SlackStatus {

  import opened Wrappers
  import opened SwiftText

  /** A set-status request: the token, the status text, the emoji and the expiration (epoch seconds). */
  datatype StatusRequest = StatusRequest(token: string, text: string, emoji: string, expiration: int)

  /** `updateToken`: an empty token is stored as no token; anything else as given. */
  function NormalizedToken(t: Option<string>): (r: Option<string>)
    ensures r != Some("")
    ensures t != Some("") ==> r == t
  {
    if t == Some("") then None else t
  }

  /** `formatStatusText`: whole minutes when there is at least one, otherwise whole seconds. */
  function FormatStatusText(breakDuration: real): string {
    var minutes := Quot(Trunc(breakDuration), 60);
    if minutes > 0 then "BreakTime: " + IntText(minutes) + " min"
    else "BreakTime: " + IntText(Trunc(breakDuration)) + " sec"
  }

  lemma IntTextHasNoSpace(i: int)
    ensures ' ' !in IntText(i)
  {
    if i < 0 {
      assert IntText(i) == ['-'] + NatDigits(-i);
      DigitsHaveNoSeparator(NatDigits(-i), ' ');
    } else {
      DigitsHaveNoSeparator(NatDigits(i), ' ');
    }
  }

  /** "BreakTime: <n> <unit>" splits at spaces into its three words. */
  lemma StatusWords(n: int, unit: string)
    requires ' ' !in unit
    ensures Split("BreakTime: " + IntText(n) + " " + unit, ' ') == ["BreakTime:", IntText(n), unit]
  {
    var head := "BreakTime:";
    var num := IntText(n);
    var tail := num + [' '] + unit;
    assert "BreakTime: " + num + " " + unit == head + [' '] + tail;
    assert ' ' !in head;
    IntTextHasNoSpace(n);
    SplitNoSeparator(unit, ' ');
    SplitAt(num, ' ', unit);
    assert Split(tail, ' ') == [num, unit];
    SplitAt(head, ' ', tail);
  }

  /**
   * The status text reads back as three words: "BreakTime:", a number and a
   * unit.  The unit is "min" exactly when the truncated duration has a whole
   * minute, and then the number is the whole minutes; otherwise it is "sec"
   * and the number is the truncated seconds.
   */
  lemma FormatStatusTextSpec(breakDuration: real)
    ensures var parts := Split(FormatStatusText(breakDuration), ' ');
      var minutes := Quot(Trunc(breakDuration), 60);
      && |parts| == 3 && parts[0] == "BreakTime:"
      && (parts[2] == "min" <==> minutes > 0)
      && (minutes > 0 ==> parts[1] == IntText(minutes) && DigitsValue(parts[1]) == minutes)
      && (minutes <= 0 ==> parts[2] == "sec" && parts[1] == IntText(Trunc(breakDuration)))
  {
    var minutes := Quot(Trunc(breakDuration), 60);
    if minutes > 0 {
      StatusWords(minutes, "min");
      assert FormatStatusText(breakDuration) == "BreakTime: " + IntText(minutes) + " " + "min";
      IntTextRoundTrip(minutes);
    } else {
      StatusWords(Trunc(breakDuration), "sec");
      assert FormatStatusText(breakDuration) == "BreakTime: " + IntText(Trunc(breakDuration)) + " " + "sec";
      assert "sec"[0] != "min"[0];
    }
  }

  class SlackIntegration {
    var token: Option<string>
    var didSetStatus: bool
    var breakIsActive: bool

    constructor ()
      ensures token == None && !didSetStatus && !breakIsActive
    {
      token := None;
      didSetStatus := false;
      breakIsActive := false;
    }

    method UpdateToken(t: Option<string>)
      modifies this`token
      ensures token == NormalizedToken(t)
    {
      token := if t == Some("") then None else t;
    }

    /**
     * `breakStarted`: with no token nothing changes; with one, the break is
     * marked active, the status as not yet set, and a status request expiring
     * a minute after the break's end is returned.
     */
    method BreakStarted(breakDuration: real, now: real) returns (request: Option<StatusRequest>)
      modifies this`breakIsActive, this`didSetStatus
      ensures old(token).None? ==> request == None && unchanged(this)
      ensures old(token).Some? ==>
        && breakIsActive && !didSetStatus
        && request == Some(StatusRequest(token.value, FormatStatusText(breakDuration), ":coffee:",
                                         Trunc(now) + Trunc(breakDuration) + 60))
    {
      if token.None? {
        return None;
      }
      breakIsActive := true;
      didSetStatus := false;
      var statusText := FormatStatusText(breakDuration);
      var expiration := Trunc(now) + Trunc(breakDuration) + 60;
      request := Some(StatusRequest(token.value, statusText, ":coffee:", expiration));
    }

    /**
     * `breakEnded`: the break is always marked inactive; the status is cleared
     * (and a clear request issued) only when it was set and a token exists.
     */
    method BreakEnded() returns (clearRequested: bool)
      modifies this`breakIsActive, this`didSetStatus
      ensures !breakIsActive
      ensures clearRequested <==> old(didSetStatus) && token.Some?
      ensures didSetStatus == (old(didSetStatus) && !clearRequested)
    {
      breakIsActive := false;
      if !didSetStatus || token.None? {
        return false;
      }
      didSetStatus := false;
      clearRequested := true;
    }
  }
}
