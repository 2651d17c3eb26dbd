/**
 * The pieces of Swift's numeric semantics and string formatting that the
 * formatters rely on: `Int(_:)` on a Double truncates toward zero, `/` and `%`
 * on Int truncate toward zero, and `"\(n)"`, `%d` and `%02d` render decimal
 * text.  Dafny's own `/` and `%` are Euclidean, so the Swift operators are
 * written out here.  The parsing half (digit strings and splitting at a
 * separator) is the partner used to state round trips for the formatters.
 */
module SwiftText {

  /** `Int(x)` for a Double: truncation toward zero. */
  function Trunc(x: real): (r: int)
    ensures 0.0 <= x ==> 0 <= r && r as real <= x < r as real + 1.0
    ensures x < 0.0 ==> r <= 0 && r as real - 1.0 < x <= r as real
  {
    if x >= 0.0 then x.Floor else -((-x).Floor)
  }

  /** Swift's `a / b` on Int for a positive divisor: the quotient truncated toward zero. */
  function Quot(a: int, b: int): (q: int)
    requires b > 0
    ensures 0 <= a ==> 0 <= q && b * q <= a < b * q + b
    ensures a < 0 ==> q <= 0 && b * q - b < a <= b * q
  {
    if a >= 0 then a / b else -((-a) / b)
  }

  /** Swift's `a % b` on Int for a positive divisor: the remainder takes the sign of `a`. */
  function Rem(a: int, b: int): (r: int)
    requires b > 0
    ensures a == b * Quot(a, b) + r
    ensures 0 <= a ==> 0 <= r < b
    ensures a < 0 ==> -b < r <= 0
  {
    a - b * Quot(a, b)
  }

  predicate IsDigit(c: char) {
    '0' <= c <= '9'
  }

  predicate AllDigits(s: string) {
    forall i :: 0 <= i < |s| ==> IsDigit(s[i])
  }

  function DigitChar(d: nat): (c: char)
    requires d < 10
    ensures IsDigit(c) && (c as int) - ('0' as int) == d
  {
    "0123456789"[d]
  }

  /** Decimal digits of a natural number, without leading zeros. */
  function NatDigits(n: nat): (s: string)
    ensures 1 <= |s| && AllDigits(s)
  {
    if n < 10 then [DigitChar(n)] else NatDigits(n / 10) + [DigitChar(n % 10)]
  }

  /** `"\(i)"` and `%d`: a minus sign for negative values, then the digits. */
  function IntText(i: int): string {
    if i < 0 then "-" + NatDigits(-i) else NatDigits(i)
  }

  /** `%02d`: at least two characters, zero-padded on the left for 0 through 9. */
  function Pad2(i: int): string {
    if 0 <= i < 10 then "0" + NatDigits(i) else IntText(i)
  }

  /** The value of a string of decimal digits (the empty string reads as 0). */
  function DigitsValue(s: string): nat
    requires AllDigits(s)
  {
    if s == [] then 0
    else 10 * DigitsValue(s[..|s| - 1]) + ((s[|s| - 1] as int) - ('0' as int))
  }

  lemma {:induction false} NatDigitsRoundTrip(n: nat)
    ensures DigitsValue(NatDigits(n)) == n
  {
    if n >= 10 {
      var s := NatDigits(n / 10) + [DigitChar(n % 10)];
      assert s[..|s| - 1] == NatDigits(n / 10);
      NatDigitsRoundTrip(n / 10);
    }
  }

  /** For a non-negative value, `%d` prints only digits, and they read back as the value. */
  lemma IntTextRoundTrip(i: int)
    requires 0 <= i
    ensures 1 <= |IntText(i)| && AllDigits(IntText(i)) && DigitsValue(IntText(i)) == i
  {
    NatDigitsRoundTrip(i);
  }

  /** For 0 through 99, `%02d` prints exactly two digits that read back as the value. */
  lemma Pad2RoundTrip(i: int)
    requires 0 <= i < 100
    ensures |Pad2(i)| == 2 && AllDigits(Pad2(i)) && DigitsValue(Pad2(i)) == i
  {
    NatDigitsRoundTrip(i);
    if i < 10 {
      assert ("0" + NatDigits(i))[..1] == "0";
    } else {
      assert NatDigits(i) == NatDigits(i / 10) + [DigitChar(i % 10)];
    }
  }

  /** The pieces of `s` between occurrences of `sep` (always at least one piece). */
  function Split(s: string, sep: char): (parts: seq<string>)
    ensures 1 <= |parts|
  {
    if s == [] then [""]
    else
      var rest := Split(s[1..], sep);
      if s[0] == sep then [""] + rest else [[s[0]] + rest[0]] + rest[1..]
  }

  lemma {:induction false} SplitNoSeparator(a: string, sep: char)
    requires sep !in a
    ensures Split(a, sep) == [a]
  {
    if a != [] {
      assert sep !in a[1..] by {
        forall k | 0 <= k < |a[1..]| ensures a[1..][k] != sep {
          assert a[1..][k] == a[k + 1];
        }
      }
      SplitNoSeparator(a[1..], sep);
      assert [a[0]] + a[1..] == a;
    }
  }

  lemma {:induction false} SplitAt(a: string, sep: char, b: string)
    requires sep !in a
    ensures Split(a + [sep] + b, sep) == [a] + Split(b, sep)
  {
    if a == [] {
      assert a + [sep] + b == [sep] + b;
      assert ([sep] + b)[1..] == b;
    } else {
      var s := a + [sep] + b;
      assert s[0] == a[0];
      assert s[1..] == a[1..] + [sep] + b;
      assert sep !in a[1..] by {
        forall k | 0 <= k < |a[1..]| ensures a[1..][k] != sep {
          assert a[1..][k] == a[k + 1];
        }
      }
      SplitAt(a[1..], sep, b);
      assert [a[0]] + a[1..] == a;
    }
  }

  lemma DigitsHaveNoSeparator(s: string, sep: char)
    requires AllDigits(s) && !IsDigit(sep)
    ensures sep !in s
  {
  }

  lemma {:induction false} MulGap(b: int, d: int)
    requires b > 0 && d >= 1
    ensures b * d >= b
  {
    if d > 1 {
      MulGap(b, d - 1);
      assert b * d == b * (d - 1) + b;
    }
  }

  /** Truncating division is the unique quotient and remainder for a non-negative dividend. */
  lemma QuotRemUnique(a: int, b: int, q: int, r: int)
    requires b > 0 && 0 <= a && 0 <= r < b && a == b * q + r
    ensures Quot(a, b) == q && Rem(a, b) == r
  {
    var q0 := Quot(a, b);
    if q0 > q {
      MulGap(b, q0 - q);
    } else if q > q0 {
      MulGap(b, q - q0);
    }
  }

  /** Read colon-separated digit groups as a base-60 number: "h:mm:ss" and "m:ss" read back as seconds. */
  function ClockValue(parts: seq<string>): int
    requires forall i :: 0 <= i < |parts| ==> AllDigits(parts[i])
  {
    if parts == [] then 0
    else ClockValue(parts[..|parts| - 1]) * 60 + DigitsValue(parts[|parts| - 1])
  }

  /** "m:ss" splits back into its minutes and two-digit seconds, and reads as `60 * m + s`. */
  lemma MinutesTextReadsBack(m: int, s: int)
    requires 0 <= m && 0 <= s < 60
    ensures var parts := Split(IntText(m) + ":" + Pad2(s), ':');
      && parts == [IntText(m), Pad2(s)]
      && AllDigits(parts[0]) && AllDigits(parts[1])
      && |parts[1]| == 2 && DigitsValue(parts[1]) == s
      && ClockValue(parts) == 60 * m + s
  {
    IntTextRoundTrip(m);
    Pad2RoundTrip(s);
    DigitsHaveNoSeparator(IntText(m), ':');
    DigitsHaveNoSeparator(Pad2(s), ':');
    SplitNoSeparator(Pad2(s), ':');
    assert IntText(m) + ":" + Pad2(s) == IntText(m) + [':'] + Pad2(s);
    SplitAt(IntText(m), ':', Pad2(s));
    var parts := [IntText(m), Pad2(s)];
    assert parts[..1] == [IntText(m)];
    assert [IntText(m)][..0] == [];
    assert ClockValue([IntText(m)]) == m;
  }

  /** Appending a digit group shifts the value by one base-60 place. */
  lemma ClockValueSnoc(parts: seq<string>, p: string)
    requires forall i :: 0 <= i < |parts| ==> AllDigits(parts[i])
    requires AllDigits(p)
    ensures ClockValue(parts + [p]) == ClockValue(parts) * 60 + DigitsValue(p)
  {
    assert (parts + [p])[..|parts|] == parts;
  }

  /** Three digit groups read as a base-60 number. */
  lemma ClockValueThree(a: string, b: string, c: string)
    requires AllDigits(a) && AllDigits(b) && AllDigits(c)
    ensures ClockValue([a, b, c]) == (DigitsValue(a) * 60 + DigitsValue(b)) * 60 + DigitsValue(c)
  {
    ClockValueSnoc([], a);
    assert [] + [a] == [a];
    ClockValueSnoc([a], b);
    assert [a] + [b] == [a, b];
    ClockValueSnoc([a, b], c);
    assert [a, b] + [c] == [a, b, c];
  }

  /** "mm:ss" with two-digit groups splits at its one ':'. */
  lemma PairSplits(m: int, s: int)
    requires 0 <= m < 60 && 0 <= s < 60
    ensures Split(Pad2(m) + ":" + Pad2(s), ':') == [Pad2(m), Pad2(s)]
  {
    Pad2RoundTrip(m);
    Pad2RoundTrip(s);
    DigitsHaveNoSeparator(Pad2(m), ':');
    DigitsHaveNoSeparator(Pad2(s), ':');
    SplitNoSeparator(Pad2(s), ':');
    assert Pad2(m) + ":" + Pad2(s) == Pad2(m) + [':'] + Pad2(s);
    SplitAt(Pad2(m), ':', Pad2(s));
  }

  /** "h:mm:ss" splits back into its hours and two two-digit groups, and reads as `3600 * h + 60 * m + s`. */
  lemma HoursTextReadsBack(h: int, m: int, s: int)
    requires 0 <= h && 0 <= m < 60 && 0 <= s < 60
    ensures var parts := Split(IntText(h) + ":" + Pad2(m) + ":" + Pad2(s), ':');
      && parts == [IntText(h), Pad2(m), Pad2(s)]
      && AllDigits(parts[0]) && AllDigits(parts[1]) && AllDigits(parts[2])
      && |parts[1]| == 2 && DigitsValue(parts[1]) == m
      && |parts[2]| == 2 && DigitsValue(parts[2]) == s
      && ClockValue(parts) == 3600 * h + 60 * m + s
  {
    IntTextRoundTrip(h);
    Pad2RoundTrip(m);
    Pad2RoundTrip(s);
    DigitsHaveNoSeparator(IntText(h), ':');
    var rest := Pad2(m) + ":" + Pad2(s);
    PairSplits(m, s);
    assert IntText(h) + ":" + Pad2(m) + ":" + Pad2(s) == IntText(h) + [':'] + rest;
    SplitAt(IntText(h), ':', rest);
    assert [IntText(h)] + [Pad2(m), Pad2(s)] == [IntText(h), Pad2(m), Pad2(s)];
    ClockValueThree(IntText(h), Pad2(m), Pad2(s));
    assert (h * 60 + m) * 60 + s == 3600 * h + 60 * m + s;
  }
}
