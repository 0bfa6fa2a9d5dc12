/**
 * `Float.toHourString()`: renders an hour value such as 9.5 as "9h30".
 * Hours are reals here; the float representation is not modelled.
 */
module TimeUtils {
  import opened Wrappers

  /** Kotlin's `Float.toInt()`: truncation toward zero. */
  function Trunc(x: real): (h: int)
    ensures 0.0 <= x ==> h as real <= x < h as real + 1.0
    ensures x < 0.0 ==> h as real - 1.0 < x <= h as real
  {
    if x >= 0.0 then x.Floor else -((-x).Floor)
  }

  function DigitChar(d: nat): (c: char)
    requires d < 10
    ensures '0' <= c <= '9' && c as int - '0' as int == d
  {
    ('0' as int + d) as char
  }

  predicate IsDigit(c: char) { '0' <= c <= '9' }

  /** Decimal text of `n`, without leading zeros (Kotlin's string template). */
  function NatToString(n: nat): (s: string)
    ensures |s| >= 1
    ensures forall i :: 0 <= i < |s| ==> IsDigit(s[i])
    ensures s[0] == '0' ==> n == 0 && s == "0"
  {
    if n < 10 then [DigitChar(n)] else NatToString(n / 10) + [DigitChar(n % 10)]
  }

  /** Kotlin's decimal text of an `Int`: a minus sign for negatives, then the digits. */
  function IntToString(i: int): (s: string)
    ensures |s| >= 1
    ensures s[0] == '-' <==> i < 0
    ensures i >= 0 ==> s == NatToString(i)
    ensures i < 0 ==> s[1..] == NatToString(-i)
  {
    if i < 0 then "-" + NatToString(-i) else NatToString(i)
  }

  /** Value of a string of decimal digits. */
  function DigitsValue(s: string): nat
    requires forall i :: 0 <= i < |s| ==> IsDigit(s[i])
  {
    if s == [] then 0
    else
      assert IsDigit(s[|s| - 1]);
      DigitsValue(s[..|s| - 1]) * 10 + (s[|s| - 1] as int - '0' as int)
  }

  lemma {:induction false} NatToStringRoundTrip(n: nat)
    ensures DigitsValue(NatToString(n)) == n
  {
    if n >= 10 {
      var s := NatToString(n);
      NatToStringRoundTrip(n / 10);
      assert s[..|s| - 1] == NatToString(n / 10);
    }
  }

  /** toHourString: hour part, "h", then "30" from the half hour on, else "00". */
  function ToHourString(x: real): (r: string)
    ensures |r| >= 4 && r[|r| - 3] == 'h'
    ensures r[..|r| - 3] == IntToString(Trunc(x))
    ensures r[|r| - 2..] == if x - Trunc(x) as real >= 0.5 then "30" else "00"
  {
    var h := Trunc(x);
    var m := if x - h as real >= 0.5 then "30" else "00";
    IntToString(h) + "h" + m
  }

  /** What a label says: its hour and whether it is the half hour. */
  datatype HourLabel = HourLabel(hour: int, half: bool)

  /** Reads Kotlin's decimal text of an `Int` back. */
  function ParseInt(p: string): Option<int> {
    if |p| >= 2 && p[0] == '-' && forall i :: 1 <= i < |p| ==> IsDigit(p[i]) then
      Some(-(DigitsValue(p[1..]) as int))
    else if |p| >= 1 && forall i :: 0 <= i < |p| ==> IsDigit(p[i]) then
      Some(DigitsValue(p))
    else None
  }

  lemma ParseIntOfString(h: int)
    ensures ParseInt(IntToString(h)) == Some(h)
  {
    if h < 0 {
      var digits := NatToString(-h);
      var p := "-" + digits;
      NatToStringRoundTrip(-h);
      assert p[1..] == digits;
      assert forall i :: 1 <= i < |p| ==> p[i] == digits[i - 1];
    } else {
      NatToStringRoundTrip(h);
    }
  }

  /** Reads a label produced by ToHourString back; the inverse of that function. */
  function ParseHourLabel(s: string): Option<HourLabel> {
    if |s| < 4 || s[|s| - 3] != 'h' || !(s[|s| - 2..] in {"00", "30"}) then None
    else
      match ParseInt(s[..|s| - 3])
      case Some(h) => Some(HourLabel(h, s[|s| - 2..] == "30"))
      case None => None
  }

  /** A label built from an hour and a half-hour flag reads back as both. */
  lemma ParseHourLabelOfParts(h: int, half: bool)
    ensures ParseHourLabel(IntToString(h) + "h" + (if half then "30" else "00"))
         == Some(HourLabel(h, half))
  {
    var p := IntToString(h);
    var m := if half then "30" else "00";
    var s := p + "h" + m;
    ParseIntOfString(h);
    assert s[..|s| - 3] == p;
    assert s[|s| - 2..] == m;
    assert s[|s| - 3] == 'h';
  }

  /**
   * The label determines the truncated hour and whether the fractional
   * part reached one half: nothing else is lost by ToHourString.
   */
  lemma ToHourStringRoundTrip(x: real)
    ensures ParseHourLabel(ToHourString(x))
         == Some(HourLabel(Trunc(x), x - Trunc(x) as real >= 0.5))
  {
    ParseHourLabelOfParts(Trunc(x), x - Trunc(x) as real >= 0.5);
  }

  /** A value in [n, n + 1) renders as "nh00" below n + 0.5 and "nh30" from it on. */
  lemma LabelRoundsDownToHalfHour(n: nat, x: real)
    requires n as real <= x < n as real + 1.0
    ensures ToHourString(x) == NatToString(n) + (if x >= n as real + 0.5 then "h30" else "h00")
  {
  }

  /** 8.0 renders as "8h00" and 9.5 as "9h30", the encoding CalendarEvent documents. */
  lemma WholeAndHalfHours(n: nat)
    ensures ToHourString(n as real) == NatToString(n) + "h00"
    ensures ToHourString(n as real + 0.5) == NatToString(n) + "h30"
    ensures ToHourString(8.0) == "8h00" && ToHourString(9.5) == "9h30"
  {
    LabelRoundsDownToHalfHour(n, n as real);
    LabelRoundsDownToHalfHour(n, n as real + 0.5);
    LabelRoundsDownToHalfHour(8, 8.0);
    LabelRoundsDownToHalfHour(9, 9.5);
  }
}
