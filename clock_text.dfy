/** Times of day as the service-booking component writes and reads them.
    A time is a number of minutes since midnight; the component renders it as a
    zero-padded "HH:MM" string, compares those strings with JavaScript's string
    order, and shows the user a 12-hour label such as "9:30 AM". */
module ClockText {

  datatype Option<T> = None | Some(value: T)

  predicate IsDigit(c: char) { '0' <= c <= '9' }

  /** The character of a decimal digit. */
  function DigitChar(d: nat): (c: char)
    requires d < 10
    ensures IsDigit(c) && c as int - '0' as int == d
  {
    ('0' as int + d) as char
  }

  /** The value of a string of decimal digits (leading zeros allowed). */
  function DigitsValue(s: string): nat
    requires forall i :: 0 <= i < |s| ==> IsDigit(s[i])
  {
    if s == [] then 0 else DigitsValue(s[..|s| - 1]) * 10 + DigitValue(s[|s| - 1])
  }

  /** The value of one decimal digit. */
  function DigitValue(c: char): (d: nat)
    requires IsDigit(c)
    ensures d < 10
  {
    c as int - '0' as int
  }

  /** `n.toString()` for a non-negative integer: decimal digits, no leading zero. */
  function NatText(n: nat): (s: string)
    ensures 1 <= |s| && forall i :: 0 <= i < |s| ==> IsDigit(s[i])
    ensures n < 10 <==> |s| == 1
  {
    if n < 10 then [DigitChar(n)] else NatText(n / 10) + [DigitChar(n % 10)]
  }

  /** `n.toString().padStart(2, "0")`. */
  function Pad2(n: nat): (s: string)
    ensures forall i :: 0 <= i < |s| ==> IsDigit(s[i])
    ensures n < 100 ==> |s| == 2
  {
    var t := NatText(n);
    if |t| < 2 then "0" + t else t
  }

  /** The "HH:MM" text of a minute count, built as at lines 384 and 395 of
      components/client/service-booking.tsx. */
  function TimeText(minutes: nat): string
  {
    Pad2(minutes / 60) + ":" + Pad2(minutes % 60)
  }

  /** JavaScript's `<` on strings: lexicographic order, a proper prefix first. */
  predicate TextLess(a: string, b: string)
  {
    if a == [] then b != []
    else if b == [] then false
    else if a[0] != b[0] then a[0] < b[0]
    else TextLess(a[1..], b[1..])
  }

  /** JavaScript's `<=` on strings. */
  predicate TextLessEq(a: string, b: string)
  {
    a == b || TextLess(a, b)
  }

  /** Reading back what NatText writes gives the number it was written from. */
  lemma {:induction false} NatTextRoundTrip(n: nat)
    ensures DigitsValue(NatText(n)) == n
  {
    if n >= 10 {
      NatTextRoundTrip(n / 10);
      var s := NatText(n);
      assert s[..|s| - 1] == NatText(n / 10);
    }
  }

  /** Padding to two characters adds only a leading zero, so the numeric value of
      a padded field is the number it was built from. */
  lemma Pad2RoundTrip(n: nat)
    ensures DigitsValue(Pad2(n)) == n
  {
    NatTextRoundTrip(n);
    var t := NatText(n);
    if |t| < 2 {
      var p := "0" + t;
      assert p[..|p| - 1] == "0";
      assert DigitsValue("0"[..0]) == 0;
    }
  }

  /** Below 100 the padded field is exactly the tens digit then the units digit. */
  lemma Pad2Digits(n: nat)
    requires n < 100
    ensures Pad2(n) == [DigitChar(n / 10), DigitChar(n % 10)]
  {
    if n >= 10 {
      assert NatText(n) == NatText(n / 10) + [DigitChar(n % 10)];
    }
  }

  /** For times below 100:00 the text is five characters: two hour digits, a colon,
      two minute digits. */
  lemma TimeTextShape(m: nat)
    requires m < 6000
    ensures TimeText(m) == [DigitChar(m / 60 / 10), DigitChar(m / 60 % 10), ':',
                            DigitChar(m % 60 / 10), DigitChar(m % 60 % 10)]
  {
    Pad2Digits(m / 60);
    Pad2Digits(m % 60);
  }

  /** The order of two five-character strings is decided by the first position
      where they differ. */
  lemma TextLessFive(s: string, t: string)
    requires |s| == 5 && |t| == 5
    ensures TextLess(s, t) <==>
      (s[0] < t[0]) ||
      (s[0] == t[0] && s[1] < t[1]) ||
      (s[0] == t[0] && s[1] == t[1] && s[2] < t[2]) ||
      (s[0] == t[0] && s[1] == t[1] && s[2] == t[2] && s[3] < t[3]) ||
      (s[0] == t[0] && s[1] == t[1] && s[2] == t[2] && s[3] == t[3] && s[4] < t[4])
  {
    assert s[1..][1..] == s[2..] && t[1..][1..] == t[2..];
    assert s[2..][1..] == s[3..] && t[2..][1..] == t[3..];
    assert s[3..][1..] == s[4..] && t[3..][1..] == t[4..];
    assert s[4..][1..] == [] && t[4..][1..] == [];
    assert TextLess(s[4..], t[4..]) <==> s[4] < t[4];
    assert TextLess(s[3..], t[3..]) <==> s[3] < t[3] || (s[3] == t[3] && TextLess(s[4..], t[4..]));
    assert TextLess(s[2..], t[2..]) <==> s[2] < t[2] || (s[2] == t[2] && TextLess(s[3..], t[3..]));
    assert TextLess(s[1..], t[1..]) <==> s[1] < t[1] || (s[1] == t[1] && TextLess(s[2..], t[2..]));
  }

  /** For two-digit zero-padded "HH:MM" texts (times below 100:00), comparing the
      strings gives the same answer as comparing the minute values. */
  lemma TimeTextOrder(a: nat, b: nat)
    requires a < 6000 && b < 6000
    ensures TextLess(TimeText(a), TimeText(b)) <==> a < b
    ensures TimeText(a) == TimeText(b) <==> a == b
  {
    TimeTextShape(a);
    TimeTextShape(b);
    TextLessFive(TimeText(a), TimeText(b));
    var ha, ma, hb, mb := a / 60, a % 60, b / 60, b % 60;
    assert a == ha * 60 + ma && b == hb * 60 + mb;
    assert ha == ha / 10 * 10 + ha % 10 && hb == hb / 10 * 10 + hb % 10;
    assert ma == ma / 10 * 10 + ma % 10 && mb == mb / 10 * 10 + mb % 10;
    if TimeText(a) == TimeText(b) {
      assert TimeText(a)[0] == TimeText(b)[0] && TimeText(a)[1] == TimeText(b)[1];
      assert TimeText(a)[3] == TimeText(b)[3] && TimeText(a)[4] == TimeText(b)[4];
    }
  }

  /** The time part "HH:mm" of an ECMAScript date-time string `${date}T${time}`:
      the minutes since the day's midnight, or None when the text is not such a
      time. Hours run to 23, and "24:00" is the midnight that ends the day. */
  function ClockMinutes(t: string): Option<nat>
  {
    if |t| == 5 && IsDigit(t[0]) && IsDigit(t[1]) && t[2] == ':' && IsDigit(t[3]) && IsDigit(t[4]) then
      var h := DigitsValue(t[..2]);
      var m := DigitsValue(t[3..]);
      if (h < 24 && m < 60) || (h == 24 && m == 0) then Some(h * 60 + m) else None
    else None
  }

  /** Reading back a rendered time of the day, up to its closing midnight, gives
      the minutes it was rendered from. */
  lemma ClockMinutesRoundTrip(m: nat)
    requires m <= 24 * 60
    ensures ClockMinutes(TimeText(m)) == Some(m)
  {
    var t := TimeText(m);
    Pad2Digits(m / 60);
    Pad2Digits(m % 60);
    assert t[..2] == Pad2(m / 60);
    assert t[3..] == Pad2(m % 60);
    Pad2RoundTrip(m / 60);
    Pad2RoundTrip(m % 60);
  }

  /** "AM" before noon, "PM" from noon on (line 434). */
  function Period(hour: nat): string
  {
    if hour >= 12 then "PM" else "AM"
  }

  /** `hour % 12 || 12` (line 435): hour 0 and 12 both show as 12. */
  function Hour12(hour: nat): (h: nat)
    ensures 1 <= h <= 12
    ensures h % 12 == hour % 12
  {
    if hour % 12 == 0 then 12 else hour % 12
  }

  /** formatTime (lines 432-437) once the "HH:MM" text is split into its hour and
      minute numbers. */
  function FormatTime(hour: nat, minute: nat): string
  {
    NatText(Hour12(hour)) + ":" + Pad2(minute) + " " + Period(hour)
  }

  /** The 24-hour reading of a 12-hour label: the inverse of Hour12 and Period. */
  function To24(h12: nat, period: string): nat
  {
    if period == "PM" then (if h12 == 12 then 12 else h12 + 12)
    else (if h12 == 12 then 0 else h12)
  }

  /** On a 24-hour clock the label's hour and period determine the hour. */
  lemma TwelveHourRoundTrip(hour: nat)
    requires hour < 24
    ensures To24(Hour12(hour), Period(hour)) == hour
  {
  }

  /** Midnight shows as 12 AM, noon as 12 PM, 13:00 as 1 PM, and the minutes
      always take two digits. */
  lemma FormatTimeExamples(minute: nat)
    requires minute < 60
    ensures FormatTime(0, minute) == "12:" + Pad2(minute) + " AM"
    ensures FormatTime(12, minute) == "12:" + Pad2(minute) + " PM"
    ensures FormatTime(13, minute) == "1:" + Pad2(minute) + " PM"
    ensures |Pad2(minute)| == 2
  {
    assert NatText(12) == "12" by {
      assert NatText(1) == "1";
    }
  }
}
