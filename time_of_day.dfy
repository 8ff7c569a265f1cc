/** Times of day as the services receive and store them: text matching the
    pattern `^([0-1]?[0-9]|2[0-3]):[0-5][0-9]$`, converted to minutes after
    midnight with `split(":").map(Number)`, and compared by the database as
    text (code-point lexicographic order). */
module TimeOfDay {

  predicate IsDigit(c: char) {
    '0' <= c <= '9'
  }

  function DigitValue(c: char): (v: nat)
    requires IsDigit(c)
    ensures v < 10
  {
    c as int - '0' as int
  }

  /** `[0-1]?[0-9]|2[0-3]`: the hour alternative of the pattern. */
  predicate IsHour(h: string) {
    || (|h| == 1 && IsDigit(h[0]))
    || (|h| == 2 && '0' <= h[0] <= '1' && IsDigit(h[1]))
    || (|h| == 2 && h[0] == '2' && '0' <= h[1] <= '3')
  }

  /** `[0-5][0-9]`: the minute part of the pattern. */
  predicate IsMinute(m: string) {
    |m| == 2 && '0' <= m[0] <= '5' && IsDigit(m[1])
  }

  /** The anchored pattern `^([0-1]?[0-9]|2[0-3]):[0-5][0-9]$` (JavaScript's `$`
      without the multiline flag matches only at the end of the input). */
  predicate IsTime(s: string)
    ensures IsTime(s) ==> (|s| == 4 || |s| == 5) && s[|s| - 3] == ':'
  {
    |s| >= 4 && s[|s| - 3] == ':' && IsHour(s[..|s| - 3]) && IsMinute(s[|s| - 2..])
  }

  function HourText(s: string): (h: string)
    requires IsTime(s)
  {
    s[..|s| - 3]
  }

  function MinuteText(s: string): (m: string)
    requires IsTime(s)
  {
    s[|s| - 2..]
  }

  predicate AllDigits(d: string) {
    forall i :: 0 <= i < |d| ==> IsDigit(d[i])
  }

  /** `Number(d)` for a string of decimal digits (leading zeros allowed). */
  function DecimalValue(d: string): (v: nat)
    requires AllDigits(d)
  {
    if d == [] then 0 else 10 * DecimalValue(d[..|d| - 1]) + DigitValue(d[|d| - 1])
  }

  lemma TwoDigitValue(d: string)
    requires |d| == 2 && AllDigits(d)
    ensures DecimalValue(d) == 10 * DigitValue(d[0]) + DigitValue(d[1])
  {
    assert d[..1][..0] == [];
    assert DecimalValue(d[..1]) == DigitValue(d[0]);
  }

  lemma OneDigitValue(d: string)
    requires |d| == 1 && AllDigits(d)
    ensures DecimalValue(d) == DigitValue(d[0])
  {
    assert d[..0] == [];
  }

  /** The number the hour text denotes is an hour of the day. */
  lemma {:induction false} HourBound(h: string)
    requires IsHour(h)
    ensures AllDigits(h) && DecimalValue(h) <= 23
  {
    if |h| == 1 {
      OneDigitValue(h);
    } else {
      TwoDigitValue(h);
    }
  }

  lemma {:induction false} MinuteBound(m: string)
    requires IsMinute(m)
    ensures AllDigits(m) && DecimalValue(m) <= 59
  {
    TwoDigitValue(m);
  }

  /** `startHour * 60 + startMin` of the services: minutes after midnight. */
  function Minutes(s: string): (m: nat)
    requires IsTime(s)
    ensures m < 24 * 60
    ensures AllDigits(HourText(s)) && AllDigits(MinuteText(s))
    ensures m / 60 == DecimalValue(HourText(s)) && m % 60 == DecimalValue(MinuteText(s))
  {
    HourBound(HourText(s));
    MinuteBound(MinuteText(s));
    DecimalValue(HourText(s)) * 60 + DecimalValue(MinuteText(s))
  }

  function Digit(n: nat): (c: char)
    requires n < 10
    ensures IsDigit(c) && DigitValue(c) == n
  {
    ('0' as int + n) as char
  }

  /** The zero-padded "HH:MM" text of a minute of the day: the persisted form. */
  function TwoDigitTime(m: nat): (s: string)
    requires m < 24 * 60
    ensures |s| == 5 && IsTime(s) && Minutes(s) == m
  {
    var s := [Digit(m / 600), Digit(m / 60 % 10), ':', Digit(m % 60 / 10), Digit(m % 10)];
    assert s[..2] == [s[0], s[1]] && s[3..] == [s[3], s[4]];
    TwoDigitValue(s[..2]);
    TwoDigitValue(s[3..]);
    s
  }

  /** The minute count of a zero-padded "HH:MM" text, digit by digit. */
  lemma PaddedMinutes(s: string)
    requires IsTime(s) && |s| == 5
    ensures Minutes(s) == (10 * DigitValue(s[0]) + DigitValue(s[1])) * 60 + 10 * DigitValue(s[3]) + DigitValue(s[4])
  {
    TwoDigitValue(HourText(s));
    TwoDigitValue(MinuteText(s));
  }

  /** Every two-digit-hour time is the zero-padded text of its own minute count. */
  lemma TwoDigitRoundTrip(s: string)
    requires IsTime(s) && |s| == 5
    ensures TwoDigitTime(Minutes(s)) == s
  {
    TwoDigitValue(HourText(s));
    TwoDigitValue(MinuteText(s));
    var t := TwoDigitTime(Minutes(s));
    TwoDigitValue(HourText(t));
    TwoDigitValue(MinuteText(t));
  }

  /** Text order `a < b` (SQL `<` on text under code-point collation, and
      JavaScript string `<`): lexicographic, a proper prefix first. */
  predicate Less(a: string, b: string) {
    |b| > 0 && (|a| == 0 || a[0] < b[0] || (a[0] == b[0] && Less(a[1..], b[1..])))
  }

  /** Text order `a <= b`. */
  predicate AtMost(a: string, b: string) {
    a == b || Less(a, b)
  }

  lemma {:induction false} LessIrreflexive(a: string)
    ensures !Less(a, a)
  {
    if |a| > 0 {
      LessIrreflexive(a[1..]);
    }
  }

  lemma {:induction false} LessTransitive(a: string, b: string, c: string)
    requires Less(a, b) && Less(b, c)
    ensures Less(a, c)
  {
    if |a| > 0 && a[0] == b[0] && b[0] == c[0] {
      LessTransitive(a[1..], b[1..], c[1..]);
    }
  }

  lemma {:induction false} LessTotal(a: string, b: string)
    ensures a == b || Less(a, b) || Less(b, a)
  {
    if |a| > 0 && |b| > 0 && a[0] == b[0] {
      LessTotal(a[1..], b[1..]);
      if a[1..] == b[1..] {
        assert a == [a[0]] + a[1..] && b == [b[0]] + b[1..];
      }
    }
  }

  lemma LessAsymmetric(a: string, b: string)
    requires Less(a, b)
    ensures !Less(b, a)
  {
    if Less(b, a) {
      LessTransitive(a, b, a);
      LessIrreflexive(a);
    }
  }

  /** Past a common prefix of length `k`, the order is decided by what follows. */
  lemma {:induction false} LessAfterCommonPrefix(a: string, b: string, k: nat)
    requires k <= |a| && k <= |b| && a[..k] == b[..k]
    ensures Less(a, b) <==> Less(a[k..], b[k..])
  {
    if k > 0 {
      assert a[0] == a[..k][0] == b[..k][0] == b[0];
      assert a[1..][..k - 1] == a[1..k] == a[..k][1..];
      assert b[1..][..k - 1] == b[1..k] == b[..k][1..];
      LessAfterCommonPrefix(a[1..], b[1..], k - 1);
      assert a[1..][k - 1..] == a[k..] && b[1..][k - 1..] == b[k..];
    }
  }

  /** For zero-padded "HH:MM" times, text order and minute order agree, so the
      database's text comparisons mean what the minute check means. */
  lemma TwoDigitOrder(a: string, b: string)
    requires IsTime(a) && IsTime(b) && |a| == 5 && |b| == 5
    ensures Less(a, b) <==> Minutes(a) < Minutes(b)
  {
    TwoDigitValue(HourText(a));
    TwoDigitValue(MinuteText(a));
    TwoDigitValue(HourText(b));
    TwoDigitValue(MinuteText(b));
    if a[0] != b[0] {
    } else if a[1] != b[1] {
      assert a[..1] == b[..1];
      LessAfterCommonPrefix(a, b, 1);
    } else if a[3] != b[3] {
      assert a[..3] == b[..3];
      LessAfterCommonPrefix(a, b, 3);
    } else if a[4] != b[4] {
      assert a[..4] == b[..4];
      LessAfterCommonPrefix(a, b, 4);
    } else {
      assert a == b;
      LessIrreflexive(a);
    }
  }

  /** With a one-digit hour the pattern still matches, and the two orders
      disagree: "10:00" sorts before "9:00" as text. */
  lemma OneDigitHourDisagrees()
    ensures IsTime("9:00") && IsTime("10:00")
    ensures Minutes("9:00") < Minutes("10:00")
    ensures Less("10:00", "9:00")
  {
    OneDigitValue(HourText("9:00"));
    TwoDigitValue(HourText("10:00"));
    TwoDigitValue(MinuteText("9:00"));
    TwoDigitValue(MinuteText("10:00"));
  }
}
