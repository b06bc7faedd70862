/** The duration display of netlify/functions/info.js, line 126:
    `new Date(n * 1000).toISOString().substr(11, 8)`, the `HH:mm:ss` part of
    the ISO timestamp of the instant n seconds after the epoch. */
module Clock {
  import opened Decimal

  const MsPerSecond: nat := 1000
  const MsPerMinute: nat := 60000
  const MsPerHour: nat := 3600000
  const SecondsPerDay: nat := 86400

  /** HourFromTime, MinFromTime and SecFromTime of ECMA-262 (the fields that
      `toISOString` prints), for a time value t >= 0 in milliseconds. */
  function HourFromTime(t: nat): (r: nat)
    ensures r < 24
  {
    (t / MsPerHour) % 24
  }
  function MinFromTime(t: nat): (r: nat)
    ensures r < 60
  {
    (t / MsPerMinute) % 60
  }
  function SecFromTime(t: nat): (r: nat)
    ensures r < 60
  {
    (t / MsPerSecond) % 60
  }

  /** A field of the timestamp, zero-padded to two digits. */
  function TwoDigits(k: nat): (r: string)
    requires k < 100
    ensures |r| == 2 && AllDigits(r) && DigitsValue(r) == k
  {
    var r := [DigitChar(k / 10), DigitChar(k % 10)];
    TwoDigitsValue(r);
    r
  }

  /** The value of a two-digit string, digit by digit. */
  lemma TwoDigitsValue(d: string)
    requires |d| == 2 && AllDigits(d)
    ensures DigitsValue(d) == DigitValue(d[0]) * 10 + DigitValue(d[1])
    ensures DigitsValue(d) < 100
  {
    var first := d[..1];
    assert first[..0] == [];
    assert DigitsValue(first) == DigitValue(d[0]);
    assert DigitsValue(d) == DigitsValue(first) * 10 + DigitValue(d[1]);
  }

  /** `HH:MM:SS`: eight characters, two-digit fields, hours below 24 and
      minutes and seconds below 60. */
  predicate IsClockText(r: string) {
    |r| == 8 && r[2] == ':' && r[5] == ':' &&
    AllDigits(r[0..2]) && AllDigits(r[3..5]) && AllDigits(r[6..8]) &&
    DigitsValue(r[0..2]) < 24 && DigitsValue(r[3..5]) < 60 && DigitsValue(r[6..8]) < 60
  }

  /** The number of seconds a clock text stands for. */
  function ClockValue(r: string): (v: nat)
    requires IsClockText(r)
    ensures v < SecondsPerDay
  {
    DigitsValue(r[0..2]) * 3600 + DigitsValue(r[3..5]) * 60 + DigitsValue(r[6..8])
  }

  /** The text that line 126 shows for a duration of n seconds. */
  function ClockText(n: nat): (r: string)
    ensures IsClockText(r)
  {
    var t := n * MsPerSecond;
    var r := TwoDigits(HourFromTime(t)) + ":" + TwoDigits(MinFromTime(t)) + ":" + TwoDigits(SecFromTime(t));
    assert r[0..2] == TwoDigits(HourFromTime(t));
    assert r[3..5] == TwoDigits(MinFromTime(t));
    assert r[6..8] == TwoDigits(SecFromTime(t));
    r
  }

  /** The date arithmetic is integer arithmetic on seconds: hours are
      (n div 3600) mod 24, minutes (n div 60) mod 60, seconds n mod 60. */
  lemma ClockFields(n: nat)
    ensures HourFromTime(n * MsPerSecond) == (n / 3600) % 24
    ensures MinFromTime(n * MsPerSecond) == (n / 60) % 60
    ensures SecFromTime(n * MsPerSecond) == n % 60
  {
    var t := n * MsPerSecond;
    assert t / MsPerHour == n / 3600 by {
      var q, r := n / 3600, n % 3600;
      assert t == q * MsPerHour + r * 1000;
    }
    assert t / MsPerMinute == n / 60 by {
      var q, r := n / 60, n % 60;
      assert t == q * MsPerMinute + r * 1000;
    }
  }

  /** Splitting n into whole hours, minutes and seconds recovers n modulo one day. */
  lemma DayDecomposition(n: nat)
    ensures ((n / 3600) % 24) * 3600 + ((n / 60) % 60) * 60 + n % 60 == n % SecondsPerDay
  {
    var q, r := n / 3600, n % 3600;
    var d, hh := q / 24, q % 24;
    var mm, ss := r / 60, r % 60;
    assert n == q * 3600 + r;
    assert q == d * 24 + hh;
    assert r == mm * 60 + ss;
    assert n / 60 == q * 60 + mm;
    assert (n / 60) % 60 == mm;
    assert n % 60 == ss;
    assert n == d * SecondsPerDay + (hh * 3600 + r);
    assert hh * 3600 + r < SecondsPerDay;
  }

  /** Reading the text back gives n modulo one day: the hours wrap at 24. */
  lemma ClockRoundTrip(n: nat)
    ensures ClockValue(ClockText(n)) == n % SecondsPerDay
  {
    ClockFields(n);
    DayDecomposition(n);
    var r := ClockText(n);
    assert DigitsValue(r[0..2]) == (n / 3600) % 24;
    assert DigitsValue(r[3..5]) == (n / 60) % 60;
    assert DigitsValue(r[6..8]) == n % 60;
  }

  /** Below one day the display is exact: 200 seconds show as `00:03:20`. */
  lemma ClockExactBelowDay(n: nat)
    requires n < SecondsPerDay
    ensures ClockValue(ClockText(n)) == n
  {
    ClockRoundTrip(n);
    assert n % SecondsPerDay == n;
  }

  /** A two-digit field is reproduced by padding its value. */
  lemma TwoDigitsOfValue(d: string)
    requires |d| == 2 && AllDigits(d)
    ensures DigitsValue(d) < 100 && TwoDigits(DigitsValue(d)) == d
  {
    TwoDigitsValue(d);
  }

  /** The fields of 3600·hh + 60·mm + ss are hh, mm and ss. */
  lemma FieldsOfValue(hh: nat, mm: nat, ss: nat)
    requires hh < 24 && mm < 60 && ss < 60
    ensures ((hh * 3600 + mm * 60 + ss) / 3600) % 24 == hh
    ensures ((hh * 3600 + mm * 60 + ss) / 60) % 60 == mm
    ensures (hh * 3600 + mm * 60 + ss) % 60 == ss
  {
    var v := hh * 3600 + mm * 60 + ss;
    assert v / 3600 == hh;
    assert v / 60 == hh * 60 + mm;
  }

  /** Every well-formed clock text is the display of the value it stands for. */
  lemma ClockTextOfValue(r: string)
    requires IsClockText(r)
    ensures ClockText(ClockValue(r)) == r
  {
    var v := ClockValue(r);
    var a, b, c := r[0..2], r[3..5], r[6..8];
    var hh, mm, ss := DigitsValue(a), DigitsValue(b), DigitsValue(c);
    FieldsOfValue(hh, mm, ss);
    ClockFields(v);
    TwoDigitsOfValue(a);
    TwoDigitsOfValue(b);
    TwoDigitsOfValue(c);
    assert ClockText(v) == a + ":" + b + ":" + c;
    assert r == a + ":" + b + ":" + c;
  }

  /** The display shows only the time of day: the hours wrap at 24, so
      n and n mod 86400 seconds show the same text. */
  lemma ClockWrapsDaily(n: nat)
    ensures ClockText(n) == ClockText(n % SecondsPerDay)
  {
    var r := ClockText(n);
    ClockRoundTrip(n);
    ClockTextOfValue(r);
  }
}
