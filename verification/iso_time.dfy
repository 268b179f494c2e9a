/** The local-time label of `getTime`: `'Local Time: '` followed by
    `new Date(t * 1000).toISOString().slice(11, 16)`, for a timestamp the time
    service has already shifted into the place's local time. */
module IsoTime {
  import opened Wrappers
  import Js

  /** Seconds from the epoch to 10000-01-01T00:00:00Z; from there on
      `toISOString` writes a six-digit year. */
  const YearTenThousand: int := 253402300800

  const SecondsPerDay: int := 86400
  const MsPerDay: int := 86400000

  /** The prefix the page puts before the clock. */
  const LocalTimePrefix: string := "Local Time: "

  function Pow10(n: nat): (p: nat)
    ensures p >= 1
  {
    if n == 0 then 1 else 10 * Pow10(n - 1)
  }

  predicate IsDigit(c: char) {
    '0' <= c <= '9'
  }

  predicate AllDigits(s: string) {
    forall i :: 0 <= i < |s| ==> IsDigit(s[i])
  }

  function DigitChar(d: int): (c: char)
    requires 0 <= d < 10
    ensures IsDigit(c) && c as int - '0' as int == d
  {
    (d + '0' as int) as char
  }

  /** `n` in exactly `width` decimal digits, zero-padded on the left, as the
      fields of an ISO 8601 date are written. */
  function PadDecimal(n: nat, width: nat): (s: string)
    requires n < Pow10(width)
    ensures |s| == width
    ensures AllDigits(s)
  {
    if width == 0 then "" else PadDecimal(n / 10, width - 1) + [DigitChar(n % 10)]
  }

  /** The value of a string of decimal digits. */
  function DecimalValue(s: string): (n: nat)
    requires AllDigits(s)
    ensures n < Pow10(|s|)
  {
    if |s| == 0 then 0
    else 10 * DecimalValue(s[..|s| - 1]) + (s[|s| - 1] as int - '0' as int)
  }

  lemma {:induction false} DecimalRoundTrip(n: nat, width: nat)
    requires n < Pow10(width)
    ensures DecimalValue(PadDecimal(n, width)) == n
  {
    if width > 0 {
      var s := PadDecimal(n, width);
      assert s[..|s| - 1] == PadDecimal(n / 10, width - 1);
      DecimalRoundTrip(n / 10, width - 1);
    }
  }

  datatype Date = Date(year: int, month: int, day: int)

  /** The proleptic Gregorian date `days` days after 1970-01-01, counted as
      whole 400-year eras, centuries, four-year cycles and years, each
      starting on the 1st of March (H. Hinnant's civil-from-days). */
  function CivilFromDays(days: int): (d: Date)
    requires 0 <= days < YearTenThousand / SecondsPerDay
    ensures 1970 <= d.year <= 9999 && 1 <= d.month <= 12 && 1 <= d.day <= 31
  {
    var z := days + 719468;            // days since 0000-03-01
    var era := z / 146097;
    var dayOfEra := z % 146097;
    var century := Js.Min(dayOfEra / 36524, 3);
    var dayOfCentury := dayOfEra - 36524 * century;
    var cycle := dayOfCentury / 1461;
    var dayOfCycle := dayOfCentury % 1461;
    var yearOfCycle := Js.Min(dayOfCycle / 365, 3);
    var dayOfYear := dayOfCycle - 365 * yearOfCycle;   // from the 1st of March
    var mp := (5 * dayOfYear + 2) / 153;
    var day := dayOfYear - (153 * mp + 2) / 5 + 1;
    var month := if mp < 10 then mp + 3 else mp - 9;
    Date(era * 400 + 100 * century + 4 * cycle + yearOfCycle + (if month <= 2 then 1 else 0), month, day)
  }

  lemma CivilFromDaysEpoch()
    ensures CivilFromDays(0) == Date(1970, 1, 1)
  {
  }

  lemma CivilFromDaysLeapDay()
    ensures CivilFromDays(11016) == Date(2000, 2, 29)
  {
  }

  lemma CivilFromDaysLastDay()
    ensures CivilFromDays(2932896) == Date(9999, 12, 31)
  {
  }

  /** `YYYY-MM-DD` for a day before the year 10000. */
  function DateText(days: int): (s: string)
    requires 0 <= days < YearTenThousand / SecondsPerDay
    ensures |s| == 10 && s[4] == '-' && s[7] == '-'
  {
    var date := CivilFromDays(days);
    PadDecimal(date.year, 4) + "-" + PadDecimal(date.month, 2) + "-" + PadDecimal(date.day, 2)
  }

  /** `HH:mm:ss.sssZ` for a time of day in milliseconds. */
  function TimeText(msOfDay: int): (s: string)
    requires 0 <= msOfDay < MsPerDay
    ensures |s| == 13 && s[2] == ':' && s[5] == ':' && s[8] == '.' && s[12] == 'Z'
    ensures s[..5] == PadDecimal(msOfDay / 3600000, 2) + ":" + PadDecimal(msOfDay / 60000 % 60, 2)
  {
    var hhmm := PadDecimal(msOfDay / 3600000, 2) + ":" + PadDecimal(msOfDay / 60000 % 60, 2);
    var rest := ":" + PadDecimal(msOfDay / 1000 % 60, 2) + "." + PadDecimal(msOfDay % 1000, 3) + "Z";
    assert (hhmm + rest)[..5] == hhmm;
    hhmm + rest
  }

  /** `Date.prototype.toISOString` of a non-negative time value (in
      milliseconds) before the year 10000: `YYYY-MM-DDTHH:mm:ss.sssZ`. */
  function IsoString(ms: int): (s: string)
    requires 0 <= ms < YearTenThousand * 1000
    ensures |s| == 24
    ensures s[4] == '-' && s[7] == '-' && s[10] == 'T' && s[13] == ':' && s[16] == ':'
    ensures s[19] == '.' && s[23] == 'Z'
    ensures s[11..16] == TimeText(ms % MsPerDay)[..5]
  {
    var date := DateText(ms / MsPerDay);
    var time := TimeText(ms % MsPerDay);
    assert (date + "T" + time)[11..16] == time[..5];
    date + "T" + time
  }

  lemma MulAtLeast(b: int, k: int)
    requires 0 < b && 1 <= k
    ensures b <= b * k
  {
  }

  /** Quotient and remainder are the unique pair with `a == b * q + r` and
      `0 <= r < b`. */
  lemma DivModUnique(a: int, b: int, q: int, r: int)
    requires 0 < b && a == b * q + r && 0 <= r < b
    ensures a / b == q && a % b == r
  {
    var q', r' := a / b, a % b;
    assert b * (q - q') == r' - r;
    if q > q' {
      MulAtLeast(b, q - q');
    } else if q < q' {
      MulAtLeast(b, q' - q);
    }
  }

  /** Hours and minutes of the day agree whether they are taken from the
      time value in milliseconds or from the timestamp in seconds. */
  lemma TimeOfDayFields(t: int)
    requires 0 <= t
    ensures (t * 1000) % MsPerDay / 3600000 == t / 3600 % 24
    ensures (t * 1000) % MsPerDay / 60000 % 60 == t / 60 % 60
  {
    var q := t / SecondsPerDay;
    var r := t % SecondsPerDay;
    DivModUnique(t * 1000, MsPerDay, q, 1000 * r);
    DivModUnique(t, 3600, 24 * q + r / 3600, r % 3600);
    DivModUnique(t / 3600, 24, q, r / 3600);
    DivModUnique(1000 * r, 3600000, r / 3600, 1000 * (r % 3600));
    DivModUnique(t, 60, 1440 * q + r / 60, r % 60);
    DivModUnique(1000 * r, 60000, r / 60, 1000 * (r % 60));
    DivModUnique(t / 60, 60, 24 * q + r / 3600, r / 60 % 60);
    DivModUnique(r / 60, 60, r / 3600, r / 60 % 60);
  }

  /** The clock `HH:MM` for a timestamp, written out directly: a reference
      definition that does not go through the calendar. */
  function Clock(t: int): (s: string)
    requires 0 <= t
    ensures |s| == 5 && s[2] == ':'
  {
    PadDecimal(t / 3600 % 24, 2) + ":" + PadDecimal(t / 60 % 60, 2)
  }

  /** The label `getTime` writes for the timestamp `t` (in seconds). */
  function LocalTimeLabel(t: int): (s: string)
    requires 0 <= t < YearTenThousand
    ensures |s| == |LocalTimePrefix| + 5
    ensures s[..|LocalTimePrefix|] == LocalTimePrefix
    ensures s[|LocalTimePrefix| + 2] == ':'
  {
    LocalTimePrefix + Js.Slice(IsoString(t * 1000), 11, 16)
  }

  /** Slicing characters 11 to 16 of the ISO string picks out exactly hours
      and minutes of the day: the label is the prefix and `Clock(t)`. */
  lemma LocalTimeLabelIsClock(t: int)
    requires 0 <= t < YearTenThousand
    ensures LocalTimeLabel(t) == LocalTimePrefix + Clock(t)
  {
    TimeOfDayFields(t);
  }

  /** Reads a clock `HH:MM` back: its hour and minute, or `None` when the
      text has another shape. */
  function ParseClock(s: string): (r: Option<(int, int)>)
    ensures r.Some? ==> 0 <= r.value.0 < 100 && 0 <= r.value.1 < 100
  {
    if |s| == 5 && s[2] == ':' && AllDigits(s[..2]) && AllDigits(s[3..])
    then Some((DecimalValue(s[..2]), DecimalValue(s[3..])))
    else None
  }

  /** Reads a label back: the hour and minute it shows, or `None` when the
      text is not `Local Time: HH:MM`. */
  function ParseLocalTimeLabel(s: string): (r: Option<(int, int)>)
    ensures r.Some? ==> LocalTimePrefix <= s && |s| == |LocalTimePrefix| + 5
  {
    var n := |LocalTimePrefix|;
    if n <= |s| && s[..n] == LocalTimePrefix then ParseClock(s[n..]) else None
  }

  lemma {:induction false} ParseClockRoundTrip(h: nat, m: nat)
    requires h < 100 && m < 100
    ensures ParseClock(PadDecimal(h, 2) + ":" + PadDecimal(m, 2)) == Some((h, m))
  {
    var s := PadDecimal(h, 2) + ":" + PadDecimal(m, 2);
    assert s[..2] == PadDecimal(h, 2);
    assert s[3..] == PadDecimal(m, 2);
    DecimalRoundTrip(h, 2);
    DecimalRoundTrip(m, 2);
  }

  /** The label round-trips to the hour of the day and the minute of the
      hour, so it always shows a valid 24-hour clock. */
  lemma {:induction false} LocalTimeLabelShowsTimeOfDay(t: int)
    requires 0 <= t < YearTenThousand
    ensures ParseLocalTimeLabel(LocalTimeLabel(t)) == Some((t / 3600 % 24, t / 60 % 60))
    ensures t / 3600 % 24 < 24 && t / 60 % 60 < 60
  {
    LocalTimeLabelIsClock(t);
    var c := Clock(t);
    assert (LocalTimePrefix + c)[|LocalTimePrefix|..] == c;
    ParseClockRoundTrip(t / 3600 % 24, t / 60 % 60);
  }

  lemma LocalTimeLabelAtEpoch()
    ensures LocalTimeLabel(0) == "Local Time: 00:00"
  {
    LocalTimeLabelIsClock(0);
    assert PadDecimal(0, 2) == "00";
  }

  lemma LocalTimeLabelExample()
    ensures LocalTimeLabel(1500000000) == "Local Time: 02:40"
  {
    DivModUnique(1500000000, 3600, 416666, 2400);
    DivModUnique(416666, 24, 17361, 2);
    DivModUnique(1500000000, 60, 25000000, 0);
    DivModUnique(25000000, 60, 416666, 40);
    assert Clock(1500000000) == "02:40";
    LocalTimeLabelIsClock(1500000000);
  }
}
