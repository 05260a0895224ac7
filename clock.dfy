/** Clock rendering and day-of-week lookup of the `Weather` class
    (`time_to_hhmm`, `getDotW` in assets/js/weather.js). The source builds a
    `Date` from `stamp * 1000` milliseconds and reads its local hours,
    minutes and weekday; here the timestamp is a whole number of seconds and
    the local time zone is an explicit offset in seconds east of UTC. */
module Clock {
  import opened Wrappers

  const SecondsPerDay: int := 86400

  /** Largest magnitude of a valid `Date`: 8.64e15 milliseconds, in seconds. */
  const MaxTimeSeconds: int := 8_640_000_000_000

  /** A `Date` built from `stamp * 1000` holds a time value (is not an
      "Invalid Date"). */
  predicate ValidStamp(stamp: int)
    ensures ValidStamp(stamp) <==> -8_640_000_000_000_000 <= stamp * 1000 <= 8_640_000_000_000_000
  {
    -MaxTimeSeconds <= stamp <= MaxTimeSeconds
  }

  /** A local time broken into whole days since the epoch and the time of day. */
  datatype Breakdown = Breakdown(day: int, hour: int, minute: int, second: int)

  /** Breaks the local time `stamp + offset` into days, hours, minutes and
      seconds; days are floored, as for dates before the epoch. */
  function LocalBreakdown(stamp: int, offset: int): (t: Breakdown)
    ensures 0 <= t.hour < 24 && 0 <= t.minute < 60 && 0 <= t.second < 60
    ensures stamp + offset == t.day * SecondsPerDay + t.hour * 3600 + t.minute * 60 + t.second
  {
    var local := stamp + offset;
    var inDay := local % SecondsPerDay;
    Breakdown(local / SecondsPerDay, inDay / 3600, (inDay % 3600) / 60, inDay % 60)
  }

  /** Day of the week, 0 = Sunday; the epoch (day 0) was a Thursday. */
  function WeekDay(stamp: int, offset: int): (d: int)
    ensures 0 <= d < 7
    ensures (d - LocalBreakdown(stamp, offset).day - 4) % 7 == 0
  {
    (LocalBreakdown(stamp, offset).day + 4) % 7
  }

  /** The hour as shown on a 12-hour clock: hour mod 12, with 0 shown as 12. */
  function TwelveHour(hour: int): (h: int)
    requires 0 <= hour < 24
    ensures 1 <= h <= 12
    ensures (h - hour) % 12 == 0
  {
    if hour % 12 == 0 then 12 else hour % 12
  }

  /** The decimal digit character for 0..9. */
  function DigitChar(d: int): char
    requires 0 <= d < 10
  {
    "0123456789"[d]
  }

  /** `String(n)` for a natural number: its decimal digits, no leading zero. */
  function DecimalString(n: nat): (s: string)
    ensures |s| >= 1
    ensures n < 10 ==> s == [DigitChar(n)]
    ensures 10 <= n < 100 ==> s == [DigitChar(n / 10), DigitChar(n % 10)]
  {
    if n < 10 then [DigitChar(n)] else DecimalString(n / 10) + [DigitChar(n % 10)]
  }

  /** `String.prototype.padStart`: prefixes `fill` until the width is reached. */
  function PadStart(s: string, width: nat, fill: char): (r: string)
    ensures |r| == if |s| >= width then |s| else width
    ensures r[|r| - |s|..] == s
    ensures forall i :: 0 <= i < |r| - |s| ==> r[i] == fill
  {
    if |s| >= width then s else seq(width - |s|, _ => fill) + s
  }

  /** A number below 100 written as `String(n).padStart(2, fill)`. */
  function PadTwo(n: nat, fill: char): (r: string)
    requires n < 100
    ensures |r| == 2
    ensures r[0] == if n < 10 then fill else DigitChar(n / 10)
    ensures r[1] == DigitChar(n % 10)
  {
    PadStart(DecimalString(n), 2, fill)
  }

  /** The hour field: the 12-hour hour, space-padded to two characters. */
  function HourField(hour: int): (r: string)
    requires 0 <= hour < 24
    ensures |r| == 2
    ensures TwelveHour(hour) < 10 ==> r[0] == ' ' && r[1] == DigitChar(TwelveHour(hour))
    ensures TwelveHour(hour) >= 10 ==> r[0] == '1' && r[1] == DigitChar(TwelveHour(hour) - 10)
  {
    var h := TwelveHour(hour);
    assert h >= 10 ==> h / 10 == 1;
    PadTwo(h, ' ')
  }

  /** The am/pm suffix: "am" before noon, "pm" from noon on. */
  function Meridiem(hour: int): (r: string)
    ensures r == "am" <==> hour < 12
    ensures r == "am" || r == "pm"
  {
    if hour < 12 then "am" else "pm"
  }

  /** The rendering of a local hour and minute: the hour field, ':', the
      minutes zero-padded to two digits, then the am/pm suffix. */
  function HhmmOf(hour: int, minute: int): (r: string)
    requires 0 <= hour < 24 && 0 <= minute < 60
    ensures |r| == 7
    ensures r[..2] == HourField(hour)
    ensures r[2] == ':'
    ensures r[3] == DigitChar(minute / 10) && r[4] == DigitChar(minute % 10)
    ensures r[5..] == Meridiem(hour)
  {
    var hh := HourField(hour);
    var mm := PadTwo(minute, '0');
    var ap := Meridiem(hour);
    var r := hh + ":" + mm + ap;
    assert r[..2] == hh && r[5..] == ap;
    r
  }

  /** `time_to_hhmm`: the local time of `stamp` rendered by HhmmOf. An
      invalid `Date` renders every part as NaN and compares as not before
      noon. */
  function TimeToHhmm(stamp: int, offset: int): (r: string)
    ensures !ValidStamp(stamp) ==> r == "NaN:NaNpm"
    ensures ValidStamp(stamp) ==>
      var t := LocalBreakdown(stamp, offset);
      r == HhmmOf(t.hour, t.minute)
  {
    if !ValidStamp(stamp) then "NaN:NaNpm"
    else
      var t := LocalBreakdown(stamp, offset);
      HhmmOf(t.hour, t.minute)
  }

  /** A reading of a rendered clock string: 12-hour hour, minutes, and
      whether it is after noon. */
  datatype ClockReading = ClockReading(hour: int, minute: int, pm: bool)

  /** The value of a decimal digit character, or -1 for any other. */
  function DigitValue(c: char): int
  {
    if '0' <= c <= '9' then (c as int) - ('0' as int) else -1
  }

  /** Reads back a string of the form " h:mmam" / "hh:mmpm". */
  function ParseClock(s: string): Option<ClockReading>
  {
    if |s| != 7 || s[2] != ':' || !(s[5..] == "am" || s[5..] == "pm") then None
    else
      var tens := if s[0] == ' ' then 0 else DigitValue(s[0]);
      var ones := DigitValue(s[1]);
      var mt := DigitValue(s[3]);
      var mo := DigitValue(s[4]);
      if tens < 0 || ones < 0 || mt < 0 || mo < 0 then None
      else Some(ClockReading(10 * tens + ones, 10 * mt + mo, s[5..] == "pm"))
  }

  /** DigitValue inverts DigitChar. */
  lemma DigitRoundTrip(d: int)
    requires 0 <= d < 10
    ensures DigitValue(DigitChar(d)) == d
  {
  }

  /** ParseClock on a string of the rendered shape. */
  lemma ParseWellFormed(s: string, tens: int, ones: int, mt: int, mo: int)
    requires |s| == 7 && s[2] == ':' && (s[5..] == "am" || s[5..] == "pm")
    requires (tens == 0 && s[0] == ' ') || (tens == 1 && s[0] == '1')
    requires 0 <= ones < 10 && 0 <= mt < 10 && 0 <= mo < 10
    requires s[1] == DigitChar(ones) && s[3] == DigitChar(mt) && s[4] == DigitChar(mo)
    ensures ParseClock(s) == Some(ClockReading(10 * tens + ones, 10 * mt + mo, s[5..] == "pm"))
  {
    DigitRoundTrip(ones);
    DigitRoundTrip(mt);
    DigitRoundTrip(mo);
    assert tens == 1 ==> DigitValue(s[0]) == 1;
  }

  /** Reading back a rendered hour and minute gives the 12-hour hour, the
      minutes and the am/pm choice. */
  lemma HhmmRoundTrip(hour: int, minute: int)
    requires 0 <= hour < 24 && 0 <= minute < 60
    ensures ParseClock(HhmmOf(hour, minute)) == Some(ClockReading(TwelveHour(hour), minute, hour >= 12))
  {
    var h := TwelveHour(hour);
    var r := HhmmOf(hour, minute);
    var tens := if h < 10 then 0 else 1;
    assert r[0] == r[..2][0] && r[1] == r[..2][1];
    var mt, mo := minute / 10, minute % 10;
    assert minute == 10 * mt + mo;
    ParseWellFormed(r, tens, h - 10 * tens, mt, mo);
    assert r[5..] == "pm" <==> hour >= 12;
  }

  /** Reading back `time_to_hhmm` gives the local 12-hour hour, minutes and
      am/pm choice of the timestamp. */
  lemma ClockRoundTrip(stamp: int, offset: int)
    requires ValidStamp(stamp)
    ensures var t := LocalBreakdown(stamp, offset);
      ParseClock(TimeToHhmm(stamp, offset)) == Some(ClockReading(TwelveHour(t.hour), t.minute, t.hour >= 12))
  {
    var t := LocalBreakdown(stamp, offset);
    HhmmRoundTrip(t.hour, t.minute);
  }

  /** The epoch renders as midnight when the local zone is UTC. */
  lemma EpochIsMidnight()
    ensures TimeToHhmm(0, 0) == "12:00am"
  {
    var t := LocalBreakdown(0, 0);
    assert t.hour == 0 && t.minute == 0;
    var r := HhmmOf(0, 0);
    assert r[0] == r[..2][0] && r[1] == r[..2][1];
    assert r[0] == '1' && r[1] == '2' && r[3] == '0' && r[4] == '0';
    assert r[5..] == "am";
    assert r == r[..5] + r[5..];
    assert r[..5] == "12:00";
  }

  /** The names of the days, Sunday first, as the source's table. */
  const Days: seq<string> :=
    ["Sunday", "Monday", "Tuesday", "Wednesday", "Thursday", "Friday", "Saturday"]

  /** `getDotW`: the local day-of-week name, or undefined for an invalid
      `Date` (whose weekday is NaN). */
  function GetDotW(stamp: int, offset: int): (r: Option<string>)
    ensures r.Some? <==> ValidStamp(stamp)
    ensures r.Some? ==> r.value in Days && r.value == Days[WeekDay(stamp, offset)]
  {
    if ValidStamp(stamp) then Some(Days[WeekDay(stamp, offset)]) else None
  }

  /** One day later is the next name of the table, cyclically. */
  lemma {:induction false} NextDay(stamp: int, offset: int)
    requires ValidStamp(stamp) && ValidStamp(stamp + SecondsPerDay)
    ensures GetDotW(stamp + SecondsPerDay, offset) == Some(Days[(WeekDay(stamp, offset) + 1) % 7])
  {
    var t := LocalBreakdown(stamp, offset);
    var u := LocalBreakdown(stamp + SecondsPerDay, offset);
    DayNumberStep(t, u);
  }

  /** Two breakdowns whose totals differ by one day differ by one day. */
  lemma DayNumberStep(t: Breakdown, u: Breakdown)
    requires 0 <= t.hour < 24 && 0 <= t.minute < 60 && 0 <= t.second < 60
    requires 0 <= u.hour < 24 && 0 <= u.minute < 60 && 0 <= u.second < 60
    requires u.day * SecondsPerDay + u.hour * 3600 + u.minute * 60 + u.second
          == t.day * SecondsPerDay + t.hour * 3600 + t.minute * 60 + t.second + SecondsPerDay
    ensures u.day == t.day + 1
  {
    var a := t.hour * 3600 + t.minute * 60 + t.second;
    var b := u.hour * 3600 + u.minute * 60 + u.second;
    assert 0 <= a < SecondsPerDay && 0 <= b < SecondsPerDay;
    assert (u.day - t.day - 1) * SecondsPerDay == a - b;
  }

  /** The epoch was a Thursday. */
  lemma EpochIsThursday()
    ensures GetDotW(0, 0) == Some("Thursday")
  {
  }
}
