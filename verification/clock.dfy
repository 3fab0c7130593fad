/** Local wall-clock time as whole milliseconds, and the `HH:mm` strings the
    schedule uses for a time of day. An instant is counted from midnight of
    day 0 of the local calendar; days are all exactly 24 hours long. */
module Clock {
  import opened Wrappers

  type Instant = int

  const MsPerMinute: int := 60_000
  const MsPerHour: int := 3_600_000
  const MsPerDay: int := 86_400_000
  const MinutesPerHour: int := 60
  const MinutesPerDay: int := 1440

  /** The calendar day an instant falls on (rounding down, also before day 0). */
  function DayOf(t: Instant): int {
    t / MsPerDay
  }

  /** Milliseconds since the start of the instant's day. */
  function MsOfDay(t: Instant): (r: int)
    ensures 0 <= r < MsPerDay
    ensures t == DayOf(t) * MsPerDay + r
  {
    t % MsPerDay
  }

  /** The instant at `ms` milliseconds into day `day`; the inverse of the
      split into `DayOf` and `MsOfDay`. */
  function At(day: int, ms: int): (r: Instant)
    requires 0 <= ms < MsPerDay
    ensures DayOf(r) == day && MsOfDay(r) == ms
  {
    day * MsPerDay + ms
  }

  /** `new Date(t).setHours(0, 0, 0, 0)`: midnight at the start of the day. */
  function StartOfDay(t: Instant): (r: Instant)
    ensures DayOf(r) == DayOf(t) && MsOfDay(r) == 0
    ensures r <= t < r + MsPerDay
  {
    At(DayOf(t), 0)
  }

  /** Whole minutes since the start of the instant's day. */
  function MinuteOfDay(t: Instant): (r: int)
    ensures 0 <= r < MinutesPerDay
    ensures r * MsPerMinute <= MsOfDay(t) < (r + 1) * MsPerMinute
  {
    MsOfDay(t) / MsPerMinute
  }

  /** The character for a decimal digit. */
  function DigitChar(d: int): (c: char)
    requires 0 <= d < 10
    ensures '0' <= c <= '9'
  {
    ('0' as int + d) as char
  }

  /** The value of a decimal digit character, if it is one. */
  function DigitValue(c: char): (r: Option<int>)
    ensures r.Some? <==> '0' <= c <= '9'
    ensures r.Some? ==> 0 <= r.value < 10 && DigitChar(r.value) == c
  {
    if '0' <= c <= '9' then Some(c as int - '0' as int) else None
  }

  /** A number below 100 as two digits, with a leading zero. */
  function TwoDigits(n: int): (r: string)
    requires 0 <= n < 100
    ensures |r| == 2 && '0' <= r[0] <= '9' && '0' <= r[1] <= '9'
  {
    [DigitChar(n / 10), DigitChar(n % 10)]
  }

  /** A minute of the day written as `HH:mm` on a 24-hour clock. */
  function FormatClock(minute: int): (r: string)
    requires 0 <= minute < MinutesPerDay
    ensures |r| == 5 && r[2] == ':'
  {
    TwoDigits(minute / MinutesPerHour) + ":" + TwoDigits(minute % MinutesPerHour)
  }

  /** date-fns `format(t, 'HH:mm')`: the clock time of the instant, which
      reads back as the instant's minute of the day. */
  function FormatHHmm(t: Instant): (r: string)
    ensures |r| == 5 && r[2] == ':'
    ensures ParseClock(r) == Some(MinuteOfDay(t))
  {
    ParseFormat(MinuteOfDay(t));
    FormatClock(MinuteOfDay(t))
  }

  /** Reads a well-formed `HH:mm` string (hours 00-23, minutes 00-59) back as
      a minute of the day; anything else is `None`. */
  function ParseClock(s: string): (r: Option<int>)
    ensures r.Some? ==> 0 <= r.value < MinutesPerDay
  {
    if |s| != 5 || s[2] != ':' then None
    else
      match (DigitValue(s[0]), DigitValue(s[1]), DigitValue(s[3]), DigitValue(s[4]))
      case (Some(h1), Some(h0), Some(m1), Some(m0)) =>
        var h := 10 * h1 + h0;
        var m := 10 * m1 + m0;
        if h < 24 && m < 60 then Some(h * MinutesPerHour + m) else None
      case _ => None
  }

  lemma DigitRoundTrip(d: int)
    requires 0 <= d < 10
    ensures DigitValue(DigitChar(d)) == Some(d)
  {
  }

  /** Reading a formatted minute gives that minute back. */
  lemma ParseFormat(minute: int)
    requires 0 <= minute < MinutesPerDay
    ensures ParseClock(FormatClock(minute)) == Some(minute)
  {
    var h := minute / MinutesPerHour;
    var m := minute % MinutesPerHour;
    var s := FormatClock(minute);
    DigitRoundTrip(h / 10);
    DigitRoundTrip(h % 10);
    DigitRoundTrip(m / 10);
    DigitRoundTrip(m % 10);
    assert s[0] == DigitChar(h / 10) && s[1] == DigitChar(h % 10);
    assert s[3] == DigitChar(m / 10) && s[4] == DigitChar(m % 10);
  }

  /** Every string the parser accepts is exactly the formatting of what it
      reads, so `HH:mm` strings and minutes of the day correspond one to one. */
  lemma FormatParse(s: string)
    requires ParseClock(s).Some?
    ensures FormatClock(ParseClock(s).value) == s
  {
    var h1 := DigitValue(s[0]).value;
    var h0 := DigitValue(s[1]).value;
    var m1 := DigitValue(s[3]).value;
    var m0 := DigitValue(s[4]).value;
    var minute := ParseClock(s).value;
    assert minute == (10 * h1 + h0) * MinutesPerHour + (10 * m1 + m0);
    assert minute / MinutesPerHour == 10 * h1 + h0;
    assert minute % MinutesPerHour == 10 * m1 + m0;
    var r := FormatClock(minute);
    assert r[0] == s[0] && r[1] == s[1] && r[3] == s[3] && r[4] == s[4];
  }

  /** An hour later is 60 minutes later on the clock face, wrapping past
      midnight. */
  lemma HourLater(t: Instant)
    ensures MinuteOfDay(t + MsPerHour) == (MinuteOfDay(t) + MinutesPerHour) % MinutesPerDay
  {
    var d := DayOf(t);
    var ms := MsOfDay(t);
    var later := t + MsPerHour;
    if ms + MsPerHour < MsPerDay {
      assert later == At(d, ms + MsPerHour);
    } else {
      assert later == At(d + 1, ms + MsPerHour - MsPerDay);
    }
  }
}
