/** The schedule selector: quick-pick presets computed from "now", the
    calendar's rule for unselectable days, the manual date and time inputs,
    and the "Scheduled for" label. */
module Schedule {
  import opened Wrappers
  import opened Clock

  /** The chosen date and time as the page holds them (an empty time string
      means no time), and whether the calendar popover is open. */
  datatype State = State(date: Option<Instant>, time: string, calendarOpen: bool)

  const Empty: State := State(None, "", false)

  datatype QuickOption = QuickOption(text: string, value: string)

  /** The preset list, in display order. */
  const QuickOptions: seq<QuickOption> := [
    QuickOption("Post Now", "now"),
    QuickOption("In 1 Hour", "1h"),
    QuickOption("Tomorrow 9 AM", "tomorrow"),
    QuickOption("Custom", "custom")
  ]

  /** JavaScript's `s.slice(0, -1)`: everything but the last element, and
      nothing for an empty list. */
  function DropLast<T>(s: seq<T>): (r: seq<T>)
    ensures |s| > 0 ==> |r| == |s| - 1
    ensures |s| == 0 ==> r == []
    ensures forall i :: 0 <= i < |r| ==> r[i] == s[i]
  {
    if |s| == 0 then [] else s[..|s| - 1]
  }

  /** The presets that get a button. */
  function RenderedOptions(): seq<QuickOption> {
    DropLast(QuickOptions)
  }

  /** What a preset asks of the page: nothing, or a new date and time set
      together. */
  datatype Update = Unchanged | SetBoth(date: Instant, time: string)

  const TomorrowHour: int := 9
  const TomorrowTime: string := "09:00"

  /** `handleQuickSchedule(value)` evaluated at instant `now`. */
  function QuickSchedule(value: string, now: Instant): (u: Update)
    ensures u.SetBoth? <==> value == "now" || value == "1h" || value == "tomorrow"
    ensures value == "now" ==>
      u.date == now && ParseClock(u.time) == Some(MinuteOfDay(now))
    ensures value == "1h" ==>
      && u.date - now == MsPerHour
      && ParseClock(u.time) == Some(MinuteOfDay(u.date))
      && MinuteOfDay(u.date) == (MinuteOfDay(now) + MinutesPerHour) % MinutesPerDay
    ensures value == "tomorrow" ==>
      && DayOf(u.date) == DayOf(now) + 1
      && MsOfDay(u.date) == TomorrowHour * MsPerHour
      && u.time == TomorrowTime
      && ParseClock(u.time) == Some(MinuteOfDay(u.date))
  {
    match value
    case "now" =>
      SetBoth(now, FormatHHmm(now))
    case "1h" =>
      var later := now + MsPerHour;
      HourLater(now);
      SetBoth(later, FormatHHmm(later))
    case "tomorrow" =>
      var tomorrow := At(DayOf(now) + 1, TomorrowHour * MsPerHour);
      assert MinuteOfDay(tomorrow) == TomorrowHour * MinutesPerHour;
      assert ParseClock(TomorrowTime) == Some(TomorrowHour * MinutesPerHour) by {
        ParseFormat(TomorrowHour * MinutesPerHour);
        assert FormatClock(TomorrowHour * MinutesPerHour) == TomorrowTime;
      }
      SetBoth(tomorrow, TomorrowTime)
    case _ => Unchanged
  }

  /** The "tomorrow" preset depends only on the day it is pressed, not on the
      time of day. */
  lemma TomorrowIgnoresTimeOfDay(now1: Instant, now2: Instant)
    requires DayOf(now1) == DayOf(now2)
    ensures QuickSchedule("tomorrow", now1) == QuickSchedule("tomorrow", now2)
  {
  }

  /** Every button runs a preset that sets the date and time; "custom" has no
      button, and dispatching it would change nothing anyway. */
  lemma RenderedOptionsAllSchedule(now: Instant)
    ensures |RenderedOptions()| == 3
    ensures forall i :: 0 <= i < |RenderedOptions()| ==>
      RenderedOptions()[i].value != "custom" && QuickSchedule(RenderedOptions()[i].value, now).SetBoth?
    ensures QuickSchedule("custom", now) == Unchanged
  {
    assert RenderedOptions() == QuickOptions[..3];
  }

  /** Sets the page's date and time as the preset asks. */
  function ApplyUpdate(s: State, u: Update): (r: State)
    ensures u.Unchanged? ==> r == s
    ensures u.SetBoth? ==> r.date == Some(u.date) && r.time == u.time
    ensures r.calendarOpen == s.calendarOpen
  {
    match u
    case Unchanged => s
    case SetBoth(d, t) => s.(date := Some(d), time := t)
  }

  /** The calendar's `disabled` test: the day lies before midnight of today. */
  function IsDisabled(date: Instant, now: Instant): (r: bool)
    ensures r <==> DayOf(date) < DayOf(now)
  {
    var midnight := StartOfDay(now);
    assert date < midnight <==> DayOf(date) < DayOf(now) by {
      var d := DayOf(date);
      var n := DayOf(now);
      assert date == d * MsPerDay + MsOfDay(date);
      assert midnight == n * MsPerDay;
      if d < n {
        assert d * MsPerDay + MsPerDay <= n * MsPerDay;
      } else {
        assert d * MsPerDay >= n * MsPerDay;
      }
    }
    date < midnight
  }

  /** A calendar pick forwards the picked date (none when a day is
      unselected) and closes the popover. */
  function PickDate(s: State, picked: Option<Instant>): (r: State)
    ensures r.date == picked && r.time == s.time && !r.calendarOpen
  {
    State(picked, s.time, false)
  }

  /** The time input forwards its raw text, with no parsing or checking. */
  function EnterTime(s: State, raw: string): (r: State)
    ensures r.time == raw && r.date == s.date && r.calendarOpen == s.calendarOpen
  {
    s.(time := raw)
  }

  /** The popover's own open/close requests. */
  function SetCalendarOpen(s: State, open: bool): (r: State)
    ensures r.calendarOpen == open && r.date == s.date && r.time == s.time
  {
    s.(calendarOpen := open)
  }

  /** What the "Scheduled for" line shows: the day of the date and the time
      text. */
  datatype Label = Label(day: int, time: string)

  /** The "Scheduled for" line, present exactly when a date is chosen and the
      time text is non-empty. */
  function ScheduledFor(s: State): (r: Option<Label>)
    ensures r.Some? <==> s.date.Some? && s.time != ""
    ensures r.Some? ==> r.value.day == DayOf(s.date.value) && r.value.time == s.time
  {
    if s.date.Some? && |s.time| > 0 then Some(Label(DayOf(s.date.value), s.time)) else None
  }
}
