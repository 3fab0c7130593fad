/** The post form of the page: its state, the platform toggle, the submit
    check with the payload it would hand on, and the way user events reach
    the parts of the form that are on screen. */
module Form {
  import opened Wrappers
  import opened Clock
  import Selection
  import Platforms
  import Upload
  import Schedule

  /** Everything the form holds: the uploader (with the selected file), the
      two text fields, the selected platforms in selection order, and the
      schedule. */
  datatype FormState = FormState(
    upload: Upload.State,
    caption: string,
    hashtags: string,
    platforms: seq<Platforms.PlatformId>,
    schedule: Schedule.State)

  /** The form when the page opens. */
  const Initial: FormState := FormState(Upload.Empty, "", "", [], Schedule.Empty)

  /** The post the page would hand to a backend. */
  datatype Payload = Payload(
    videoName: string,
    caption: string,
    hashtags: string,
    platforms: seq<Platforms.PlatformId>,
    date: Option<Instant>,
    time: string)

  /** What an event shows the user: nothing, the refusal dialog, or the
      logged payload followed by the success dialog. */
  datatype Effect = Quiet | Rejected(message: string) | Accepted(payload: Payload, message: string)

  const MissingInputMessage: string := "Please select a video and at least one platform"
  const ScheduledMessage: string := "Post scheduled successfully!"

  /** `togglePlatform(id)`. Whether the platform is connected plays no part. */
  function TogglePlatform(s: FormState, id: Platforms.PlatformId): (r: FormState)
    ensures id in r.platforms <==> id !in s.platforms
    ensures forall other :: other != id ==> (other in r.platforms <==> other in s.platforms)
    ensures r.(platforms := s.platforms) == s
  {
    s.(platforms := Selection.Toggle(s.platforms, id))
  }

  /** `handleSchedulePost`: refused exactly when there is no file or no
      platform; otherwise the payload is the form's own values. */
  function SchedulePost(s: FormState): (e: Effect)
    ensures !e.Quiet?
    ensures e.Rejected? <==> s.upload.video.None? || |s.platforms| == 0
    ensures e.Rejected? ==> e.message == MissingInputMessage
    ensures e.Accepted? ==>
      && e.message == ScheduledMessage
      && e.payload.videoName == s.upload.video.value.name
      && e.payload.caption == s.caption
      && e.payload.hashtags == s.hashtags
      && e.payload.platforms == s.platforms
      && e.payload.date == s.schedule.date
      && e.payload.time == s.schedule.time
  {
    if s.upload.video.None? || |s.platforms| == 0 then Rejected(MissingInputMessage)
    else
      var p := Payload(s.upload.video.value.name, s.caption, s.hashtags, s.platforms,
                       s.schedule.date, s.schedule.time);
      Accepted(p, ScheduledMessage)
  }

  /** A user action on the form. Badge and preset buttons are named by their
      position on screen; events that read the clock carry the instant. */
  datatype Event =
    | Drag(eventType: string)
    | Drop(files: seq<Upload.ChosenFile>)
    | ChooseFiles(files: seq<Upload.ChosenFile>)
    | ClearVideo
    | EditCaption(text: string)
    | EditHashtags(text: string)
    | ClickBadge(index: nat)
    | ClickPreset(index: nat, now: Instant)
    | CalendarOpenChange(open: bool)
    | CalendarPick(picked: Option<Instant>, now: Instant)
    | TimeInput(raw: string)
    | SubmitPost

  datatype Outcome = Outcome(state: FormState, effect: Effect)

  /** One event. It reaches only elements that are on screen: the drop zone
      and file input while no file is selected, the clear button while one
      is, existing badges and preset buttons, and the calendar while its
      popover is open; the calendar does not deliver disabled days. */
  function Step(s: FormState, e: Event): (o: Outcome)
    ensures e.SubmitPost? ==> o.state == s && o.effect == SchedulePost(s)
    ensures !e.SubmitPost? ==> o.effect.Quiet?
    ensures !e.ClickBadge? ==> o.state.platforms == s.platforms
    ensures o.state.upload.created >= s.upload.created
  {
    match e
    case Drag(t) =>
      var u := if Upload.ShowsDropZone(s.upload) then Upload.OnDrag(s.upload, t) else s.upload;
      Outcome(s.(upload := u), Quiet)
    case Drop(files) =>
      var u := if Upload.ShowsDropZone(s.upload) then Upload.OnDrop(s.upload, files) else s.upload;
      Outcome(s.(upload := u), Quiet)
    case ChooseFiles(files) =>
      var u := if Upload.ShowsDropZone(s.upload) then Upload.OnFileChange(s.upload, files) else s.upload;
      Outcome(s.(upload := u), Quiet)
    case ClearVideo =>
      var u := if Upload.ShowsDropZone(s.upload) then s.upload else Upload.Clear(s.upload);
      Outcome(s.(upload := u), Quiet)
    case EditCaption(text) =>
      Outcome(s.(caption := text), Quiet)
    case EditHashtags(text) =>
      Outcome(s.(hashtags := text), Quiet)
    case ClickBadge(i) =>
      var r := if i < |Platforms.Registry| then TogglePlatform(s, Platforms.Registry[i].id) else s;
      Outcome(r, Quiet)
    case ClickPreset(i, now) =>
      var options := Schedule.RenderedOptions();
      var sc := if i < |options|
        then Schedule.ApplyUpdate(s.schedule, Schedule.QuickSchedule(options[i].value, now))
        else s.schedule;
      Outcome(s.(schedule := sc), Quiet)
    case CalendarOpenChange(open) =>
      Outcome(s.(schedule := Schedule.SetCalendarOpen(s.schedule, open)), Quiet)
    case CalendarPick(picked, now) =>
      var selectable := s.schedule.calendarOpen && !(picked.Some? && Schedule.IsDisabled(picked.value, now));
      var sc := if selectable then Schedule.PickDate(s.schedule, picked) else s.schedule;
      Outcome(s.(schedule := sc), Quiet)
    case TimeInput(raw) =>
      Outcome(s.(schedule := Schedule.EnterTime(s.schedule, raw)), Quiet)
    case SubmitPost =>
      Outcome(s, SchedulePost(s))
  }

  /** Submitting changes nothing, so the form is not cleared and submitting
      again has the same outcome. */
  lemma SubmitIsIdempotent(s: FormState)
    ensures Step(Step(s, SubmitPost).state, SubmitPost) == Step(s, SubmitPost)
  {
  }

  /** A day before today cannot be picked, whatever the form holds. */
  lemma PastDayNotPickable(s: FormState, d: Instant, now: Instant)
    requires DayOf(d) < DayOf(now)
    ensures Step(s, CalendarPick(Some(d), now)).state == s
  {
  }

  /** The unconnected YouTube badge selects YouTube like any other badge. */
  lemma UnconnectedPlatformSelectable(s: FormState)
    requires Platforms.YouTube !in s.platforms
    ensures !Platforms.Registry[2].isConnected
    ensures Platforms.YouTube in Step(s, ClickBadge(2)).state.platforms
  {
  }

  /** After a preset button, the "Scheduled for" line is shown with the
      preset's day and time. */
  lemma PresetShowsLabel(s: FormState, i: nat, now: Instant)
    requires i < |Schedule.RenderedOptions()|
    ensures Schedule.ScheduledFor(Step(s, ClickPreset(i, now)).state.schedule).Some?
    ensures
      var u := Schedule.QuickSchedule(Schedule.RenderedOptions()[i].value, now);
      Schedule.ScheduledFor(Step(s, ClickPreset(i, now)).state.schedule)
        == Some(Schedule.Label(DayOf(u.date), u.time))
  {
    Schedule.RenderedOptionsAllSchedule(now);
    var u := Schedule.QuickSchedule(Schedule.RenderedOptions()[i].value, now);
    assert u.SetBoth?;
    assert |u.time| == 5;
  }

  /** After typing a time, the "Scheduled for" line is shown exactly when a
      date is set and the typed text is non-empty. */
  lemma TimeInputShowsLabel(s: FormState, raw: string)
    ensures Schedule.ScheduledFor(Step(s, TimeInput(raw)).state.schedule).Some?
        <==> s.schedule.date.Some? && raw != ""
  {
  }

  /** What holds of every form the user can reach: no platform is selected
      twice, and the selected file and its preview go together. */
  ghost predicate Inv(s: FormState) {
    && Selection.NoDup(s.platforms)
    && Upload.Consistent(s.upload)
  }

  lemma InitialInv()
    ensures Inv(Initial)
    ensures Initial.upload.video.None? && Initial.upload.preview.None? && Initial.platforms == []
  {
  }

  lemma StepKeepsInv(s: FormState, e: Event)
    requires Inv(s)
    ensures Inv(Step(s, e).state)
  {
    if e.ClickBadge? && e.index < |Platforms.Registry| {
      var id := Platforms.Registry[e.index].id;
      Selection.ToggleKeepsNoDup(s.platforms, id);
    }
  }

  /** The form after the events, one after another. */
  function Run(s: FormState, events: seq<Event>): FormState
    decreases |events|
  {
    if |events| == 0 then s else Run(Step(s, events[0]).state, events[1..])
  }

  /** Any run of events keeps the invariant, and preview handles are only
      ever added, never released. */
  lemma {:induction false} RunKeepsInv(s: FormState, events: seq<Event>)
    requires Inv(s)
    ensures Inv(Run(s, events))
    ensures Run(s, events).upload.created >= s.upload.created
    decreases |events|
  {
    if |events| > 0 {
      StepKeepsInv(s, events[0]);
      RunKeepsInv(Step(s, events[0]).state, events[1..]);
    }
  }

  /** Every reachable form has no duplicate platforms, and shows the player
      exactly when it hides the drop zone. Every selected platform has a
      badge because every id has one. */
  lemma Reachable(events: seq<Event>)
    ensures Selection.NoDup(Run(Initial, events).platforms)
    ensures forall id :: id in Run(Initial, events).platforms ==> Platforms.InRegistry(id)
    ensures Upload.ShowsPlayer(Run(Initial, events).upload) <==> !Upload.ShowsDropZone(Run(Initial, events).upload)
  {
    InitialInv();
    RunKeepsInv(Initial, events);
    Platforms.RegistryShape();
    Upload.ViewIsExclusive(Run(Initial, events).upload);
  }
}
