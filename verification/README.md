# Video post scheduler form, modelled in Dafny

The scheduler is a single-page form. The user picks a video file, writes a
caption and hashtags, toggles destination platforms (TikTok, Instagram Reels,
YouTube Shorts), and chooses a date and time, either by hand or with a quick
preset. When the form is submitted it is checked for a video and at least one
platform. A valid form yields a post payload, which is only logged.

This project models the state logic under that form as pure functions over
immutable records:

- `Selection`: the toggle on the ordered list of selected ids. It is generic
  in the element type.
- `Platforms`: the platform ids, the three-entry registry, and the strings the
  page stores for the ids.
- `Clock`: local time as integer milliseconds. A day is
  `86_400_000` ms, the start of a day is midnight, and `HH:mm` strings are
  formatted and parsed.
- `Schedule`: the quick presets ("now", "1h", "tomorrow", and "custom", which
  is a no-op), the rendered preset buttons, the calendar's disabled-day rule,
  the manual date and time inputs, and the "Scheduled for" label.
- `Upload`: drag highlighting, drop and file-input selection, preview
  handles, clearing, and which view is shown.
- `Form`: the page's state, `togglePlatform`, `handleSchedulePost`, one step
  per user event, and the invariant kept by every reachable form.

A few choices shape the model:

- The page stores selected ids as strings. The model keeps `PlatformId`
  values instead. `Platforms.NamesToggle` shows that toggling ids and then
  writing them as strings gives the same list as toggling the strings.
- The selected file is owned by the page, and the uploader only receives it.
  The model keeps it in `Upload.State` next to the uploader's own `dragActive`
  and `preview`.
- `URL.createObjectURL` is modelled as a counter of created handles. Each
  handle is numbered by its creation order. Nothing in the code revokes a
  handle, so every created handle stays outstanding.
- `Form.Step` delivers an event only to an element that is on screen:
  - The drop zone and its hidden file input exist only while no file is
    selected.
  - The clear button exists only while a file is selected.
  - Badges and preset buttons are addressed by their position.
  - The calendar exists only while its popover is open, and it does not
    deliver disabled days.
- The clock, `alert` and `console.log` are not called. An event that reads the
  clock carries the instant. Alerts and the logged payload are the `Effect`
  an event returns.

Three behaviours of the code are easy to miss:

- The file input accepts the first chosen file without checking its type.
  Only the `accept="video/*"` attribute hints at a filter. Drops are checked.
- Preview handles are never released, neither on replacement nor on clear.
- The selected platforms are an ordered list, not a set. An absent id is
  appended at the end. `Form.Reachable` proves that the list never holds an id
  twice.

## Model

| member | source | states |
|---|---|---|
| Selection.Remove | src/pages/Index.tsx:31 | The filter leaves no copy of the id. It keeps every other id that was present and adds nothing. The multiset of elements loses exactly the id's copies, the length drops by their number, and a list without the id is returned unchanged. |
| Selection.RemoveConcat | src/pages/Index.tsx:31 | Filtering a concatenation is filtering each part and concatenating, so the survivors keep their original relative order. |
| Selection.RemoveSingle | src/pages/Index.tsx:31 | A single element survives the filter exactly when it is not the removed id. |
| Selection.Toggle | src/pages/Index.tsx:28-34 | The toggled id's membership flips and every other id's membership is unchanged. An absent id is appended after the unchanged old list. A present id loses all of its copies and nothing else. |
| Selection.ToggleTwice | src/pages/Index.tsx:28-34 | Toggling the same id twice restores membership of every id. From an absent id it restores the exact list. From a present id, the id moves to the end. |
| Selection.RemoveKeepsNoDup | src/pages/Index.tsx:31 | Filtering a duplicate-free list leaves it duplicate-free. |
| Selection.ConsKeepsNoDup | src/pages/Index.tsx:31 | The filter's keep step: an element placed in front of a duplicate-free rest that does not hold it gives a duplicate-free list. |
| Selection.AppendKeepsNoDup | src/pages/Index.tsx:32 | Appending an absent id to a duplicate-free list keeps it duplicate-free. |
| Selection.ToggleKeepsNoDup | src/pages/Index.tsx:28-34 | A toggle keeps a duplicate-free list duplicate-free. |
| Selection.TogglesFromEmpty | src/pages/Index.tsx:17-34 | Starting from the empty list, any run of toggles gives a duplicate-free list. An id is then selected exactly when it was toggled an odd number of times. |
| Platforms.RegistryShape | src/pages/Index.tsx:22-26 | Every id has a badge, no two badges share an id, and a badge is unconnected exactly when it is YouTube's. |
| Platforms.IdNameInjective | src/types/index.ts:16 | The three id strings are pairwise distinct. |
| Platforms.NamesInjective | src/pages/Index.tsx:17 | Two id lists give the same string list exactly when they are the same list, so the page's `string[]` and the model's id list carry the same information. |
| Platforms.NamesMember | src/pages/Index.tsx:30 | `includes` on the string list answers the same as membership on the id list. |
| Platforms.NamesRemove | src/pages/Index.tsx:31 | Filtering commutes with writing the ids as strings. |
| Platforms.NamesToggle | src/pages/Index.tsx:28-34 | Toggling commutes with writing the ids as strings, so the model's toggle is the page's toggle on `string[]`. |
| Clock.MsOfDay | src/components/ScheduleSelector.tsx:102 | The time into the day lies in [0, one day). Day times one day plus that time gives the instant back. |
| Clock.At | src/components/ScheduleSelector.tsx:49-51 | Building an instant from a day and a time into the day is the inverse of splitting it. |
| Clock.StartOfDay | src/components/ScheduleSelector.tsx:102 | `setHours(0, 0, 0, 0)` is midnight of the same day, at most the instant and less than one day before it. |
| Clock.MinuteOfDay | src/components/ScheduleSelector.tsx:41 | The clock minute is in [0, 1440) and is the whole minutes elapsed since midnight. |
| Clock.DigitValue | src/components/ScheduleSelector.tsx:41 | A character is a digit exactly when it has a value, and that value's character is the same character. |
| Clock.ParseFormat | src/components/ScheduleSelector.tsx:41 | Reading back an `HH:mm` string formatted from a minute of the day gives that minute. |
| Clock.FormatHHmm | src/components/ScheduleSelector.tsx:41-46 | `format(t, 'HH:mm')` is a five-character `HH:mm` string that reads back as the instant's minute of the day. |
| Clock.FormatParse | src/components/ScheduleSelector.tsx:41 | Every well-formed `HH:mm` string is the formatting of the minute it reads as, so strings and minutes correspond one to one. |
| Clock.HourLater | src/components/ScheduleSelector.tsx:44 | An instant 3,600,000 ms later shows 60 minutes later on the clock, wrapping past midnight. |
| Schedule.QuickSchedule | src/components/ScheduleSelector.tsx:35-56 | "now", "1h" and "tomorrow" set date and time, and every other value changes nothing. "now" uses the current instant and its clock time. "1h" uses an instant 3,600,000 ms later and that instant's clock time, 60 minutes later. "tomorrow" uses the next calendar day at 09:00:00.000 with time "09:00", which agrees with that instant's clock. |
| Schedule.TomorrowIgnoresTimeOfDay | src/components/ScheduleSelector.tsx:48-54 | "tomorrow" gives the same date and time for any two instants of the same day. |
| Schedule.DropLast | src/components/ScheduleSelector.tsx:64 | `slice(0, -1)` keeps every element but the last, in order, and gives nothing for an empty list. |
| Schedule.RenderedOptionsAllSchedule | src/components/ScheduleSelector.tsx:28-64 | Three buttons are rendered. None of them is "custom", and each one sets a date and time. "custom" would change nothing. |
| Schedule.ApplyUpdate | src/components/ScheduleSelector.tsx:39-53 | A preset's date and time both reach the page, or nothing changes. The popover is untouched. |
| Schedule.IsDisabled | src/components/ScheduleSelector.tsx:102 | A date is disabled exactly when its calendar day is before today's. |
| Schedule.PickDate | src/components/ScheduleSelector.tsx:98-101 | The picked date, or none, is forwarded, the time is kept, and the popover closes. |
| Schedule.EnterTime | src/components/ScheduleSelector.tsx:115 | The raw input text becomes the time unchanged, and nothing else changes. |
| Schedule.SetCalendarOpen | src/components/ScheduleSelector.tsx:84 | The popover opens or closes as asked, and the date and time are kept. |
| Schedule.ScheduledFor | src/components/ScheduleSelector.tsx:121-125 | The combined label appears exactly when a date is set and the time text is non-empty. It shows that date's day and the time text. |
| Upload.OnDrag | src/components/VideoUploader.tsx:17-25 | "dragenter" and "dragover" set the highlight, and "dragleave" clears it. Any other type changes nothing, and nothing but the highlight ever changes. |
| Upload.Select | src/components/VideoUploader.tsx:49-52 | The file becomes the selection with a preview handle different from every earlier one. One more handle exists, and the selection and preview agree. |
| Upload.OnDrop | src/components/VideoUploader.tsx:27-39 | Every drop clears the highlight. A first file whose type starts with "video/" is selected with a fresh preview. Otherwise the selection, preview and handle count are unchanged. |
| Upload.DropIgnoresLaterFiles | src/components/VideoUploader.tsx:32-33 | A drop behaves as a drop of its first file alone. |
| Upload.OnFileChange | src/components/VideoUploader.tsx:41-47 | The first chosen file of any type is selected with a fresh preview and the highlight is kept. No file changes nothing. |
| Upload.FileInputHasNoTypeCheck | src/components/VideoUploader.tsx:32-46 | A non-video file is refused by a drop but taken by the file input. |
| Upload.Clear | src/components/VideoUploader.tsx:54-57 | Clearing leaves no file and no preview. The highlight and the handle count are kept, so no handle is released. |
| Upload.ViewIsExclusive | src/components/VideoUploader.tsx:71-117 | In a consistent state the player is shown exactly when the drop zone is hidden. |
| Upload.SelectThenClear | src/components/VideoUploader.tsx:49-57 | Selecting and then clearing returns to no file and no preview, with one more outstanding handle than before. |
| Form.TogglePlatform | src/pages/Index.tsx:28-34 | The toggled platform's membership flips and no other membership changes. Nothing else in the form changes, and the connection flag is not read. |
| Form.SchedulePost | src/pages/Index.tsx:36-53 | The form is refused with the missing-input message exactly when there is no video or no platform. Otherwise it is accepted with the success message. The payload then carries the file name, caption, hashtags, platform list, date and time unchanged. |
| Form.Step | src/pages/Index.tsx:111-157 | Submitting leaves the form unchanged and reports the submit outcome. No other event shows anything. Only a badge click changes the platforms, and no event removes a preview handle. |
| Form.SubmitIsIdempotent | src/pages/Index.tsx:36-53 | The form is not cleared by a submit, so submitting again has the same outcome. |
| Form.PastDayNotPickable | src/components/ScheduleSelector.tsx:95-102 | A day before today cannot be picked, whatever the form holds. |
| Form.UnconnectedPlatformSelectable | src/pages/Index.tsx:25-34 | The YouTube badge is unconnected, yet clicking it selects YouTube. |
| Form.PresetShowsLabel | src/components/ScheduleSelector.tsx:64-125 | After any rendered preset button, the "Scheduled for" line is shown, with the preset's day and time. |
| Form.TimeInputShowsLabel | src/components/ScheduleSelector.tsx:115-125 | After typing a time, the "Scheduled for" line is shown exactly when a date is set and the typed text is non-empty. |
| Form.InitialInv | src/pages/Index.tsx:15-20 | The opening form has no platform selected and no file or preview, so it satisfies the invariant. |
| Form.StepKeepsInv | src/pages/Index.tsx:111-152 | Every event keeps the invariant: no duplicate platforms, and a file exactly when there is a preview, with a handle that was created. |
| Form.RunKeepsInv | src/pages/Index.tsx:111-152 | Every run of events keeps the invariant, and the number of outstanding preview handles never decreases. |
| Form.Reachable | src/components/PlatformSelector.tsx:23-31 | Every form reachable from the opening one has duplicate-free platforms, all drawn from the registry (a fact of the id type, since `Platforms.RegistryShape` gives every id a badge). It shows the player exactly when the drop zone is hidden. |

## Left out

- Rendering, styling, the theme, the router, the query client and the toaster are not modelled. They hold no state logic.
- The stats cards, the mock "Upcoming Posts" list and the "Save as Draft" button are not modelled. They are fixed display data, and the button has no handler.
- `formatFileSize` is not modelled. It uses floating-point logarithms and decimal rounding.
- The platform selector's badge colours, connected dot and "select at least one platform" hint are display only. Its one action, forwarding a badge's id on click, is `Form.ClickBadge`.
- `VideoPost`, `Analytics`, `PostAnalytics` and `ScheduleOptions` are declared but never built, so nothing is stated about them.
- `alert`, `console.log`, `URL.createObjectURL` and the programmatic click on the hidden input are browser calls. They are modelled as an `Effect` value, a handle counter, and the `ChooseFiles` event.
- Time zones and daylight-saving shifts are not modelled. Every local day is exactly 24 hours.
- JavaScript's `Date` range limit of ±8.64e15 ms is not modelled. The invalid dates a preset could produce at the edge of that range are left out.
- The date-fns `format` patterns "MMM d, yyyy" and "EEEE, MMMM d, yyyy" and the "Pick date" button text are not modelled.
- Schedule.ScheduledFor: the label carries the day number of the date rather than the weekday, month and year text date-fns would print.
- The calendar and popover widgets are not modelled internally. The model assumes the calendar only offers days it does not disable, and an unselected day arrives as "no date".
