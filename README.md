# rrr rotations in Dafny

rrr is a Slack app that keeps a *rotation*: a roster of members and a queue that decides
whose turn it is, with a scheduled reminder that rotates the queue. This project models
the app's logic and proves properties about it. The Slack plumbing around that logic is
left out.

- **Rotation queue.** Skip and postpone, resetting to the roster, removing a user, and
  reconciling the queue when the roster is edited. Also the "Next up" preview shown by
  the list command.
- **Start-time resolver.** `getTriggerFrequency` and `computeStartTime` turn a schedule
  (frequency, interval, weekday anchors, `HH:MM`) into the first time the reminder fires.
  - Local time is a day number and a millisecond of that day.
  - The JavaScript weekday of day `d` is `(d + 4) % 7`; day 0 is a Thursday.
- **Schedule summary and the timezone picker.**
  - `formatSchedule` writes the English summary of a schedule.
  - A reduce groups the timezones by their first path segment.
  - A second reduce writes those groups into option groups of at most 100 entries.
- **Helpers.** `capitalize`, `timezoneToParts`, the `HH:MM` time format and the constant
  tables of frequencies and weekdays.

The modules follow the source files:

| module | file |
|---|---|
| `Consts` | `consts.dfy` |
| `Types` | `types.dfy` |
| `Utils` | `utils.dfy` |
| `RotationQueue` | `rotate.dfy` |
| `RemoveUserFromRotation` | `remove_user.dfy` |
| `UpdateRotation` | `update_rotation.dfy` |
| `UpsertRotation` | `upsert_rotation.dfy` |
| `RotationForm` | `open_rotation_form.dfy` |
| `ListRotations` | `list_rotations.dfy` |

Shared helpers live in four more modules:

- `Wrappers`: `Option` and `Result`.
- `Numbers`: decimal text.
- `SeqUtil`: index of, dedup, filter, join and split.
- `RotationRecord`: the stored rotation.

Most of the code is pure and is modelled with functions. The timezone grouping mutates a
dictionary step by step, so it is modelled with methods:

- `FileZone`, `FileAll` and `GroupByCountry` file each zone into the group of its country
  (`acc[country] ??= []; push`).
- `WriteGroup` runs the chunking `for` loop.
- `BuildOptionGroups` and `TimezoneOptionGroups` run the second reduce.

A JavaScript object is a sequence of key/value entries. Writing a key that exists
replaces its value in place; writing a new key appends it (`Put`). Each method is proved
against a specification function (`GroupsOf`, `ApplyWrites`, `Writes`).

## Model

| member | source | states |
|---|---|---|
| Consts.FrequenciesExact | consts/index.ts:3 | the frequencies are exactly daily, weekly and monthly, with no repeats |
| Consts.DaysOfWeekExact | consts/index.ts:5-13 | seven distinct days from Monday to Sunday; every day is listed and no two share a name |
| Consts.JsDayOfWeekIndexInjective | consts/index.ts:15-23 | the JavaScript day index is a bijection onto 0..6 with Sunday at 0 |
| Consts.JsDayOfWeekIndexFromPosition | consts/index.ts:5-23 | the index of the day at position k of the week list is (k + 1) mod 7 |
| Types.DayOfWeekFromName | types/index.ts:11 | a name parses to a day exactly when it is one of the seven day names, and it parses to the day of that name |
| Types.DayNameRoundTrip | types/index.ts:11 | every day's name parses back to the same day |
| Types.OtherTextIsNoDayName | types/index.ts:11 | no text outside the seven names is a day |
| Utils.CapitalizeSpec | utils/index.ts:5 | the length is kept; "" stays ""; only the first character may change, to its upper case; a text not starting with a lower-case letter is unchanged |
| Utils.CapitalizeIdempotent | utils/index.ts:5 | capitalising twice is capitalising once |
| Utils.ReplaceFirst | utils/index.ts:21 | only the first occurrence of the character is replaced; a text without it is unchanged |
| Utils.SplitFirstTwoSpec | utils/index.ts:21 | one or two parts, none holding the separator; one part exactly when the separator is absent; with two, the text begins with the first part, the separator and the second part, followed by its end or another separator |
| Utils.TimezoneToPartsSpec | utils/index.ts:21 | the first `_` becomes a space; the parts are the segment before the first `/` and the segment from there to the end or the second `/`; a zone without `/` gives a single part |
| Utils.TimezoneToPartsSingle | utils/index.ts:21 | "UTC" gives one part, so the city part is missing |
| Utils.ParseTime | utils/index.ts:9 | a valid time reads as hours 0..23 and minutes 0..59 that print back as the same text |
| Utils.TimeTextRoundTrip | types/index.ts:5-7 | every hour 0..23 and minute 0..59 prints as a valid time that parses back to the same pair |
| Numbers.NatToStringRoundTrip | functions/open_rotation_form.ts:85 | the decimal text of a number reads back as that number |
| Numbers.IntToStringInjective | functions/open_rotation_form.ts:85 | different intervals print as different texts |
| SeqUtil.KeepMembers | functions/remove_user_from_rotation.ts:50 | the filter keeps exactly the members, each as often as before, in their original order |
| SeqUtil.KeepMembersIdempotent | functions/remove_user_from_rotation.ts:50 | filtering twice against the same roster is filtering once |
| SeqUtil.KeepMembersOfSubset | functions/update_rotation.ts:122 | a queue inside the roster is left unchanged |
| SeqUtil.Dedup | functions/remove_user_from_rotation.ts:40-42 | the Set holds each element of the list once and nothing else |
| SeqUtil.DedupKeepsFirstOccurrenceOrder | functions/remove_user_from_rotation.ts:40-49 | the Set's elements come in the order of their first occurrence |
| SeqUtil.WithoutKeepsFirstOccurrenceOrder | functions/remove_user_from_rotation.ts:41 | dropping a user keeps the others in the order of their first occurrence |
| SeqUtil.JoinSplitRoundTrip | functions/open_rotation_form.ts:96 | names without commas, joined by ", ", split back into the same names |
| RotationQueue.ModeOf | functions/rotate.ts:39-43 | only "skip" skips; any other mode postpones |
| RotationQueue.Rotate | functions/rotate.ts:38-57 | rotating writes the new queue and leaves the roster and every other field as they were |
| RotationQueue.SkipDropsFront | functions/rotate.ts:39-42 | skip on a queue of two or more drops the front and shortens the queue by one |
| RotationQueue.PostponeSwapsFront | functions/rotate.ts:43-46 | postpone swaps the first two and keeps the rest; the length and the multiset are unchanged |
| RotationQueue.ExhaustedQueueResets | functions/rotate.ts:40-46 | a missing queue, or one of at most one member, resets to the roster in both modes |
| RotationQueue.RotatePreservesQueueWithinRoster | functions/rotate.ts:40-46 | if every queued user is on the roster, that still holds after rotating |
| RotationQueue.PostponeInvolution | functions/rotate.ts:44-46 | postponing twice restores the queue |
| RotationQueue.SkipsWalkRoster | functions/rotate.ts:40-42 | from a queue equal to the roster, k skips leave the roster without its first k members |
| RotationQueue.SkipCycle | functions/rotate.ts:40-42 | from a queue equal to the roster, the fronts after 1..n-1 skips are roster[1..n-1]; n skips restore the rotation, with roster[0] in front |
| RemoveUserFromRotation.ReconcileQueue | functions/remove_user_from_rotation.ts:50 | a missing queue stays missing; otherwise the queue keeps exactly the new roster's members, each as often as before, in order and never longer |
| RemoveUserFromRotation.RemoveUser | functions/remove_user_from_rotation.ts:40-50 | the user is gone; the roster has no repeats and keeps first-occurrence order; the queue is exactly the old one filtered to the new roster, repeats kept; nothing else changes |
| RemoveUserFromRotation.RemoveUserIdempotent | functions/remove_user_from_rotation.ts:40-50 | removing a user twice is removing them once |
| UpdateRotation.UpdateAsWritten | functions/update_rotation.ts:111-128 | the update as written fails on a missing queue and on any non-empty queue, and succeeds only on an empty one |
| UpdateRotation.Update | functions/update_rotation.ts:111-128 | the roster is stored as given; the queue is exactly the old one filtered to the new roster, in order, repeats kept and no newcomers; the other fields are overwritten, and on_days is kept when it is not given |
| UpdateRotation.UnboundHasRejectsKeptQueue | functions/update_rotation.ts:122 | a queue of one member who stays on the roster makes the update as written fail, while the bound filter keeps the queue |
| UpdateRotation.MissingQueueRejected | functions/update_rotation.ts:122 | a missing queue makes the update as written fail, while the guarded filter keeps it missing |
| UpdateRotation.RemovalIsRosterUpdate | functions/update_rotation.ts:111-122 | updating the roster to the one a removal leaves reconciles the queue exactly as the removal does |
| UpsertRotation.GetTriggerFrequency | functions/upsert_rotation.ts:16-38 | the type and interval pass through; daily drops on_days; every other frequency carries them |
| UpsertRotation.JsDaysOfWeekAgreesWithTable | functions/upsert_rotation.ts:40 | the Sunday-first list puts each day at its JavaScript day index |
| UpsertRotation.Least | functions/upsert_rotation.ts:62-67 | the first of the sorted offsets is the smallest one |
| UpsertRotation.AheadTodayIsKept | functions/upsert_rotation.ts:47-56 | a candidate later than now is returned as it is, whatever the frequency |
| UpsertRotation.ResultAtTimeOfDay | functions/upsert_rotation.ts:47-92 | a result is at the given time of day, on today or later; an error happens only when the candidate has passed |
| UpsertRotation.DailyPassedAddsOneDay | functions/upsert_rotation.ts:58-60 | a passed daily candidate moves exactly one day on, whatever the interval, and is then later than now |
| UpsertRotation.NearestOffsetIsNearestAnchor | functions/upsert_rotation.ts:62-68 | the smallest offset, 0..6, lands on an anchor day with no anchor before it |
| UpsertRotation.WeeklyPassedNearestAnchor | functions/upsert_rotation.ts:61-69 | a passed weekly candidate moves to the nearest anchor from today, 0..6 days on; when today is an anchor it stays at the candidate, which is not after now |
| UpsertRotation.MonthlyPassedStrictlyLater | functions/upsert_rotation.ts:71-83 | a passed monthly candidate moves 30 days on exactly when today is an anchor weekday, otherwise to the nearest anchor weekday with none skipped; either way it is later than now |
| UpsertRotation.PassedErrors | functions/upsert_rotation.ts:61-88 | after a passed candidate, an unknown frequency is a range error, missing on_days a type error and empty on_days an invalid date |
| UpsertRotation.WeeklyStartInPast | functions/upsert_rotation.ts:61-69 | on a Monday at 10:00, a weekly Monday 09:00 schedule starts at 09:00 that same day, in the past |
| UpsertRotation.WeeklyAheadOffAnchor | functions/upsert_rotation.ts:47-56 | a weekly Monday/Wednesday 09:00 schedule saved at midnight on a Tuesday starts at 09:00 that Tuesday, off its anchor days |
| UpsertRotation.NearestLaterOffsetIsNearestAnchor | functions/upsert_rotation.ts:61-69 | counting from tomorrow, the smallest offset, 1..7, lands on the next anchor day with none in between |
| UpsertRotation.NextStartTimeWeekly | functions/upsert_rotation.ts:61-69 | the corrected weekly start is always later than now, and a passed candidate moves to the next anchor day 1..7 days on |
| UpsertRotation.NextStartTimeAdvances | functions/upsert_rotation.ts:42-93 | for a valid schedule the corrected start is later than now, and resolving again from it moves on again |
| UpsertRotation.NextStartTimeAgrees | functions/upsert_rotation.ts:42-93 | the correction changes only the weekly case with a passed candidate |
| RotationForm.FormatSchedule | functions/open_rotation_form.ts:76-111 | the summary is the interval phrase, " on " and the anchor days joined by ", " for weekly and monthly, then " at " and the time; a missing on_days fails |
| RotationForm.IntervalPhraseOnce | functions/open_rotation_form.ts:78-104 | an interval of 1 reads Daily, Weekly or Monthly; an unknown frequency gives no phrase |
| RotationForm.IntervalPhraseOther | functions/open_rotation_form.ts:78-104 | an interval of 2 reads "Every other day/week/month" |
| RotationForm.IntervalPhraseCounted | functions/open_rotation_form.ts:78-104 | any other interval N reads "Every N days/weeks/months" |
| RotationForm.IntervalPhraseInjective | functions/open_rotation_form.ts:78-107 | different intervals of the same frequency read differently |
| RotationForm.DayListRoundTrip | functions/open_rotation_form.ts:96-106 | the joined anchor list splits back into the same days, in order |
| RotationForm.Put | functions/open_rotation_form.ts:12-44 | writing a key replaces its value in place, or appends a new key; other entries stay |
| RotationForm.PutKeepsOrAdds | functions/open_rotation_form.ts:12-44 | a write adds no entry but the one written |
| RotationForm.OptionsInSpec | functions/open_rotation_form.ts:10-19 | a country's options are the zones filed under it, in input order |
| RotationForm.FileZone | functions/open_rotation_form.ts:10-21 | filing one zone keeps the groups equal to the countries in first-seen order, each with its zones in input order |
| RotationForm.GroupByCountry | functions/open_rotation_form.ts:8-30 | the groups are the countries in first-seen order, each with its zones in input order |
| RotationForm.WriteGroup | functions/open_rotation_form.ts:32-55 | one group's writes go into the accumulator, whole or as slices of 100 |
| RotationForm.BuildOptionGroups | functions/open_rotation_form.ts:31-66 | the second reduce applies every group's writes in order |
| RotationForm.GroupWritesCover | functions/open_rotation_form.ts:33-51 | a group's slices concatenate back to the group exactly |
| RotationForm.GroupWritesBounded | functions/open_rotation_form.ts:33-51 | each slice has at most 100 options and is labelled by its key |
| RotationForm.GroupWritesTitles | functions/open_rotation_form.ts:42-51 | slice i of a large group is labelled "key i+1", and the labels are distinct |
| RotationForm.WritesCover | functions/open_rotation_form.ts:31-66 | all the writes together hold every zone of every group, in order |
| RotationForm.ApplyWritesDistinct | functions/open_rotation_form.ts:31-66 | writes to distinct new keys simply append |
| RotationForm.CountryGroups | functions/open_rotation_form.ts:8-30 | the grouped keys are the countries in first-seen order |
| RotationForm.TimezoneOptionGroups | functions/open_rotation_form.ts:6-67 | the option groups are the values of the second reduce over the country groups |
| RotationForm.TimezoneOptionGroupsBounded | functions/open_rotation_form.ts:31-66 | no option group has more than 100 options |
| RotationForm.ZoneInItsGroup | functions/open_rotation_form.ts:8-22 | every zone is in the group of its country |
| RotationForm.TimezoneOptionGroupsCover | functions/open_rotation_form.ts:6-67 | when no label is written twice, the option groups hold every zone exactly as grouped |
| ListRotations.NextUp | functions/list_rotations.ts:87 | the second in the queue when there are two or more, otherwise the first on the roster, missing only when both fail |
| ListRotations.NextUpAgreesWithSkip | functions/list_rotations.ts:87 | the preview names whoever a skip would put in front |
| ListRotations.SummaryTextFails | functions/list_rotations.ts:77-88 | a summary fails exactly when its schedule does, and otherwise ends with the "Next up" mention |
| ListRotations.CollectSpec | functions/list_rotations.ts:71-155 | the layout succeeds exactly when every summary does, and keeps each in place |
| ListRotations.InterleaveShape | functions/list_rotations.ts:145-153 | n pieces give 3n - 1 blocks, with summary i at 3i, buttons at 3i + 1 and a divider before every piece but the first |
| ListRotations.LayoutShape | functions/list_rotations.ts:71-155 | n rotations render as 3n - 1 blocks in order: summary, buttons and a divider between rotations |
| ListRotations.NoRotationsFallback | functions/list_rotations.ts:160-170 | zero rotations render as the fallback section alone |
| ListRotations.SomeRotationsNoFallback | functions/list_rotations.ts:160-161 | with rotations, the message is the layout itself and has no fallback section |

## Left out

- The dayjs calls are not modelled: `dayjs.tz`, `startOf`, `hour`, `minute`, `toISOString` and `format("LT z")`.
  - `now` is a parameter, already in local time.
  - Adding days with `date(n + k)` is day arithmetic.
  - Daylight-saving changes and the ISO text are outside the model.
- `formatTime` is outside the model; its text is a parameter of `FormatSchedule` and `SummaryText`. Only its `HH:MM` parse is modelled (`ParseTime`).
- `Intl.supportedValuesOf("timeZone")` is the input list of the grouping.
- The Slack SDK calls are I/O and are not modelled: `DefineFunction`, `SlackFunction`, datastore get/query/update, triggers, `chat.postEphemeral` and views.
  - The functions take the rotation they would read and return the one they would write.
  - The paginated `listRotations` loop is one of these calls.
  - The delete action handler of `functions/list_rotations.ts` is one of these calls.
- Block Kit form builders, workflows, triggers, the manifest, the concurrent deletes and the reminder message are UI, wiring or I/O.
- Blocks are abstract. A block keeps its role and its text or trigger id, but not its JSON.
  - The fallback section keeps its channel but not its wording.
  - The workflow title in the fallback text is not modelled.
- JavaScript objects list integer-like keys first, in numeric order. The grouping keys are treated as ordinary strings, which matches the IANA zone names.
- `capitalize` is modelled for ASCII letters only; other characters are unchanged.
- `repeats_every` is a JavaScript number; the model takes integers only.
- `Schedule` has no `timezone` field, yet `schedule.timezone` is read and `list_rotations` passes none. The time text is a parameter, so this does not arise in the model.
- `functions/update_rotation.ts:85` passes two arguments to the three-argument `computeStartTime`, so the trigger frequency lands in the `timezone` parameter and `frequency` is undefined. Once today's time has passed, reading `frequency.type` then throws a TypeError. The update's trigger schedule is not modelled; `Update` covers only the datastore write.
- `workflows/create_rotation.ts` imports an `UpsertRotationFunction` that is not part of this model.
- The datastore update stores `on_days` only when given. An absent value keeps the stored one, as serialising `undefined` leaves the field out.
- `GetTriggerFrequency`: the `as "monthly"` in the last branch is a type cast only, so an unknown frequency keeps its text rather than becoming "monthly"; `ComputeStartTime` then rejects it on the passed path.
- While today's time is still ahead, a weekly or monthly start is today even when today is not an anchor weekday (`WeeklyAheadOffAnchor`), and the corrected resolver keeps this. How Slack fires a scheduled trigger whose start is off its `on_days` is outside the model, so this is not recorded as a finding.
- `TimezoneOptionGroupsCover` requires that no label is written twice. A country named like another's slice label ("X 1") would overwrite it; real zone names do not do this.

## Findings

| source | as written | input that shows it | evidently intended | confidence | as-written member | corrected member |
|---|---|---|---|---|---|---|
| functions/upsert_rotation.ts:61-69 | a passed weekly candidate adds the smallest offset, which is 0 when today is an anchor day | weekly on Monday at 09:00, now Monday 10:00: the start is 09:00 today, already past | the next anchor after today, 1..7 days on, so the start is later than now | not executed | UpsertRotation.WeeklyStartInPast | UpsertRotation.NextStartTimeWeekly |
| functions/update_rotation.ts:122 | `filter(roster.has)` passes `has` without its Set, so it throws on any non-empty queue | stored queue ["U1"], new roster ["U1", "U2"] | `filter(roster.has.bind(roster))`, as in functions/remove_user_from_rotation.ts:50 | not executed | UpdateRotation.UnboundHasRejectsKeptQueue | UpdateRotation.Update |
| functions/update_rotation.ts:122 | `.filter` is called on the stored queue without `?.`, so a missing queue throws | a rotation stored without current_queue | `current_queue?.filter(...)`, as in functions/remove_user_from_rotation.ts:50 | not executed | UpdateRotation.MissingQueueRejected | UpdateRotation.Update |
