/**
 * The schedule resolver of functions/upsert_rotation.ts: the recurrence handed to
 * the scheduler, and the first time a new or edited rotation fires.
 *
 * Local wall-clock time is a day number (day 0 is 1970-01-01) and a millisecond
 * within that day; converting it to and from an instant in the rotation's time
 * zone is outside the model.
 */
module UpsertRotation {
  import opened Wrappers
  import opened SeqUtil
  import opened Consts
  import opened Types
  import opened Utils
  import opened RotationRecord

  /** `ScheduledTriggerFrequency`: the recurrence part of a scheduled trigger. */
  datatype TriggerFrequency = TriggerFrequency(kind: string, repeatsEvery: int, onDays: Option<seq<DayOfWeek>>)

  /**
   * `getTriggerFrequency`: the type and interval pass through unchanged (the
   * "monthly" in the last branch is a type assertion, not a value), and every
   * frequency but "daily" carries the schedule's `on_days`.
   */
  function GetTriggerFrequency(schedule: Schedule): (f: TriggerFrequency)
    ensures f.kind == schedule.frequency && f.repeatsEvery == schedule.repeatsEvery
    ensures f.onDays == if schedule.frequency == "daily" then None else schedule.onDays
  {
    if schedule.frequency == "daily" then
      TriggerFrequency(schedule.frequency, schedule.repeatsEvery, None)
    else if schedule.frequency == "weekly" then
      TriggerFrequency(schedule.frequency, schedule.repeatsEvery, schedule.onDays)
    else
      TriggerFrequency(schedule.frequency, schedule.repeatsEvery, schedule.onDays)
  }

  /** `jsDaysOfWeek`: the week table rotated to start on Sunday. */
  const JsDaysOfWeek: seq<DayOfWeek> := [DaysOfWeek[6]] + DaysOfWeek[..6]

  /**
   * The position of a day in `jsDaysOfWeek` is its `jsDayOfWeekIndices` number,
   * and the positions 0..6 name every day once.
   */
  lemma JsDaysOfWeekAgreesWithTable()
    ensures |JsDaysOfWeek| == 7 && JsDaysOfWeek[0] == Sunday
    ensures forall d :: IndexOf(JsDaysOfWeek, d) == JsDayOfWeekIndex(d)
    ensures forall i :: 0 <= i < 7 ==> JsDayOfWeekIndex(JsDaysOfWeek[i]) == i
  {
    assert JsDaysOfWeek == [Sunday, Monday, Tuesday, Wednesday, Thursday, Friday, Saturday];
    forall d ensures IndexOf(JsDaysOfWeek, d) == JsDayOfWeekIndex(d) {
      JsDayPosition(d);
    }
  }

  /** The position of one weekday in the JavaScript list is its JavaScript number, 0..6. */
  lemma JsDayPosition(d: DayOfWeek)
    ensures IndexOf(JsDaysOfWeek, d) == JsDayOfWeekIndex(d) < 7
  {
    assert JsDaysOfWeek == [Sunday, Monday, Tuesday, Wednesday, Thursday, Friday, Saturday];
    var i := JsDayOfWeekIndex(d);
    assert JsDaysOfWeek[i] == d;
    assert d !in JsDaysOfWeek[..i];
  }

  /** Local wall-clock time. */
  datatype LocalTime = LocalTime(day: int, ms: nat)

  const MsPerMinute: nat := 60000
  const MsPerDay: nat := 86400000

  predicate ValidTime(t: LocalTime) {
    t.ms < MsPerDay
  }

  /** Milliseconds since day 0 began: the order in which `<=` compares two times. */
  function Ms(t: LocalTime): int {
    t.day * MsPerDay + t.ms
  }

  /** `day()`: the JavaScript weekday (0 = Sunday) of a day number; day 0 was a Thursday. */
  function JsWeekday(day: int): nat {
    (day + 4) % 7
  }

  /** The exceptions the resolver can raise. */
  datatype StartTimeError =
    | UnknownFrequency  // the RangeError of the `default` branch
    | OnDaysMissing     // `on_days!.map` on a missing list
    | InvalidDate       // `sortedDays[0]` of an empty list makes the date NaN

  /** The millisecond of the day at which `time` falls. */
  function TimeOfDay(time: string): (ms: nat)
    requires IsTime(time)
    ensures ms < MsPerDay
  {
    var hm := ParseTime(time);
    (hm.0 * 60 + hm.1) * MsPerMinute
  }

  /** `startDate` before any adjustment: today, at `time`. */
  function Candidate(time: string, now: LocalTime): LocalTime
    requires IsTime(time)
  {
    LocalTime(now.day, TimeOfDay(time))
  }

  /** `(jsDaysOfWeek.indexOf(day) - now.day() + 7) % 7`: days from `today` to the next `day`, 0 if it is today. */
  function DaysUntil(day: DayOfWeek, today: nat): int {
    (IndexOf(JsDaysOfWeek, day) - today + 7) % 7
  }

  /** `on_days.map(...)`: the offset to each anchor, in the order of the anchors. */
  function Offsets(days: seq<DayOfWeek>, today: nat): (r: seq<int>)
    ensures |r| == |days|
  {
    seq(|days|, i requires 0 <= i < |days| => DaysUntil(days[i], today))
  }

  /** `.sort((a, b) => a - b)[0]`: the least number of a non-empty list. */
  function Least(xs: seq<int>): (m: int)
    requires |xs| > 0
    ensures m in xs
    ensures forall i :: 0 <= i < |xs| ==> m <= xs[i]
  {
    if |xs| == 1 then xs[0]
    else
      var rest := Least(xs[1..]);
      if xs[0] <= rest then xs[0] else rest
  }

  /** Where the least number of a non-empty list stands. */
  lemma LeastAt(xs: seq<int>) returns (i: nat)
    requires |xs| > 0
    ensures i < |xs| && xs[i] == Least(xs)
  {
    i :| 0 <= i < |xs| && xs[i] == Least(xs);
  }

  /**
   * `computeStartTime`: today at `time` if that is still ahead of `now`;
   * otherwise one day later (daily), the nearest anchor weekday counting today
   * (weekly), or that anchor with today replaced by 30 days on (monthly).
   */
  function ComputeStartTime(time: string, frequency: TriggerFrequency, now: LocalTime): Result<LocalTime, StartTimeError>
    requires IsTime(time) && ValidTime(now)
  {
    var candidate := Candidate(time, now);
    if Ms(candidate) > Ms(now) then Ok(candidate)
    else if frequency.kind == "daily" then Ok(candidate.(day := now.day + 1))
    else if frequency.kind == "weekly" || frequency.kind == "monthly" then
      match frequency.onDays
      case None => Err(OnDaysMissing)
      case Some(days) =>
        if |days| == 0 then Err(InvalidDate)
        else
          var d := Least(Offsets(days, JsWeekday(now.day)));
          if frequency.kind == "weekly" then Ok(candidate.(day := now.day + d))
          else Ok(candidate.(day := now.day + d + (if d <= 0 then 30 else 0)))
    else Err(UnknownFrequency)
  }

  // ---------------------------------------------------------------------------
  // Weekday arithmetic

  /** A weekday offset never needs JavaScript's negative remainder: its dividend is 1..13. */
  lemma DaysUntilRange(day: DayOfWeek, today: nat)
    requires today < 7
    ensures 0 <= DaysUntil(day, today) < 7
    ensures 0 < IndexOf(JsDaysOfWeek, day) - today + 7 < 14
  {
    JsDayPosition(day);
  }

  /** Moving `k` days on from `day` moves the weekday `k` steps round the week. */
  lemma JsWeekdayAfter(day: int, k: int, idx: int)
    requires 0 <= k < 7 && 0 <= idx < 7
    ensures JsWeekday(day + k) == idx <==> (idx - JsWeekday(day) + 7) % 7 == k
  {
    var w := JsWeekday(day);
    var q := (day + 4) / 7;
    assert day + 4 == 7 * q + w;
    assert day + k + 4 == 7 * q + (w + k);
    if w + k < 7 {
      assert JsWeekday(day + k) == w + k;
    } else {
      assert day + k + 4 == 7 * (q + 1) + (w + k - 7);
      assert JsWeekday(day + k) == w + k - 7;
    }
  }

  /** The weekdays of the anchors, as JavaScript numbers them. */
  predicate IsAnchorWeekday(days: seq<DayOfWeek>, weekday: int) {
    exists i :: 0 <= i < |days| && JsDayOfWeekIndex(days[i]) == weekday
  }

  /** The weekday of one of the anchors is an anchor weekday. */
  lemma AnchorAt(days: seq<DayOfWeek>, i: nat, weekday: int)
    requires i < |days| && JsDayOfWeekIndex(days[i]) == weekday
    ensures IsAnchorWeekday(days, weekday)
  {
  }

  /**
   * The nearest offset lands on an anchor weekday, and no day from `now` up to it
   * falls on one.
   */
  lemma NearestOffsetIsNearestAnchor(days: seq<DayOfWeek>, day: int)
    requires |days| > 0
    ensures 0 <= Least(Offsets(days, JsWeekday(day))) < 7
    ensures IsAnchorWeekday(days, JsWeekday(day + Least(Offsets(days, JsWeekday(day)))))
    ensures forall t :: day <= t < day + Least(Offsets(days, JsWeekday(day))) ==> !IsAnchorWeekday(days, JsWeekday(t))
  {
    NearestOffsetLands(days, day);
    NearestOffsetSkipsNone(days, day);
  }

  /** The least offset is 0..6 and lands on an anchor weekday. */
  lemma NearestOffsetLands(days: seq<DayOfWeek>, day: int)
    requires |days| > 0
    ensures 0 <= Least(Offsets(days, JsWeekday(day))) < 7
    ensures IsAnchorWeekday(days, JsWeekday(day + Least(Offsets(days, JsWeekday(day)))))
  {
    var offsets := Offsets(days, JsWeekday(day));
    var i := LeastAt(offsets);
    OffsetLands(days, day, i);
    AnchorAt(days, i, JsWeekday(day + offsets[i]));
  }

  /** The offset to anchor `i` is 0..6 and lands on its weekday. */
  lemma OffsetLands(days: seq<DayOfWeek>, day: int, i: nat)
    requires i < |days|
    ensures 0 <= Offsets(days, JsWeekday(day))[i] < 7
    ensures JsWeekday(day + Offsets(days, JsWeekday(day))[i]) == JsDayOfWeekIndex(days[i])
  {
    AnchorOffset(days[i], day);
  }

  /** No day before the least offset falls on an anchor weekday. */
  lemma NearestOffsetSkipsNone(days: seq<DayOfWeek>, day: int)
    requires |days| > 0
    ensures forall t :: day <= t < day + Least(Offsets(days, JsWeekday(day))) ==> !IsAnchorWeekday(days, JsWeekday(t))
  {
    var offsets := Offsets(days, JsWeekday(day));
    var d := Least(offsets);
    forall t | day <= t < day + d ensures !IsAnchorWeekday(days, JsWeekday(t)) {
      forall j | 0 <= j < |days| ensures JsDayOfWeekIndex(days[j]) != JsWeekday(t) {
        assert d <= offsets[j];
        NoAnchorBefore(days[j], day, t);
      }
    }
  }

  /** No day before the offset to an anchor falls on that anchor's weekday. */
  lemma NoAnchorBefore(anchor: DayOfWeek, day: int, t: int)
    requires day <= t < day + DaysUntil(anchor, JsWeekday(day))
    ensures JsDayOfWeekIndex(anchor) != JsWeekday(t)
  {
    AnchorOffset(anchor, day);
    JsWeekdayAfter(day, t - day, JsDayOfWeekIndex(anchor));
    assert day + (t - day) == t;
  }

  /** The offset to an anchor is 0..6 and lands on the anchor's weekday. */
  lemma AnchorOffset(anchor: DayOfWeek, day: int)
    ensures 0 <= DaysUntil(anchor, JsWeekday(day)) < 7
    ensures DaysUntil(anchor, JsWeekday(day)) == (JsDayOfWeekIndex(anchor) - JsWeekday(day) + 7) % 7
    ensures JsWeekday(day + DaysUntil(anchor, JsWeekday(day))) == JsDayOfWeekIndex(anchor)
  {
    JsDayPosition(anchor);
    var d := DaysUntil(anchor, JsWeekday(day));
    JsWeekdayAfter(day, d, JsDayOfWeekIndex(anchor));
  }

  // ---------------------------------------------------------------------------
  // Properties of the resolver as written

  /** A time still ahead today is returned as it is, whatever the frequency or anchors. */
  lemma AheadTodayIsKept(time: string, frequency: TriggerFrequency, now: LocalTime)
    requires IsTime(time) && ValidTime(now)
    requires Ms(Candidate(time, now)) > Ms(now)
    ensures ComputeStartTime(time, frequency, now) == Ok(LocalTime(now.day, TimeOfDay(time)))
  {
  }

  /** Every result falls at `time`, on `now`'s day or later; errors arise only once today's time has passed. */
  lemma ResultAtTimeOfDay(time: string, frequency: TriggerFrequency, now: LocalTime)
    requires IsTime(time) && ValidTime(now)
    ensures var r := ComputeStartTime(time, frequency, now);
      && (r.Ok? ==> r.value.ms == TimeOfDay(time) && ValidTime(r.value) && r.value.day >= now.day)
      && (r.Err? ==> Ms(Candidate(time, now)) <= Ms(now))
  {
    var r := ComputeStartTime(time, frequency, now);
    if r.Ok? && Ms(Candidate(time, now)) <= Ms(now) && frequency.kind != "daily" {
      var days := frequency.onDays.value;
      NearestOffsetIsNearestAnchor(days, now.day);
    }
  }

  /** Daily, once today's time has passed: exactly one day later, whatever the interval, so strictly after `now`. */
  lemma DailyPassedAddsOneDay(time: string, frequency: TriggerFrequency, now: LocalTime)
    requires IsTime(time) && ValidTime(now)
    requires frequency.kind == "daily" && Ms(Candidate(time, now)) <= Ms(now)
    ensures ComputeStartTime(time, frequency, now) == Ok(LocalTime(now.day + 1, TimeOfDay(time)))
    ensures Ms(LocalTime(now.day + 1, TimeOfDay(time))) > Ms(now)
  {
  }

  /**
   * Weekly, once today's time has passed: the nearest anchor weekday counting
   * today, at `time`. When today is an anchor that is today itself, which is not
   * after `now`.
   */
  lemma WeeklyPassedNearestAnchor(time: string, days: seq<DayOfWeek>, repeatsEvery: int, now: LocalTime)
    requires IsTime(time) && ValidTime(now) && |days| > 0
    requires Ms(Candidate(time, now)) <= Ms(now)
    ensures var r := ComputeStartTime(time, TriggerFrequency("weekly", repeatsEvery, Some(days)), now);
      && r.Ok?
      && 0 <= r.value.day - now.day < 7
      && IsAnchorWeekday(days, JsWeekday(r.value.day))
      && (forall t :: now.day <= t < r.value.day ==> !IsAnchorWeekday(days, JsWeekday(t)))
      && (IsAnchorWeekday(days, JsWeekday(now.day)) <==> r.value == Candidate(time, now))
      && (IsAnchorWeekday(days, JsWeekday(now.day)) ==> Ms(r.value) <= Ms(now))
  {
    NearestOffsetIsNearestAnchor(days, now.day);
  }

  /**
   * Monthly, once today's time has passed: 30 days on exactly when today is an
   * anchor weekday, otherwise the nearest anchor weekday with none skipped; the
   * offset is 1..6 or 30, so the result is after `now`.
   */
  lemma MonthlyPassedStrictlyLater(time: string, days: seq<DayOfWeek>, repeatsEvery: int, now: LocalTime)
    requires IsTime(time) && ValidTime(now) && |days| > 0
    requires Ms(Candidate(time, now)) <= Ms(now)
    ensures var r := ComputeStartTime(time, TriggerFrequency("monthly", repeatsEvery, Some(days)), now);
      && r.Ok?
      && r.value.ms == TimeOfDay(time)
      && (1 <= r.value.day - now.day <= 6 || r.value.day - now.day == 30)
      && (IsAnchorWeekday(days, JsWeekday(now.day)) <==> r.value.day == now.day + 30)
      && (!IsAnchorWeekday(days, JsWeekday(now.day)) ==>
            && IsAnchorWeekday(days, JsWeekday(r.value.day))
            && forall t :: now.day <= t < r.value.day ==> !IsAnchorWeekday(days, JsWeekday(t)))
      && Ms(r.value) > Ms(now)
  {
    NearestOffsetIsNearestAnchor(days, now.day);
  }

  /**
   * Once today's time has passed, an unknown frequency raises the RangeError, and
   * weekly or monthly need anchors: a missing list or an empty one raises.
   */
  lemma PassedErrors(time: string, frequency: TriggerFrequency, now: LocalTime)
    requires IsTime(time) && ValidTime(now)
    requires Ms(Candidate(time, now)) <= Ms(now)
    ensures var r := ComputeStartTime(time, frequency, now);
      && (frequency.kind !in Frequencies <==> r == Err(UnknownFrequency))
      && (frequency.kind in ["weekly", "monthly"] && frequency.onDays.None? <==> r == Err(OnDaysMissing))
      && (frequency.kind in ["weekly", "monthly"] && frequency.onDays == Some([]) <==> r == Err(InvalidDate))
  {
  }

  /**
   * A weekly rotation anchored on Mondays, due at 09:00 and saved on a Monday at
   * 10:00, is given a start an hour in the past rather than the next Monday.
   */
  lemma WeeklyStartInPast()
    ensures IsTime("09:00") && ValidTime(LocalTime(4, 36000000)) && JsWeekday(4) == 1
    ensures ComputeStartTime("09:00", TriggerFrequency("weekly", 1, Some([Monday])), LocalTime(4, 36000000))
         == Ok(LocalTime(4, 32400000))
  {
    NineOClock();
    assert JsWeekday(4) == 1;
    assert Offsets([Monday], 1) == [0] by {
      JsDayPosition(Monday);
    }
  }

  /**
   * A weekly rotation anchored on Mondays and Wednesdays, due at 09:00 and saved
   * on a Tuesday at midnight, is given a start at 09:00 that Tuesday, which is
   * not an anchor weekday.
   */
  lemma WeeklyAheadOffAnchor()
    ensures IsTime("09:00") && ValidTime(LocalTime(5, 0)) && JsWeekday(5) == 2
    ensures !IsAnchorWeekday([Monday, Wednesday], JsWeekday(5))
    ensures ComputeStartTime("09:00", TriggerFrequency("weekly", 1, Some([Monday, Wednesday])), LocalTime(5, 0))
         == Ok(LocalTime(5, 32400000))
  {
    NineOClock();
    assert JsWeekday(5) == 2;
  }

  /** "09:00" is a valid time, nine hours into the day. */
  lemma NineOClock()
    ensures IsTime("09:00") && TimeOfDay("09:00") == 32400000
  {
    TimeTextRoundTrip(9, 0);
    assert TimeText(9, 0) == "09:00";
  }

  // ---------------------------------------------------------------------------
  // The resolver as intended

  /** Days from `today` to the next `day` strictly after today: 1..7. */
  function DaysAfter(day: DayOfWeek, today: nat): int {
    (IndexOf(JsDaysOfWeek, day) - today + 6) % 7 + 1
  }

  /** `DaysAfter` to each anchor, in the order of the anchors. */
  function LaterOffsets(days: seq<DayOfWeek>, today: nat): (r: seq<int>)
    ensures |r| == |days|
  {
    seq(|days|, i requires 0 <= i < |days| => DaysAfter(days[i], today))
  }

  /**
   * `computeStartTime` with the weekly case counting from tomorrow once today's
   * time has passed; the other cases are unchanged.
   */
  function NextStartTime(time: string, frequency: TriggerFrequency, now: LocalTime): Result<LocalTime, StartTimeError>
    requires IsTime(time) && ValidTime(now)
  {
    var candidate := Candidate(time, now);
    if Ms(candidate) > Ms(now) || frequency.kind != "weekly" then ComputeStartTime(time, frequency, now)
    else
      match frequency.onDays
      case None => Err(OnDaysMissing)
      case Some(days) =>
        if |days| == 0 then Err(InvalidDate)
        else Ok(candidate.(day := now.day + Least(LaterOffsets(days, JsWeekday(now.day)))))
  }

  /** The nearest later offset is 1..7, lands on an anchor weekday, and skips none. */
  lemma NearestLaterOffsetIsNearestAnchor(days: seq<DayOfWeek>, day: int)
    requires |days| > 0
    ensures 1 <= Least(LaterOffsets(days, JsWeekday(day))) <= 7
    ensures IsAnchorWeekday(days, JsWeekday(day + Least(LaterOffsets(days, JsWeekday(day)))))
    ensures forall t :: day < t < day + Least(LaterOffsets(days, JsWeekday(day))) ==> !IsAnchorWeekday(days, JsWeekday(t))
  {
    NearestLaterOffsetLands(days, day);
    NearestLaterOffsetSkipsNone(days, day);
  }

  /** The least later offset is 1..7 and lands on an anchor weekday. */
  lemma NearestLaterOffsetLands(days: seq<DayOfWeek>, day: int)
    requires |days| > 0
    ensures 1 <= Least(LaterOffsets(days, JsWeekday(day))) <= 7
    ensures IsAnchorWeekday(days, JsWeekday(day + Least(LaterOffsets(days, JsWeekday(day)))))
  {
    var offsets := LaterOffsets(days, JsWeekday(day));
    var i := LeastAt(offsets);
    LaterOffsetLands(days, day, i);
    AnchorAt(days, i, JsWeekday(day + offsets[i]));
  }

  /** The later offset to anchor `i` is 1..7 and lands on its weekday. */
  lemma LaterOffsetLands(days: seq<DayOfWeek>, day: int, i: nat)
    requires i < |days|
    ensures 1 <= LaterOffsets(days, JsWeekday(day))[i] <= 7
    ensures JsWeekday(day + LaterOffsets(days, JsWeekday(day))[i]) == JsDayOfWeekIndex(days[i])
  {
    LaterAnchorOffset(days[i], day);
  }

  /** No day strictly between `day` and the least later offset falls on an anchor weekday. */
  lemma NearestLaterOffsetSkipsNone(days: seq<DayOfWeek>, day: int)
    requires |days| > 0
    ensures forall t :: day < t < day + Least(LaterOffsets(days, JsWeekday(day))) ==> !IsAnchorWeekday(days, JsWeekday(t))
  {
    var offsets := LaterOffsets(days, JsWeekday(day));
    var d := Least(offsets);
    forall t | day < t < day + d ensures !IsAnchorWeekday(days, JsWeekday(t)) {
      forall j | 0 <= j < |days| ensures JsDayOfWeekIndex(days[j]) != JsWeekday(t) {
        assert d <= offsets[j];
        NoLaterAnchorBefore(days[j], day, t);
      }
    }
  }

  /** No day strictly between `day` and the later offset to an anchor falls on that anchor's weekday. */
  lemma NoLaterAnchorBefore(anchor: DayOfWeek, day: int, t: int)
    requires day < t < day + DaysAfter(anchor, JsWeekday(day))
    ensures JsDayOfWeekIndex(anchor) != JsWeekday(t)
  {
    LaterAnchorOffset(anchor, day);
    JsWeekdayAfter(day + 1, t - day - 1, JsDayOfWeekIndex(anchor));
    assert day + 1 + (t - day - 1) == t;
  }

  /** The later offset to an anchor is 1..7 and lands on the anchor's weekday. */
  lemma LaterAnchorOffset(anchor: DayOfWeek, day: int)
    ensures 1 <= DaysAfter(anchor, JsWeekday(day)) <= 7
    ensures DaysAfter(anchor, JsWeekday(day)) == (JsDayOfWeekIndex(anchor) - JsWeekday(day + 1) + 7) % 7 + 1
    ensures JsWeekday(day + DaysAfter(anchor, JsWeekday(day))) == JsDayOfWeekIndex(anchor)
  {
    LaterOffsetFromTomorrow(anchor, day);
    var d := DaysAfter(anchor, JsWeekday(day));
    JsWeekdayAfter(day + 1, d - 1, JsDayOfWeekIndex(anchor));
    assert day + 1 + (d - 1) == day + d;
  }

  /** Counting from today to the next anchor strictly after it is counting from tomorrow, plus one. */
  lemma LaterOffsetFromTomorrow(anchor: DayOfWeek, day: int)
    ensures DaysAfter(anchor, JsWeekday(day)) == (JsDayOfWeekIndex(anchor) - JsWeekday(day + 1) + 7) % 7 + 1
  {
    JsDayPosition(anchor);
    var idx: int := JsDayOfWeekIndex(anchor);
    var w: int := JsWeekday(day);
    JsWeekdayNext(day);
    if w == 6 {
      assert idx - w + 6 == idx && idx % 7 == idx;
      assert (idx + 7) % 7 == idx;
    } else {
      assert idx - w + 6 == idx - (w + 1) + 7;
    }
  }

  /** The weekday after weekday 6 (Saturday) is 0 (Sunday); otherwise it is one more. */
  lemma JsWeekdayNext(day: int)
    ensures JsWeekday(day + 1) == if JsWeekday(day) == 6 then 0 else JsWeekday(day) + 1
  {
    var w := JsWeekday(day);
    var q := (day + 4) / 7;
    assert day + 4 == 7 * q + w;
    if w == 6 {
      assert day + 1 + 4 == 7 * (q + 1);
    } else {
      assert day + 1 + 4 == 7 * q + (w + 1);
    }
  }

  /**
   * The intended weekly start: strictly after `now`, at `time`. Once today's time
   * has passed it is the next anchor weekday after today, with none skipped;
   * while today's time is still ahead it is today, anchor weekday or not, as in
   * `computeStartTime` (see `WeeklyAheadOffAnchor`).
   */
  lemma NextStartTimeWeekly(time: string, days: seq<DayOfWeek>, repeatsEvery: int, now: LocalTime)
    requires IsTime(time) && ValidTime(now) && |days| > 0
    ensures var r := NextStartTime(time, TriggerFrequency("weekly", repeatsEvery, Some(days)), now);
      && r.Ok?
      && Ms(r.value) > Ms(now)
      && r.value.ms == TimeOfDay(time)
      && (Ms(Candidate(time, now)) <= Ms(now) ==>
           && 1 <= r.value.day - now.day <= 7
           && IsAnchorWeekday(days, JsWeekday(r.value.day))
           && forall t :: now.day < t < r.value.day ==> !IsAnchorWeekday(days, JsWeekday(t)))
  {
    NearestLaterOffsetIsNearestAnchor(days, now.day);
  }

  /**
   * For every known frequency with its anchors, the intended start is strictly
   * after `now`, and resolving again from that start moves strictly later.
   */
  lemma NextStartTimeAdvances(time: string, frequency: TriggerFrequency, now: LocalTime)
    requires IsTime(time) && ValidTime(now)
    requires frequency.kind in Frequencies
    requires frequency.kind != "daily" ==> frequency.onDays.Some? && |frequency.onDays.value| > 0
    ensures var r := NextStartTime(time, frequency, now);
      && r.Ok? && Ms(r.value) > Ms(now) && ValidTime(r.value)
      && var r2 := NextStartTime(time, frequency, r.value);
         r2.Ok? && Ms(r2.value) > Ms(r.value)
  {
    var r := NextStartTime(time, frequency, now);
    if frequency.kind == "weekly" {
      NextStartTimeWeekly(time, frequency.onDays.value, frequency.repeatsEvery, now);
      NextStartTimeWeekly(time, frequency.onDays.value, frequency.repeatsEvery, r.value);
    } else if frequency.kind == "monthly" {
      var days := frequency.onDays.value;
      if Ms(Candidate(time, now)) <= Ms(now) {
        MonthlyPassedStrictlyLater(time, days, frequency.repeatsEvery, now);
      }
      ResultAtTimeOfDay(time, frequency, now);
      MonthlyPassedStrictlyLater(time, days, frequency.repeatsEvery, r.value);
    }
  }

  /** Where today's time is still ahead, or the frequency is not weekly, nothing changes. */
  lemma NextStartTimeAgrees(time: string, frequency: TriggerFrequency, now: LocalTime)
    requires IsTime(time) && ValidTime(now)
    requires Ms(Candidate(time, now)) > Ms(now) || frequency.kind != "weekly"
    ensures NextStartTime(time, frequency, now) == ComputeStartTime(time, frequency, now)
  {
  }
}
