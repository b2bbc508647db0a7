/** The string formats and enumerations of types/index.ts. */
module Types {
  import opened Numbers
  import opened Consts
  import opened Wrappers

  /** The `Hour` template type: "00".."19" or "20".."23". */
  predicate IsHour(s: string) {
    && |s| == 2
    && ((s[0] in {'0', '1'} && IsDigit(s[1])) || (s[0] == '2' && s[1] in {'0', '1', '2', '3'}))
  }

  /** The `Time` template type: an `Hour`, a colon, then "00".."59". */
  predicate IsTime(s: string) {
    && |s| == 5
    && IsHour(s[..2])
    && s[2] == ':'
    && s[3] in {'0', '1', '2', '3', '4', '5'}
    && IsDigit(s[4])
  }

  /** The `DayOfWeek` type, for text: the name of an element of the week table. */
  predicate IsDayOfWeekName(s: string) {
    exists d :: DayName(d) == s
  }

  /** Reads a day name back to the day it names. */
  function DayOfWeekFromName(s: string): (r: Option<DayOfWeek>)
    ensures r.Some? <==> IsDayOfWeekName(s)
    ensures r.Some? ==> DayName(r.value) == s
  {
    if s == "Monday" then assert DayName(Monday) == s; Some(Monday)
    else if s == "Tuesday" then assert DayName(Tuesday) == s; Some(Tuesday)
    else if s == "Wednesday" then assert DayName(Wednesday) == s; Some(Wednesday)
    else if s == "Thursday" then assert DayName(Thursday) == s; Some(Thursday)
    else if s == "Friday" then assert DayName(Friday) == s; Some(Friday)
    else if s == "Saturday" then assert DayName(Saturday) == s; Some(Saturday)
    else if s == "Sunday" then assert DayName(Sunday) == s; Some(Sunday)
    else
      OtherTextIsNoDayName(s);
      None
  }

  lemma OtherTextIsNoDayName(s: string)
    requires s !in {"Monday", "Tuesday", "Wednesday", "Thursday", "Friday", "Saturday", "Sunday"}
    ensures !IsDayOfWeekName(s)
  {
    forall d ensures DayName(d) != s {
      match d
      case Monday =>
      case Tuesday =>
      case Wednesday =>
      case Thursday =>
      case Friday =>
      case Saturday =>
      case Sunday =>
    }
  }

  /** Every day's name is a `DayOfWeek` and reads back to that day. */
  lemma DayNameRoundTrip(d: DayOfWeek)
    ensures IsDayOfWeekName(DayName(d)) && DayOfWeekFromName(DayName(d)) == Some(d)
  {
    Consts.DaysOfWeekExact();
    match d
    case Monday =>
    case Tuesday =>
    case Wednesday =>
    case Thursday =>
    case Friday =>
    case Saturday =>
    case Sunday =>
  }

  /** The `Time` text of an hour and a minute, each as two digits. */
  function TimeText(hours: nat, minutes: nat): string
    requires hours < 100 && minutes < 100
  {
    [DigitChar(hours / 10), DigitChar(hours % 10), ':', DigitChar(minutes / 10), DigitChar(minutes % 10)]
  }
}
