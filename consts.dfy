/** The constant tables of consts/index.ts. */
module Consts {
  import opened SeqUtil

  /** The schedule frequencies, in the order the form offers them. */
  const Frequencies: seq<string> := ["daily", "weekly", "monthly"]

  datatype DayOfWeek = Monday | Tuesday | Wednesday | Thursday | Friday | Saturday | Sunday

  /** The week as the form lists it: Monday first. */
  const DaysOfWeek: seq<DayOfWeek> := [Monday, Tuesday, Wednesday, Thursday, Friday, Saturday, Sunday]

  /** The name stored in `on_days` and shown to users. */
  function DayName(d: DayOfWeek): string {
    match d
    case Monday => "Monday"
    case Tuesday => "Tuesday"
    case Wednesday => "Wednesday"
    case Thursday => "Thursday"
    case Friday => "Friday"
    case Saturday => "Saturday"
    case Sunday => "Sunday"
  }

  /** `jsDayOfWeekIndices`: the number JavaScript's `Date.getDay` uses for each day. */
  function JsDayOfWeekIndex(d: DayOfWeek): nat {
    match d
    case Sunday => 0
    case Monday => 1
    case Tuesday => 2
    case Wednesday => 3
    case Thursday => 4
    case Friday => 5
    case Saturday => 6
  }

  /** The frequency table holds exactly the three names, each once. */
  lemma FrequenciesExact()
    ensures |Frequencies| == 3 && NoDuplicates(Frequencies)
    ensures forall f :: f in Frequencies <==> f == "daily" || f == "weekly" || f == "monthly"
  {
  }

  /** The week table lists seven distinct days, Monday to Sunday, with seven distinct names. */
  lemma DaysOfWeekExact()
    ensures |DaysOfWeek| == 7 && NoDuplicates(DaysOfWeek)
    ensures forall d :: d in DaysOfWeek
    ensures DaysOfWeek[0] == Monday && DaysOfWeek[6] == Sunday
    ensures forall d, e :: DayName(d) == DayName(e) ==> d == e
  {
    forall d ensures d in DaysOfWeek {
      match d
      case Monday => assert DaysOfWeek[0] == d;
      case Tuesday => assert DaysOfWeek[1] == d;
      case Wednesday => assert DaysOfWeek[2] == d;
      case Thursday => assert DaysOfWeek[3] == d;
      case Friday => assert DaysOfWeek[4] == d;
      case Saturday => assert DaysOfWeek[5] == d;
      case Sunday => assert DaysOfWeek[6] == d;
    }
  }

  /**
   * `jsDayOfWeekIndices` is injective into 0..6 with Sunday at 0; over the seven
   * days of the week table it therefore takes each of the seven values once.
   */
  lemma JsDayOfWeekIndexInjective()
    ensures forall d :: JsDayOfWeekIndex(d) < 7
    ensures forall d, e :: JsDayOfWeekIndex(d) == JsDayOfWeekIndex(e) ==> d == e
    ensures JsDayOfWeekIndex(Sunday) == 0
  {
  }

  /** The JavaScript number of a day is one more than its position in the Monday-first week, modulo 7. */
  lemma JsDayOfWeekIndexFromPosition()
    ensures forall k :: 0 <= k < 7 ==> JsDayOfWeekIndex(DaysOfWeek[k]) == (k + 1) % 7
  {
  }
}
