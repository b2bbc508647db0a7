/**
 * The pure parts of functions/open_rotation_form.ts: the one-line summary of a
 * schedule, and the time zone picker's option groups (zones grouped by their
 * first path segment, large groups cut into slices of at most 100).
 */
module RotationForm {
  import opened Wrappers
  import opened SeqUtil
  import opened Numbers
  import opened Consts
  import opened Types
  import opened Utils
  import opened RotationRecord

  // ---------------------------------------------------------------------------
  // Schedule summary

  /** The one exception `formatSchedule` can raise. */
  datatype FormatError = OnDaysMissing  // `on_days!.join` on a missing list

  /** The word a frequency of interval 1 is summarised by. */
  function Once(frequency: string): string {
    if frequency == "daily" then "Daily" else if frequency == "weekly" then "Weekly" else "Monthly"
  }

  /** The unit a frequency counts in. */
  function Unit(frequency: string): string {
    if frequency == "daily" then "day" else if frequency == "weekly" then "week" else "month"
  }

  /**
   * The interval phrase of the `switch`: "Daily", "Every other day" or
   * "Every N days" (and the same for weeks and months); an unknown frequency
   * leaves the summary empty.
   */
  function IntervalPhrase(frequency: string, repeatsEvery: int): string {
    if frequency !in Frequencies then ""
    else if repeatsEvery == 1 then Once(frequency)
    else if repeatsEvery == 2 then "Every other " + Unit(frequency)
    else "Every " + IntToString(repeatsEvery) + " " + Unit(frequency) + "s"
  }

  /** The stored names of the anchor days, in order. */
  function DayNames(days: seq<DayOfWeek>): (names: seq<string>)
    ensures |names| == |days|
    ensures forall i :: 0 <= i < |days| ==> names[i] == DayName(days[i])
  {
    seq(|days|, i requires 0 <= i < |days| => DayName(days[i]))
  }

  /** Frequencies whose summary lists the anchor days. */
  predicate HasAnchors(frequency: string) {
    frequency == "weekly" || frequency == "monthly"
  }

  /**
   * `formatSchedule`: the interval phrase, then " on " and the anchor names
   * joined by ", " for weekly and monthly schedules, then " at " and the
   * formatted time. `formattedTime` stands for `formatTime(time, timezone)`.
   */
  function FormatSchedule(schedule: Schedule, formattedTime: string): (r: Result<string, FormatError>)
    ensures r.Err? <==> HasAnchors(schedule.frequency) && schedule.onDays.None?
    ensures r.Ok? && !HasAnchors(schedule.frequency) ==>
      r.value == IntervalPhrase(schedule.frequency, schedule.repeatsEvery) + " at " + formattedTime
    ensures r.Ok? && HasAnchors(schedule.frequency) ==>
      r.value == IntervalPhrase(schedule.frequency, schedule.repeatsEvery)
                 + " on " + Join(DayNames(schedule.onDays.value), ", ") + " at " + formattedTime
  {
    var summary := IntervalPhrase(schedule.frequency, schedule.repeatsEvery);
    if !HasAnchors(schedule.frequency) then Ok(summary + " at " + formattedTime)
    else
      match schedule.onDays
      case None => Err(OnDaysMissing)
      case Some(days) => Ok(summary + " on " + Join(DayNames(days), ", ") + " at " + formattedTime)
  }

  /** An interval of 1 names the frequency; an unknown frequency leaves the phrase empty. */
  lemma IntervalPhraseOnce(repeatsEvery: int)
    ensures IntervalPhrase("daily", 1) == "Daily"
    ensures IntervalPhrase("weekly", 1) == "Weekly"
    ensures IntervalPhrase("monthly", 1) == "Monthly"
    ensures forall f :: f !in Frequencies ==> IntervalPhrase(f, repeatsEvery) == ""
  {
  }

  /** An interval of 2 says "other". */
  lemma IntervalPhraseOther()
    ensures IntervalPhrase("daily", 2) == "Every other day"
    ensures IntervalPhrase("weekly", 2) == "Every other week"
    ensures IntervalPhrase("monthly", 2) == "Every other month"
  {
  }

  /** Any other interval is spelled out, with the unit in the plural. */
  lemma IntervalPhraseCounted(n: int)
    requires n != 1 && n != 2
    ensures IntervalPhrase("daily", n) == "Every " + IntToString(n) + " days"
    ensures IntervalPhrase("weekly", n) == "Every " + IntToString(n) + " weeks"
    ensures IntervalPhrase("monthly", n) == "Every " + IntToString(n) + " months"
  {
    CountedPhrase("daily", n);
    CountedPhrase("weekly", n);
    CountedPhrase("monthly", n);
  }

  lemma CountedPhrase(frequency: string, n: int)
    requires frequency in Frequencies && n != 1 && n != 2
    ensures IntervalPhrase(frequency, n) == "Every " + IntToString(n) + (" " + Unit(frequency) + "s")
  {
  }

  /** Different intervals of the same known frequency read differently. */
  lemma IntervalPhraseInjective(frequency: string, m: int, n: int)
    requires frequency in Frequencies
    requires IntervalPhrase(frequency, m) == IntervalPhrase(frequency, n)
    ensures m == n
  {
    var p, q := IntervalPhrase(frequency, m), IntervalPhrase(frequency, n);
    if m != 1 && m != 2 && n != 1 && n != 2 {
      CountedPhraseInjective(IntToString(m), IntToString(n), Unit(frequency));
      IntToStringInjective(m, n);
    } else if m != n {
      PhraseEndings(frequency, m);
      PhraseEndings(frequency, n);
    }
  }

  /** "Every N units" ends in 's'; "Daily" and the like start with a letter other than 'E'. */
  lemma PhraseEndings(frequency: string, n: int)
    requires frequency in Frequencies
    ensures var p := IntervalPhrase(frequency, n);
      && |p| > 0
      && (n == 1 ==> p[0] != 'E' && p[|p| - 1] != 's')
      && (n == 2 ==> p[0] == 'E' && p[|p| - 1] != 's')
      && (n != 1 && n != 2 ==> p[0] == 'E' && p[|p| - 1] == 's')
  {
  }

  /** The number in "Every N units" is read back from the phrase. */
  lemma CountedPhraseInjective(a: string, b: string, unit: string)
    requires "Every " + a + " " + unit + "s" == "Every " + b + " " + unit + "s"
    ensures a == b
  {
    var p := "Every " + a + " " + unit + "s";
    assert |a| == |b|;
    assert a == p[6..6 + |a|];
    assert b == ("Every " + b + " " + unit + "s")[6..6 + |b|];
  }

  /**
   * The day list of a summary reads back: splitting it at ", " and looking the
   * names up gives the anchor days, in order.
   */
  lemma {:induction false} DayListRoundTrip(days: seq<DayOfWeek>)
    requires |days| > 0
    ensures var parts := SplitCommaSpace(Join(DayNames(days), ", "));
      && |parts| == |days|
      && forall i :: 0 <= i < |days| ==> DayOfWeekFromName(parts[i]) == Some(days[i])
  {
    var names := DayNames(days);
    forall i | 0 <= i < |names| ensures ',' !in names[i] {
      match days[i]
      case Monday => assert names[i] == "Monday";
      case Tuesday => assert names[i] == "Tuesday";
      case Wednesday => assert names[i] == "Wednesday";
      case Thursday => assert names[i] == "Thursday";
      case Friday => assert names[i] == "Friday";
      case Saturday => assert names[i] == "Saturday";
      case Sunday => assert names[i] == "Sunday";
    }
    JoinSplitRoundTrip(names);
    forall i | 0 <= i < |days| ensures DayOfWeekFromName(names[i]) == Some(days[i]) {
      DayNameRoundTrip(days[i]);
    }
  }

  // ---------------------------------------------------------------------------
  // Time zone option groups

  /** A property of a plain JavaScript object: its key and its value. */
  datatype Entry<V> = Entry(key: string, value: V)

  /** The keys of an object, in property order. */
  function Keys<V>(entries: seq<Entry<V>>): (keys: seq<string>)
    ensures |keys| == |entries|
    ensures forall j :: 0 <= j < |entries| ==> keys[j] == entries[j].key
  {
    seq(|entries|, j requires 0 <= j < |entries| => entries[j].key)
  }

  /**
   * `obj[key] = value`: an existing property keeps its place and takes the new
   * value; a new one is added last.
   */
  function Put<V>(entries: seq<Entry<V>>, key: string, value: V): (r: seq<Entry<V>>)
    ensures key in Keys(entries) ==> |r| == |entries| && Keys(r) == Keys(entries)
    ensures key in Keys(entries) ==> r[IndexOf(Keys(entries), key)] == Entry(key, value)
    ensures key !in Keys(entries) ==> r == entries + [Entry(key, value)] && Keys(r) == Keys(entries) + [key]
    ensures forall j :: 0 <= j < |entries| && entries[j].key != key ==> r[j] == entries[j]
  {
    var i := IndexOf(Keys(entries), key);
    if i < 0 then
      assert Keys(entries + [Entry(key, value)]) == Keys(entries) + [key];
      entries + [Entry(key, value)]
    else
      var r := entries[i := Entry(key, value)];
      assert Keys(r) == Keys(entries);
      r
  }

  /** After `obj[key] = value`, every property is an old one or the new one. */
  lemma PutKeepsOrAdds<V>(entries: seq<Entry<V>>, key: string, value: V)
    ensures forall e :: e in Put(entries, key, value) ==> e in entries || e == Entry(key, value)
  {
  }

  /** A zone option of the picker: the city shown (missing for a zone with no "/") and the zone name. */
  datatype ZoneOption = ZoneOption(text: Option<string>, value: string)

  /**
   * `const [country, city] = timezoneToParts(tz)`: the group a zone is filed
   * under, and the option it is shown as (no city for a zone without "/").
   */
  function Filing(zone: string): (f: (string, ZoneOption))
    ensures f.1.value == zone
  {
    var parts := TimezoneToParts(zone);
    (parts[0], ZoneOption(if |parts| > 1 then Some(parts[1]) else None, zone))
  }

  /** The filing of every zone, in input order. */
  function Filings(zones: seq<string>): (r: seq<(string, ZoneOption)>)
    ensures |r| == |zones|
    ensures forall j :: 0 <= j < |zones| ==> r[j] == Filing(zones[j])
  {
    seq(|zones|, j requires 0 <= j < |zones| => Filing(zones[j]))
  }

  function Countries(filed: seq<(string, ZoneOption)>): (r: seq<string>)
    ensures |r| == |filed|
    ensures forall j :: 0 <= j < |filed| ==> r[j] == filed[j].0
  {
    seq(|filed|, j requires 0 <= j < |filed| => filed[j].0)
  }

  function Options(filed: seq<(string, ZoneOption)>): (r: seq<ZoneOption>)
    ensures |r| == |filed|
    ensures forall j :: 0 <= j < |filed| ==> r[j] == filed[j].1
  {
    seq(|filed|, j requires 0 <= j < |filed| => filed[j].1)
  }

  /** The options filed under `country`, in input order. */
  function OptionsIn(filed: seq<(string, ZoneOption)>, country: string): seq<ZoneOption> {
    if |filed| == 0 then []
    else (if filed[0].0 == country then [filed[0].1] else []) + OptionsIn(filed[1..], country)
  }

  /** Filing one more zone extends its own group and no other. */
  lemma {:induction false} OptionsInSnoc(filed: seq<(string, ZoneOption)>, f: (string, ZoneOption), country: string)
    ensures OptionsIn(filed + [f], country)
         == OptionsIn(filed, country) + (if f.0 == country then [f.1] else [])
  {
    if |filed| > 0 {
      OptionsInSnoc(filed[1..], f, country);
      assert (filed + [f])[1..] == filed[1..] + [f];
    }
  }

  /** A country nothing is filed under has no options. */
  lemma {:induction false} OptionsInAbsent(filed: seq<(string, ZoneOption)>, country: string)
    requires country !in Countries(filed)
    ensures OptionsIn(filed, country) == []
  {
    if |filed| > 0 {
      assert Countries(filed[1..]) == Countries(filed)[1..];
      OptionsInAbsent(filed[1..], country);
    }
  }

  /**
   * A group holds exactly the options filed under it, in input order: it is a
   * subsequence of all the options, and an option is in it exactly when it was
   * filed under that country.
   */
  lemma {:induction false} OptionsInSpec(filed: seq<(string, ZoneOption)>, country: string)
    ensures IsSubsequence(OptionsIn(filed, country), Options(filed))
    ensures forall o :: o in OptionsIn(filed, country) <==> (country, o) in filed
  {
    if |filed| > 0 {
      OptionsInSpec(filed[1..], country);
      assert Options(filed)[1..] == Options(filed[1..]);
      assert filed == [filed[0]] + filed[1..];
      var r := OptionsIn(filed, country);
      if filed[0].0 == country {
        assert r[0] == Options(filed)[0] && r[1..] == OptionsIn(filed[1..], country);
      } else {
        assert r == OptionsIn(filed[1..], country);
        SubsequenceOfCons(r, filed[0].1, Options(filed[1..]));
        assert Options(filed) == [filed[0].1] + Options(filed[1..]);
      }
    }
  }

  /** The groups hold, under each country met so far, the options filed under it. */
  predicate GroupsOf(groups: seq<Entry<seq<ZoneOption>>>, filed: seq<(string, ZoneOption)>) {
    && Keys(groups) == Dedup(Countries(filed))
    && forall j :: 0 <= j < |groups| ==> groups[j].value == OptionsIn(filed, groups[j].key)
  }

  /**
   * The callback of the first `reduce`: `acc[country] ??= []`, then `push` the
   * option.
   */
  method FileZone(groups: seq<Entry<seq<ZoneOption>>>, ghost filed: seq<(string, ZoneOption)>, country: string, option: ZoneOption)
    returns (r: seq<Entry<seq<ZoneOption>>>)
    requires GroupsOf(groups, filed)
    ensures GroupsOf(r, filed + [(country, option)])
  {
    r := groups;
    if IndexOf(Keys(r), country) < 0 {
      r := Put(r, country, []);
    }
    GroupOpened(groups, filed, country, r);
    var k := IndexOf(Keys(r), country);
    ghost var withGroup := r;
    r := Put(r, country, r[k].value + [option]);
    OptionPushed(withGroup, filed, country, option, r);
  }

  /** The groups once `country` has a group, before its option is pushed. */
  predicate Opened(groups: seq<Entry<seq<ZoneOption>>>, filed: seq<(string, ZoneOption)>, country: string) {
    && Keys(groups) == Dedup(Countries(filed) + [country])
    && forall j :: 0 <= j < |groups| ==> groups[j].value == OptionsIn(filed, groups[j].key)
  }

  /** `acc[country] ??= []` gives a country met for the first time an empty group, placed last. */
  lemma GroupOpened(groups: seq<Entry<seq<ZoneOption>>>, filed: seq<(string, ZoneOption)>, country: string, r: seq<Entry<seq<ZoneOption>>>)
    requires GroupsOf(groups, filed)
    requires r == if country in Keys(groups) then groups else Put(groups, country, [])
    ensures Opened(r, filed, country)
  {
    var countries := Countries(filed);
    DedupSnoc(countries, country);
    if country in Keys(groups) {
      assert r == groups;
    } else {
      assert country !in countries;
      OptionsInAbsent(filed, country);
      assert r == groups + [Entry(country, [])];
      assert Keys(r) == Dedup(countries) + [country];
      forall j | 0 <= j < |r| ensures r[j].value == OptionsIn(filed, r[j].key) {
        if j < |groups| {
          assert r[j] == groups[j];
        }
      }
    }
  }

  /** `acc[country].push(option)` files the option under its country and changes no other group. */
  lemma OptionPushed(groups: seq<Entry<seq<ZoneOption>>>, filed: seq<(string, ZoneOption)>, country: string, option: ZoneOption, r: seq<Entry<seq<ZoneOption>>>)
    requires Opened(groups, filed, country)
    requires country in Keys(groups)
    requires r == Put(groups, country, groups[IndexOf(Keys(groups), country)].value + [option])
    ensures GroupsOf(r, filed + [(country, option)])
  {
    var filed' := filed + [(country, option)];
    assert Countries(filed') == Countries(filed) + [country];
    var k := IndexOf(Keys(groups), country);
    forall j | 0 <= j < |r| ensures r[j].value == OptionsIn(filed', r[j].key) {
      OptionsInSnoc(filed, (country, option), r[j].key);
      if j != k {
        assert Keys(groups)[j] != Keys(groups)[k];
      }
    }
  }

  /** Filing every entry of `all` in turn. */
  method FileAll(all: seq<(string, ZoneOption)>) returns (groups: seq<Entry<seq<ZoneOption>>>)
    ensures GroupsOf(groups, all)
  {
    groups := [];
    var i := 0;
    while i < |all|
      invariant 0 <= i <= |all|
      invariant GroupsOf(groups, all[..i])
    {
      var f := all[i];
      ghost var filed := all[..i];
      assert all[..i + 1] == filed + [f];
      groups := FileZone(groups, filed, f.0, f.1);
      i := i + 1;
    }
    assert all[..i] == all;
  }

  /**
   * The first `reduce` of `timezones`: every zone is filed in turn. The groups
   * come in the order their countries first appear, and each holds the options
   * filed under its country, in input order.
   */
  method GroupByCountry(zones: seq<string>) returns (groups: seq<Entry<seq<ZoneOption>>>)
    ensures Keys(groups) == Dedup(Countries(Filings(zones)))
    ensures forall j :: 0 <= j < |groups| ==> groups[j].value == OptionsIn(Filings(zones), groups[j].key)
  {
    groups := FileAll(Filings(zones));
  }

  /** A labelled group of the picker, as Slack's option groups take it. */
  datatype OptionGroup = OptionGroup(title: string, options: seq<ZoneOption>)

  /** The most options Slack accepts in one group. */
  const MaxOptions: nat := 100

  function Min(a: int, b: int): int {
    if a <= b then a else b
  }

  /** The passes of `for (let i = 0; i < value.length / 100; i++)`. */
  function ChunkCount(n: nat): nat {
    (n + MaxOptions - 1) / MaxOptions
  }

  /** Pass `i` of the loop runs exactly when `i` is below the number of slices. */
  lemma ChunkCountPasses(n: nat, i: nat)
    ensures MaxOptions * i < n <==> i < ChunkCount(n)
    ensures i == ChunkCount(n) && MaxOptions <= n ==> n <= MaxOptions * i
  {
  }

  /** `${key} ${i + 1}`. */
  function ChunkLabel(key: string, i: nat): string {
    key + " " + IntToString(i + 1)
  }

  /** `value.slice(i * 100, (i + 1) * 100)`: the end is clamped to the length. */
  function Chunk(value: seq<ZoneOption>, i: nat): seq<ZoneOption>
    requires i < ChunkCount(|value|)
  {
    value[i * MaxOptions .. Min((i + 1) * MaxOptions, |value|)]
  }

  /**
   * The properties one group is written as by the second `reduce`: the whole
   * group under its own key when it has fewer than 100 options, otherwise one
   * slice per pass of the `for` loop, labelled "key 1", "key 2", ...
   */
  function GroupWrites(key: string, value: seq<ZoneOption>): (ws: seq<Entry<OptionGroup>>)
    ensures |value| < MaxOptions ==> ws == [Entry(key, OptionGroup(key, value))]
    ensures |value| >= MaxOptions ==> |ws| == ChunkCount(|value|)
  {
    if |value| < MaxOptions then [Entry(key, OptionGroup(key, value))]
    else
      seq(ChunkCount(|value|), i requires 0 <= i < ChunkCount(|value|) =>
        Entry(ChunkLabel(key, i), OptionGroup(ChunkLabel(key, i), Chunk(value, i))))
  }

  /** The writes of all groups, in `Object.entries` order. */
  function Writes(groups: seq<Entry<seq<ZoneOption>>>): seq<Entry<OptionGroup>> {
    if |groups| == 0 then []
    else
      var last := groups[|groups| - 1];
      Writes(groups[..|groups| - 1]) + GroupWrites(last.key, last.value)
  }

  /** Slice `i` of a group of 100 or more options, labelled by its pass. */
  lemma GroupWritesAt(key: string, value: seq<ZoneOption>, i: nat)
    requires |value| >= MaxOptions && i < ChunkCount(|value|)
    ensures GroupWrites(key, value)[i] == Entry(ChunkLabel(key, i), OptionGroup(ChunkLabel(key, i), Chunk(value, i)))
  {
  }

  /** Performing `obj[key] = value` for each write in turn. */
  function ApplyWrites<V>(obj: seq<Entry<V>>, writes: seq<Entry<V>>): seq<Entry<V>>
    decreases |writes|
  {
    if |writes| == 0 then obj
    else ApplyWrites(Put(obj, writes[0].key, writes[0].value), writes[1..])
  }

  /** Two batches of writes are the first batch, then the second. */
  lemma {:induction false} ApplyWritesAppend<V>(obj: seq<Entry<V>>, a: seq<Entry<V>>, b: seq<Entry<V>>)
    ensures ApplyWrites(obj, a + b) == ApplyWrites(ApplyWrites(obj, a), b)
    decreases |a|
  {
    if |a| > 0 {
      assert (a + b)[0] == a[0] && (a + b)[1..] == a[1..] + b;
      ApplyWritesAppend(Put(obj, a[0].key, a[0].value), a[1..], b);
    } else {
      assert a + b == b;
    }
  }

  /** One more write is one more `Put`. */
  lemma ApplyWritesSnoc<V>(obj: seq<Entry<V>>, a: seq<Entry<V>>, w: Entry<V>)
    ensures ApplyWrites(obj, a + [w]) == Put(ApplyWrites(obj, a), w.key, w.value)
  {
    ApplyWritesAppend(obj, a, [w]);
  }

  /**
   * The callback of the second `reduce`: one group written into the object,
   * whole or in slices.
   */
  method WriteGroup(acc: seq<Entry<OptionGroup>>, key: string, value: seq<ZoneOption>) returns (r: seq<Entry<OptionGroup>>)
    ensures r == ApplyWrites(acc, GroupWrites(key, value))
  {
    ghost var writes := GroupWrites(key, value);
    r := acc;
    if |value| < MaxOptions {
      r := Put(r, key, OptionGroup(key, value));
    } else {
      var i := 0;
      while MaxOptions * i < |value|
        invariant 0 <= i <= ChunkCount(|value|)
        invariant r == ApplyWrites(acc, writes[..i])
      {
        ChunkCountPasses(|value|, i);
        var title := key + " " + IntToString(i + 1);
        var slice := value[i * MaxOptions .. Min((i + 1) * MaxOptions, |value|)];
        WriteChunk(acc, key, value, i);
        r := Put(r, title, OptionGroup(title, slice));
        i := i + 1;
      }
      ChunkCountPasses(|value|, i);
      assert writes[..i] == writes;
    }
  }

  /** Writing slice `i` extends the writes done so far by one. */
  lemma WriteChunk(acc: seq<Entry<OptionGroup>>, key: string, value: seq<ZoneOption>, i: nat)
    requires |value| >= MaxOptions && i < ChunkCount(|value|)
    ensures ApplyWrites(acc, GroupWrites(key, value)[..i + 1])
         == Put(ApplyWrites(acc, GroupWrites(key, value)[..i]), ChunkLabel(key, i), OptionGroup(ChunkLabel(key, i), Chunk(value, i)))
  {
    var writes := GroupWrites(key, value);
    GroupWritesAt(key, value, i);
    assert writes[..i + 1] == writes[..i] + [writes[i]];
    ApplyWritesSnoc(acc, writes[..i], writes[i]);
  }

  /**
   * The second `reduce` of `timezones`: every group is written in turn into a
   * fresh object.
   */
  method BuildOptionGroups(groups: seq<Entry<seq<ZoneOption>>>) returns (acc: seq<Entry<OptionGroup>>)
    ensures acc == ApplyWrites([], Writes(groups))
  {
    acc := [];
    var g := 0;
    while g < |groups|
      invariant 0 <= g <= |groups|
      invariant acc == ApplyWrites([], Writes(groups[..g]))
    {
      assert groups[..g + 1][..g] == groups[..g];
      ApplyWritesAppend([], Writes(groups[..g]), GroupWrites(groups[g].key, groups[g].value));
      acc := WriteGroup(acc, groups[g].key, groups[g].value);
      g := g + 1;
    }
    assert groups[..g] == groups;
  }

  /** `Object.values`: the values of an object, in property order. */
  function Values<V>(entries: seq<Entry<V>>): (vs: seq<V>)
    ensures |vs| == |entries|
    ensures forall j :: 0 <= j < |entries| ==> vs[j] == entries[j].value
  {
    seq(|entries|, j requires 0 <= j < |entries| => entries[j].value)
  }

  lemma ValuesAppend<V>(a: seq<Entry<V>>, b: seq<Entry<V>>)
    ensures Values(a + b) == Values(a) + Values(b)
  {
  }

  /** The options of all groups, one group after the other. */
  function FlattenOptions(gs: seq<OptionGroup>): seq<ZoneOption> {
    if |gs| == 0 then [] else FlattenOptions(gs[..|gs| - 1]) + gs[|gs| - 1].options
  }

  /** The zones of all country groups, one group after the other. */
  function FlattenGroups(groups: seq<Entry<seq<ZoneOption>>>): seq<ZoneOption> {
    if |groups| == 0 then [] else FlattenGroups(groups[..|groups| - 1]) + groups[|groups| - 1].value
  }

  lemma {:induction false} FlattenOptionsAppend(a: seq<OptionGroup>, b: seq<OptionGroup>)
    ensures FlattenOptions(a + b) == FlattenOptions(a) + FlattenOptions(b)
    decreases |b|
  {
    if |b| == 0 {
      assert a + b == a;
    } else {
      var b' := b[..|b| - 1];
      assert (a + b)[..|a + b| - 1] == a + b';
      FlattenOptionsAppend(a, b');
    }
  }

  /** The slices of a group give the group back, in order. */
  lemma {:induction false} GroupWritesCover(key: string, value: seq<ZoneOption>)
    ensures FlattenOptions(Values(GroupWrites(key, value))) == value
  {
    var ws := GroupWrites(key, value);
    if |value| < MaxOptions {
      assert Values(ws) == [OptionGroup(key, value)];
      assert FlattenOptions(Values(ws)) == FlattenOptions([]) + value;
    } else {
      var n := ChunkCount(|value|);
      var i := 0;
      while i < n
        invariant 0 <= i <= n
        invariant FlattenOptions(Values(ws)[..i]) == value[..Min(i * MaxOptions, |value|)]
      {
        assert Values(ws)[..i + 1][..i] == Values(ws)[..i];
        GroupWritesAt(key, value, i);
        ChunkExtends(value, i);
        i := i + 1;
      }
      assert Values(ws)[..n] == Values(ws);
      assert Min(n * MaxOptions, |value|) == |value|;
    }
  }

  /** The options up to the end of slice `i` are those up to its start, then the slice. */
  lemma ChunkExtends(value: seq<ZoneOption>, i: nat)
    requires i < ChunkCount(|value|)
    ensures value[..Min((i + 1) * MaxOptions, |value|)] == value[..Min(i * MaxOptions, |value|)] + Chunk(value, i)
  {
    var lo, hi := Min(i * MaxOptions, |value|), Min((i + 1) * MaxOptions, |value|);
    assert lo == i * MaxOptions;
    assert value[..hi] == value[..lo] + value[lo..hi];
  }

  /** No slice holds more than 100 options, and every write is titled by its own key. */
  lemma GroupWritesBounded(key: string, value: seq<ZoneOption>)
    ensures forall w :: w in GroupWrites(key, value) ==> |w.value.options| <= MaxOptions && w.value.title == w.key
  {
  }

  /** The titles of a sliced group are "key 1", "key 2", ..., all different. */
  lemma GroupWritesTitles(key: string, value: seq<ZoneOption>)
    requires |value| >= MaxOptions
    ensures forall i :: 0 <= i < |GroupWrites(key, value)| ==> GroupWrites(key, value)[i].key == ChunkLabel(key, i)
    ensures NoDuplicates(Keys(GroupWrites(key, value)))
  {
    var ws := GroupWrites(key, value);
    forall i | 0 <= i < |ws| ensures ws[i].key == ChunkLabel(key, i) {
      GroupWritesAt(key, value, i);
    }
    forall i, j | 0 <= i < j < |ws| ensures Keys(ws)[i] != Keys(ws)[j] {
      if ChunkLabel(key, i) == ChunkLabel(key, j) {
        ChunkLabelInjective(key, i, j);
      }
    }
  }

  /** Different passes give different labels. */
  lemma ChunkLabelInjective(key: string, i: nat, j: nat)
    requires ChunkLabel(key, i) == ChunkLabel(key, j)
    ensures i == j
  {
    var a, b := IntToString(i + 1), IntToString(j + 1);
    assert a == ChunkLabel(key, i)[|key| + 1..];
    assert b == ChunkLabel(key, j)[|key| + 1..];
    IntToStringInjective(i + 1, j + 1);
  }

  /** All slices of all groups give the groups back, in order. */
  lemma {:induction false} WritesCover(groups: seq<Entry<seq<ZoneOption>>>)
    ensures FlattenOptions(Values(Writes(groups))) == FlattenGroups(groups)
  {
    if |groups| > 0 {
      var init, last := groups[..|groups| - 1], groups[|groups| - 1];
      WritesCover(init);
      GroupWritesCover(last.key, last.value);
      var a, b := Writes(init), GroupWrites(last.key, last.value);
      ValuesAppend(a, b);
      FlattenOptionsAppend(Values(a), Values(b));
    }
  }

  /** No write of any group holds more than 100 options. */
  lemma {:induction false} WritesBounded(groups: seq<Entry<seq<ZoneOption>>>)
    ensures forall w :: w in Writes(groups) ==> |w.value.options| <= MaxOptions
  {
    if |groups| > 0 {
      var init, last := groups[..|groups| - 1], groups[|groups| - 1];
      WritesBounded(init);
      GroupWritesBounded(last.key, last.value);
    }
  }

  /** Writing only groups of at most 100 options into such an object leaves only such groups. */
  lemma {:induction false} ApplyWritesBounded(obj: seq<Entry<OptionGroup>>, writes: seq<Entry<OptionGroup>>)
    requires forall w :: w in obj ==> |w.value.options| <= MaxOptions
    requires forall w :: w in writes ==> |w.value.options| <= MaxOptions
    ensures forall w :: w in ApplyWrites(obj, writes) ==> |w.value.options| <= MaxOptions
    decreases |writes|
  {
    if |writes| > 0 {
      var next := Put(obj, writes[0].key, writes[0].value);
      forall w | w in next ensures |w.value.options| <= MaxOptions {
        PutKeepsOrAdds(obj, writes[0].key, writes[0].value);
      }
      assert forall w :: w in writes[1..] ==> w in writes;
      ApplyWritesBounded(next, writes[1..]);
    }
  }

  /** Writes under keys that are all new and all different simply append. */
  lemma {:induction false} ApplyWritesDistinct<V>(obj: seq<Entry<V>>, writes: seq<Entry<V>>)
    requires NoDuplicates(Keys(obj + writes))
    ensures ApplyWrites(obj, writes) == obj + writes
    decreases |writes|
  {
    if |writes| == 0 {
      assert obj + writes == obj;
    } else {
      var w := writes[0];
      assert Keys(obj + writes)[|obj|] == w.key;
      forall j | 0 <= j < |obj| ensures Keys(obj)[j] != w.key {
        assert Keys(obj + writes)[j] == Keys(obj)[j];
      }
      assert (obj + [w]) + writes[1..] == obj + writes;
      ApplyWritesDistinct(obj + [w], writes[1..]);
    }
  }

  /** The country groups of the zones: one per country in order of first appearance, each with its options in input order. */
  function CountryGroups(zones: seq<string>): (groups: seq<Entry<seq<ZoneOption>>>)
    ensures Keys(groups) == Dedup(Countries(Filings(zones)))
  {
    var countries := Dedup(Countries(Filings(zones)));
    var groups := seq(|countries|, j requires 0 <= j < |countries| => Entry(countries[j], OptionsIn(Filings(zones), countries[j])));
    assert Keys(groups) == countries;
    groups
  }

  /**
   * `timezones`: the zones grouped by country, then written out whole or in
   * slices, and the resulting object's values.
   */
  method TimezoneOptionGroups(zones: seq<string>) returns (result: seq<OptionGroup>)
    ensures result == Values(ApplyWrites([], Writes(CountryGroups(zones))))
  {
    var groups := GroupByCountry(zones);
    assert groups == CountryGroups(zones) by {
      var expected := CountryGroups(zones);
      assert |groups| == |Keys(groups)| == |Keys(expected)| == |expected|;
      forall j | 0 <= j < |groups| ensures groups[j] == expected[j] {
        assert groups[j].key == Keys(groups)[j] == Keys(expected)[j] == expected[j].key;
      }
    }
    var acc := BuildOptionGroups(groups);
    result := Values(acc);
  }

  /** Every option group of the picker holds at most 100 options, whatever the zones. */
  lemma TimezoneOptionGroupsBounded(zones: seq<string>)
    ensures forall g: OptionGroup :: g in Values(ApplyWrites([], Writes(CountryGroups(zones)))) ==> |g.options| <= MaxOptions
  {
    var writes := Writes(CountryGroups(zones));
    WritesBounded(CountryGroups(zones));
    ApplyWritesBounded([], writes);
    var obj := ApplyWrites([], writes);
    forall g: OptionGroup | g in Values(obj) ensures |g.options| <= MaxOptions {
      var j :| 0 <= j < |Values(obj)| && Values(obj)[j] == g;
      assert obj[j] in obj;
    }
  }

  /** Every zone's option is in the group of its country. */
  lemma {:induction false} ZoneInItsGroup(zones: seq<string>, z: string)
    requires z in zones
    ensures var groups := CountryGroups(zones);
      exists j :: 0 <= j < |groups| && groups[j].key == Filing(z).0 && Filing(z).1 in groups[j].value
  {
    var filed := Filings(zones);
    var groups := CountryGroups(zones);
    var k :| 0 <= k < |zones| && zones[k] == z;
    assert filed[k] == Filing(z);
    var country := Filing(z).0;
    assert country in Countries(filed) by {
      assert Countries(filed)[k] == country;
    }
    OptionsInSpec(filed, country);
    var j := IndexOf(Keys(groups), country);
    assert groups[j].key == country;
  }

  /**
   * When no two writes share a title, the picker's groups hold exactly the
   * zones, country by country in order of first appearance, each country's
   * zones in input order.
   */
  lemma TimezoneOptionGroupsCover(zones: seq<string>)
    requires NoDuplicates(Keys(Writes(CountryGroups(zones))))
    ensures FlattenOptions(Values(ApplyWrites([], Writes(CountryGroups(zones))))) == FlattenGroups(CountryGroups(zones))
  {
    var writes := Writes(CountryGroups(zones));
    assert [] + writes == writes;
    ApplyWritesDistinct([], writes);
    WritesCover(CountryGroups(zones));
  }
}
