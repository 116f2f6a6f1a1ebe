/**
 * The computations of the five-day forecast list: grouping the three-hourly items by day,
 * each day's temperature range and most common condition, the icon table, and which days
 * and hours are shown.
 */
module ForecastList {
  import opened Wrappers
  import opened Numbers
  import opened WeatherTypes
  import opened KeyedSeqs

  // ---------------------------------------------------------------- grouping by day

  /**
   * The day an item belongs to. `dayKey` stands for `new Date(dt_txt).toDateString()`,
   * whose result depends on the time zone and is left uninterpreted.
   */
  function DayOf(dayKey: string -> string): ForecastItem -> string {
    (item: ForecastItem) => dayKey(item.dtTxt)
  }

  /**
   * The `reduce` that builds `groupedForecast`: a string-keyed object whose entries are listed
   * in insertion order (`days`), each holding that day's items in input order.
   */
  method GroupForecast(forecast: seq<ForecastItem>, dayKey: string -> string)
    returns (days: seq<string>, groups: map<string, seq<ForecastItem>>)
    ensures days == KeyOrder(forecast, DayOf(dayKey))
    ensures groups == Groups(forecast, DayOf(dayKey))
  {
    ghost var key := DayOf(dayKey);
    days, groups := [], map[];
    for i := 0 to |forecast|
      invariant days == KeyOrder(forecast[..i], key)
      invariant groups == Groups(forecast[..i], key)
    {
      var item := forecast[i];
      var date := dayKey(item.dtTxt);
      KeyOrderStep(forecast, key, i);
      GroupsStep(forecast, key, i);
      GroupsKeys(forecast[..i], key);
      if date !in groups {
        groups := groups[date := []];
        days := days + [date];
      }
      groups := groups[date := groups[date] + [item]];
    }
    assert forecast[..|forecast|] == forecast;
  }

  /**
   * What grouping guarantees: the object's keys are the listed days, every item sits in the
   * group of its own day, a group holds only items of its day, no group is empty, and the
   * group sizes add up to the number of items, so no item is in two groups.
   */
  lemma GroupingPartitions(forecast: seq<ForecastItem>, dayKey: string -> string)
    ensures var days, groups := KeyOrder(forecast, DayOf(dayKey)), Groups(forecast, DayOf(dayKey));
            && NoDuplicates(days)
            && (forall d :: d in groups <==> d in days)
            && (forall i :: 0 <= i < |forecast| ==>
                  dayKey(forecast[i].dtTxt) in groups && forecast[i] in groups[dayKey(forecast[i].dtTxt)])
            && (forall d :: d in groups ==>
                  |groups[d]| > 0 && forall j :: 0 <= j < |groups[d]| ==> dayKey(groups[d][j].dtTxt) == d)
            && SelectedCount(days, forecast, DayOf(dayKey)) == |forecast|
  {
    var key: ForecastItem -> string := DayOf(dayKey);
    var groups: map<string, seq<ForecastItem>> := Groups(forecast, key);
    KeyOrderMembers(forecast, key);
    GroupsKeys(forecast, key);
    forall i | 0 <= i < |forecast|
      ensures forecast[i] in groups[key(forecast[i])]
    {
      GroupsAreSelections(forecast, key, key(forecast[i]));
      SelectComplete(forecast, key, i);
    }
    forall d: string | d in groups
      ensures |groups[d]| > 0 && forall j :: 0 <= j < |groups[d]| ==> dayKey(groups[d][j].dtTxt) == d
    {
      GroupsAreSelections(forecast, key, d);
      SelectNonEmpty(forecast, key, d);
      SelectMembers(forecast, key, d);
    }
    SelectionsPartition(forecast, key);
  }

  /**
   * Days are listed in order of first appearance: if the day at position i of the list occurs
   * at item m, and the day at position j occurs nowhere up to item m, then i < j.
   */
  lemma DaysInFirstAppearanceOrder(forecast: seq<ForecastItem>, dayKey: string -> string, i: int, j: int, m: int)
    requires 0 <= i < |KeyOrder(forecast, DayOf(dayKey))| && 0 <= j < |KeyOrder(forecast, DayOf(dayKey))|
    requires 0 <= m < |forecast| && dayKey(forecast[m].dtTxt) == KeyOrder(forecast, DayOf(dayKey))[i]
    requires forall m' :: 0 <= m' <= m ==> dayKey(forecast[m'].dtTxt) != KeyOrder(forecast, DayOf(dayKey))[j]
    ensures i < j
  {
    KeyOrderFollowsFirstOccurrence(forecast, DayOf(dayKey), i, j, m);
  }

  /**
   * Items inside a group keep their input order: grouping a prefix of the input lists a prefix
   * of the days and gives each of its days a prefix of that day's group.
   */
  lemma GroupsKeepInputOrder(forecast: seq<ForecastItem>, dayKey: string -> string, n: nat, d: string)
    requires n <= |forecast| && d in Groups(forecast[..n], DayOf(dayKey))
    ensures KeyOrder(forecast[..n], DayOf(dayKey)) <= KeyOrder(forecast, DayOf(dayKey))
    ensures d in Groups(forecast, DayOf(dayKey))
    ensures Groups(forecast[..n], DayOf(dayKey))[d] <= Groups(forecast, DayOf(dayKey))[d]
  {
    var key: ForecastItem -> string := DayOf(dayKey);
    KeyOrderPrefix(forecast, key, n);
    GroupsKeys(forecast[..n], key);
    GroupsKeys(forecast, key);
    GroupsAreSelections(forecast[..n], key, d);
    GroupsAreSelections(forecast, key, d);
    SelectPrefix(forecast, key, d, n);
  }

  // ---------------------------------------------------------------- per-day temperature range

  function MinTemp(group: seq<ForecastItem>): (m: real)
    requires |group| > 0
    ensures exists i :: 0 <= i < |group| && group[i].temp == m
    ensures forall i :: 0 <= i < |group| ==> m <= group[i].temp
  {
    if |group| == 1 then group[0].temp
    else
      var rest := MinTemp(group[1..]);
      assert forall i :: 1 <= i < |group| ==> group[1..][i - 1] == group[i];
      if group[0].temp <= rest then group[0].temp else rest
  }

  function MaxTemp(group: seq<ForecastItem>): (m: real)
    requires |group| > 0
    ensures exists i :: 0 <= i < |group| && group[i].temp == m
    ensures forall i :: 0 <= i < |group| ==> group[i].temp <= m
  {
    if |group| == 1 then group[0].temp
    else
      var rest := MaxTemp(group[1..]);
      assert forall i :: 1 <= i < |group| ==> group[1..][i - 1] == group[i];
      if group[0].temp >= rest then group[0].temp else rest
  }

  datatype TempRange = TempRange(min: real, max: real)

  /**
   * `getMinMaxTemp(dayForecast)`: `Math.min` and `Math.max` of the items' temperatures, each
   * attained by some item and bounding all of them.
   */
  function MinMaxTemp(group: seq<ForecastItem>): (r: TempRange)
    requires |group| > 0
    ensures exists i :: 0 <= i < |group| && group[i].temp == r.min
    ensures exists i :: 0 <= i < |group| && group[i].temp == r.max
    ensures forall i :: 0 <= i < |group| ==> r.min <= group[i].temp <= r.max
  {
    TempRange(MinTemp(group), MaxTemp(group))
  }

  // ---------------------------------------------------------------- most common condition

  function Main(c: Condition): string {
    c.main
  }

  /** `dayForecast.map(item => item.weather[0])`. */
  function Conditions(group: seq<ForecastItem>): (cs: seq<Condition>)
    ensures |cs| == |group| && forall i :: 0 <= i < |group| ==> cs[i] == group[i].weather
  {
    seq(|group|, i requires 0 <= i < |group| => group[i].weather)
  }

  /** How many of the conditions have category `main`. */
  function CountOf(conditions: seq<Condition>, main: string): nat {
    |Select(conditions, Main, main)|
  }

  /**
   * The `reduce` that builds `conditionCounts`: `acc[main] = (acc[main] || 0) + 1`, with the
   * object's keys listed in insertion order (`mains`).
   */
  method CountConditions(conditions: seq<Condition>) returns (mains: seq<string>, counts: map<string, nat>)
    ensures mains == KeyOrder(conditions, Main)
    ensures counts == Counts(conditions, Main)
  {
    mains, counts := [], map[];
    for i := 0 to |conditions|
      invariant mains == KeyOrder(conditions[..i], Main)
      invariant counts == Counts(conditions[..i], Main)
    {
      var main := conditions[i].main;
      KeyOrderStep(conditions, Main, i);
      CountsStep(conditions, Main, i);
      CountsKeys(conditions[..i], Main);
      if main !in counts {
        mains := mains + [main];
      }
      var previous := if main in counts then counts[main] else 0;
      counts := counts[main := previous + 1];
    }
    assert conditions[..|conditions|] == conditions;
  }

  /** What the counting guarantees: every category that occurs is counted, with its number of items. */
  lemma CountConditionsCounts(conditions: seq<Condition>)
    ensures forall i :: 0 <= i < |conditions| ==> conditions[i].main in Counts(conditions, Main)
    ensures forall m :: m in Counts(conditions, Main) ==>
              Counts(conditions, Main)[m] == CountOf(conditions, m) > 0
  {
    KeyOrderMembers(conditions, Main);
    CountsKeys(conditions, Main);
    forall m | m in Counts(conditions, Main)
      ensures Counts(conditions, Main)[m] == CountOf(conditions, m) > 0
    {
      CountsAreSelectionSizes(conditions, Main, m);
      SelectNonEmpty(conditions, Main, m);
    }
  }

  /** Position j holds a greatest count, and every later position a strictly smaller one. */
  ghost predicate IsLastMaximum(mains: seq<string>, counts: map<string, nat>, j: int)
    requires forall i :: 0 <= i < |mains| ==> mains[i] in counts
  {
    && 0 <= j < |mains|
    && (forall i :: 0 <= i < |mains| ==> counts[mains[i]] <= counts[mains[j]])
    && (forall i :: j < i < |mains| ==> counts[mains[i]] < counts[mains[j]])
  }

  /** One step of the reduce keeps the accumulator the last maximum of the entries seen so far. */
  lemma LastMaximumStep(mains: seq<string>, counts: map<string, nat>, j: int)
    requires |mains| > 1
    requires forall i :: 0 <= i < |mains| ==> mains[i] in counts
    requires IsLastMaximum(mains[..|mains| - 1], counts, j)
    ensures counts[mains[j]] > counts[mains[|mains| - 1]] ==> IsLastMaximum(mains, counts, j)
    ensures counts[mains[j]] <= counts[mains[|mains| - 1]] ==> IsLastMaximum(mains, counts, |mains| - 1)
  {
  }

  /**
   * `Object.entries(conditionCounts).reduce((a, b) => counts[a] > counts[b] ? a : b)`: the strict
   * `>` keeps the earlier entry only when it is strictly more frequent, so the winner is the
   * last entry with the greatest count.
   */
  function PickMostCommon(mains: seq<string>, counts: map<string, nat>): (best: string)
    requires |mains| > 0
    requires forall i :: 0 <= i < |mains| ==> mains[i] in counts
    ensures exists j :: IsLastMaximum(mains, counts, j) && mains[j] == best
  {
    if |mains| == 1 then
      assert IsLastMaximum(mains, counts, 0);
      mains[0]
    else
      var p := mains[..|mains| - 1];
      assert forall i :: 0 <= i < |p| ==> p[i] == mains[i];
      var a := PickMostCommon(p, counts);
      var b := mains[|mains| - 1];
      var best := if counts[a] > counts[b] then a else b;
      assert exists j :: IsLastMaximum(mains, counts, j) && mains[j] == best by {
        var j :| IsLastMaximum(p, counts, j) && p[j] == a;
        LastMaximumStep(mains, counts, j);
      }
      best
  }

  /** The category the reduce picks from the counted conditions. */
  function MostCommonMain(conditions: seq<Condition>): string
    requires |conditions| > 0
  {
    KeyOrderMembers(conditions, Main);
    CountsKeys(conditions, Main);
    PickMostCommon(KeyOrder(conditions, Main), Counts(conditions, Main))
  }

  /**
   * `getMostCommonCondition(dayForecast)` as a value: the first condition of the group whose
   * category wins the count, or the group's first condition when none is found.
   */
  function MostCommonCondition(group: seq<ForecastItem>): Condition
    requires |group| > 0
  {
    var conditions := Conditions(group);
    FindFirst(conditions, Main, MostCommonMain(conditions)).GetOr(conditions[0])
  }

  /** `getMostCommonCondition(dayForecast)`, step by step: map, count, reduce, find. */
  method GetMostCommonCondition(group: seq<ForecastItem>) returns (c: Condition)
    requires |group| > 0
    ensures c == MostCommonCondition(group)
  {
    var conditions := Conditions(group);
    var mains, counts := CountConditions(conditions);
    KeyOrderMembers(conditions, Main);
    CountsKeys(conditions, Main);
    var best := PickMostCommon(mains, counts);
    c := FindFirst(conditions, Main, best).GetOr(conditions[0]);
  }

  /** The picked category is the category of some condition. */
  lemma MostCommonMainOccurs(conditions: seq<Condition>)
    requires |conditions| > 0
    ensures exists i :: 0 <= i < |conditions| && conditions[i].main == MostCommonMain(conditions)
  {
    var mains, counts := KeyOrder(conditions, Main), Counts(conditions, Main);
    KeyOrderMembers(conditions, Main);
    CountsKeys(conditions, Main);
    var best := MostCommonMain(conditions);
    var j :| IsLastMaximum(mains, counts, j) && mains[j] == best;
    var i :| 0 <= i < |conditions| && Main(conditions[i]) == mains[j];
  }

  /** No category occurs more often than the picked one. */
  lemma MostCommonMainIsMaximal(conditions: seq<Condition>)
    requires |conditions| > 0
    ensures forall i :: 0 <= i < |conditions| ==>
              CountOf(conditions, conditions[i].main) <= CountOf(conditions, MostCommonMain(conditions))
  {
    var mains, counts := KeyOrder(conditions, Main), Counts(conditions, Main);
    KeyOrderMembers(conditions, Main);
    CountsKeys(conditions, Main);
    var best := MostCommonMain(conditions);
    var j :| IsLastMaximum(mains, counts, j) && mains[j] == best;
    CountsAreSelectionSizes(conditions, Main, best);
    forall i | 0 <= i < |conditions|
      ensures CountOf(conditions, conditions[i].main) <= CountOf(conditions, best)
    {
      var t :| 0 <= t < |mains| && mains[t] == Main(conditions[i]);
      CountsAreSelectionSizes(conditions, Main, mains[t]);
    }
  }

  /**
   * Ties go to the category that appears last: a category with as many items as the picked
   * one has already appeared by the picked category's first item `f`.
   */
  lemma MostCommonMainTieBreak(conditions: seq<Condition>, f: int)
    requires 0 <= f < |conditions|
    requires conditions[f].main == MostCommonMain(conditions)
    requires forall m :: 0 <= m < f ==> conditions[m].main != conditions[f].main
    ensures TiesAppearedBy(conditions, f)
  {
    var mains, counts := KeyOrder(conditions, Main), Counts(conditions, Main);
    KeyOrderMembers(conditions, Main);
    CountsKeys(conditions, Main);
    var best := MostCommonMain(conditions);
    var j :| IsLastMaximum(mains, counts, j) && mains[j] == best;
    CountsAreSelectionSizes(conditions, Main, best);
    forall i | 0 <= i < |conditions| && CountOf(conditions, conditions[i].main) == CountOf(conditions, best)
      ensures exists i' :: 0 <= i' <= f && conditions[i'].main == conditions[i].main
    {
      var t :| 0 <= t < |mains| && mains[t] == Main(conditions[i]);
      CountsAreSelectionSizes(conditions, Main, mains[t]);
      if t != j && forall i' :: 0 <= i' <= f ==> Main(conditions[i']) != mains[t] {
        KeyOrderFollowsFirstOccurrence(conditions, Main, j, t, f);
        assert false;
      }
    }
  }

  /**
   * What the chosen condition is: the first item's condition of its category, a category with
   * the greatest count, and among the tied categories the one that first appears last: every
   * category with as many items has already appeared by the chosen item.
   */
  lemma MostCommonConditionChoice(group: seq<ForecastItem>)
    requires |group| > 0
    ensures var c, cs := MostCommonCondition(group), Conditions(group);
            && (forall i :: 0 <= i < |cs| ==> CountOf(cs, cs[i].main) <= CountOf(cs, c.main))
            && exists f :: 0 <= f < |cs| && cs[f] == c
                 && (forall i :: 0 <= i < f ==> cs[i].main != c.main)
                 && TiesAppearedBy(cs, f)
  {
    var cs := Conditions(group);
    var f := MostCommonConditionPosition(group);
    MostCommonMainIsMaximal(cs);
    MostCommonMainTieBreak(cs, f);
  }

  /** Every category with as many items as the one at `f` has appeared by position `f`. */
  ghost predicate TiesAppearedBy(conditions: seq<Condition>, f: int)
    requires 0 <= f < |conditions|
  {
    forall i :: 0 <= i < |conditions| && CountOf(conditions, conditions[i].main) == CountOf(conditions, conditions[f].main) ==>
      exists i' :: 0 <= i' <= f && conditions[i'].main == conditions[i].main
  }

  /** The chosen condition is that of the first item of the picked category. */
  lemma MostCommonConditionPosition(group: seq<ForecastItem>) returns (f: int)
    requires |group| > 0
    ensures var cs := Conditions(group);
            && 0 <= f < |cs| && cs[f] == MostCommonCondition(group) && cs[f].main == MostCommonMain(cs)
            && forall m :: 0 <= m < f ==> cs[m].main != cs[f].main
  {
    var cs := Conditions(group);
    var best := MostCommonMain(cs);
    MostCommonMainOccurs(cs);
    var found := FindFirst(cs, Main, best);
    assert found.Some?;
    f :| 0 <= f < |cs| && cs[f] == found.value && Main(cs[f]) == best &&
         forall m :: 0 <= m < f ==> Main(cs[m]) != best;
  }

  // ---------------------------------------------------------------- what the list shows

  /** One row of the five-day list. */
  datatype DaySummary = DaySummary(day: string, range: TempRange, condition: Condition, rainChance: int)

  /** A day's row: its temperature range, most common condition and the first item's rain chance in percent. */
  function SummariseDay(day: string, items: seq<ForecastItem>): (row: DaySummary)
    requires |items| > 0
    ensures row.day == day
    ensures forall j :: 0 <= j < |items| ==> row.range.min <= items[j].temp <= row.range.max
    ensures row.condition in Conditions(items)
    ensures items[0].pop * 100.0 - 0.5 < row.rainChance as real <= items[0].pop * 100.0 + 0.5
  {
    MostCommonMainOccurs(Conditions(items));
    DaySummary(day, MinMaxTemp(items), MostCommonCondition(items), Round(items[0].pop * 100.0))
  }

  /**
   * `Object.entries(groupedForecast).slice(0, 5).map(...)`: one row for each of the first five
   * days, in order, each with a range that bounds every temperature of that day.
   */
  function DaySummaries(days: seq<string>, groups: map<string, seq<ForecastItem>>): (rows: seq<DaySummary>)
    requires forall i :: 0 <= i < |days| ==> days[i] in groups && |groups[days[i]]| > 0
    ensures |rows| == if |days| < 5 then |days| else 5
    ensures forall i :: 0 <= i < |rows| ==> rows[i].day == days[i]
    ensures forall i, j :: 0 <= i < |rows| && 0 <= j < |groups[days[i]]| ==>
              rows[i].range.min <= groups[days[i]][j].temp <= rows[i].range.max
    ensures forall i :: 0 <= i < |rows| ==>
              && rows[i].range == MinMaxTemp(groups[days[i]])
              && rows[i].condition == MostCommonCondition(groups[days[i]])
              && rows[i].rainChance == Round(groups[days[i]][0].pop * 100.0)
  {
    var shown := if |days| < 5 then days else days[..5];
    seq(|shown|, i requires 0 <= i < |shown| => SummariseDay(shown[i], groups[shown[i]]))
  }

  /** The grouped forecast always meets what the rows need: every listed day has a non-empty group. */
  lemma GroupsCanBeSummarised(forecast: seq<ForecastItem>, dayKey: string -> string)
    ensures var days, groups := KeyOrder(forecast, DayOf(dayKey)), Groups(forecast, DayOf(dayKey));
            forall i :: 0 <= i < |days| ==> days[i] in groups && |groups[days[i]]| > 0
  {
  }

  /**
   * `groupedForecast[Object.keys(groupedForecast)[0]].slice(0, 8)`: at most eight items of the
   * first listed day, or nothing when no day is listed.
   */
  function HourlyStrip(days: seq<string>, groups: map<string, seq<ForecastItem>>): (strip: seq<ForecastItem>)
    ensures |strip| <= 8
    ensures |days| > 0 && days[0] in groups ==> strip <= groups[days[0]]
    ensures |days| == 0 ==> strip == []
  {
    if |days| > 0 && days[0] in groups then
      var first := groups[days[0]];
      if |first| <= 8 then first else first[..8]
    else
      []
  }

  /**
   * The hourly strip is the first eight items (or all, if fewer) of the first item's day, and
   * it is non-empty whenever the forecast is.
   */
  lemma HourlyStripIsFirstDay(forecast: seq<ForecastItem>, dayKey: string -> string)
    requires |forecast| > 0
    ensures var strip := HourlyStrip(KeyOrder(forecast, DayOf(dayKey)), Groups(forecast, DayOf(dayKey)));
            var today := Select(forecast, DayOf(dayKey), dayKey(forecast[0].dtTxt));
            && strip == (if |today| <= 8 then today else today[..8])
            && |strip| > 0
  {
    var key: ForecastItem -> string := DayOf(dayKey);
    KeyOrderPrefix(forecast, key, 1);
    assert forecast[..1][..0] == [];
    assert KeyOrder(forecast[..1], key) == [key(forecast[0])];
    KeyOrderMembers(forecast, key);
    GroupsKeys(forecast, key);
    GroupsAreSelections(forecast, key, key(forecast[0]));
    SelectNonEmpty(forecast, key, key(forecast[0]));
  }

  // ---------------------------------------------------------------- icons

  /** The icon components the list can show. */
  datatype Icon = Sun | Cloud | CloudRain | Zap | Snowflake

  /** `iconMap`: day ("d") and night ("n") variants of each listed code. */
  const IconMap: map<string, Icon> := map[
    "01d" := Sun, "01n" := Sun,
    "02d" := Cloud, "02n" := Cloud,
    "03d" := Cloud, "03n" := Cloud,
    "04d" := Cloud, "04n" := Cloud,
    "09d" := CloudRain, "09n" := CloudRain,
    "10d" := CloudRain, "10n" := CloudRain,
    "11d" := Zap, "11n" := Zap,
    "13d" := Snowflake, "13n" := Snowflake]

  /** `iconMap[iconCode] || Cloud`. */
  function WeatherIcon(iconCode: string): (icon: Icon)
    ensures iconCode !in IconMap ==> icon == Cloud
  {
    if iconCode in IconMap then IconMap[iconCode] else Cloud
  }

  /** The day and night variants of any code prefix always get the same icon. */
  lemma DayAndNightIconsAgree(prefix: string)
    ensures WeatherIcon(prefix + "d") == WeatherIcon(prefix + "n")
  {
    var day, night := prefix + "d", prefix + "n";
    if |prefix| == 2 {
      assert day == [prefix[0], prefix[1], 'd'];
      assert night == [prefix[0], prefix[1], 'n'];
    } else {
      assert |day| != 3 && |night| != 3;
    }
  }
}
