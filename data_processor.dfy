/**
 * The forecasting service's data preparation: daily usage from the stock history,
 * the (ds, y) series handed to the forecaster, the hour/weekday/month distributions,
 * the trailing average and the days-until-empty estimate.
 *
 * Timestamps are seconds in the service's time zone (`Calendar.DayOf` gives the
 * calendar day); quantities are reals.
 */
module DataProcessor {
  import opened Outcomes
  import opened Seqs
  import opened Sorting
  import opened Calendar
  import opened Rounding

  /** A stock-history row as read from the database. */
  datatype HistoryRow = HistoryRow(action: string, quantity: real, createdAt: int)

  /** One day of the usage series. */
  datatype DailyRow = DailyRow(date: int, usage: real)

  /** Why `calculate_daily_usage` fails: with no depletion row the date range has no bounds. */
  datatype UsageError = EmptyDateRange

  // ---------------------------------------------------------------------------
  // calculate_daily_usage

  /** Only these two actions count as usage; the server itself records other names. */
  predicate IsDepletion(row: HistoryRow)
  {
    row.action == "sell" || row.action == "remove"
  }

  function Depletions(history: seq<HistoryRow>): seq<HistoryRow>
  {
    Filter(history, IsDepletion)
  }

  function DayOfRow(row: HistoryRow): int
  {
    DayOf(row.createdAt)
  }

  /** The total quantity of the rows that fall on day `d`. */
  function DayUsage(rows: seq<HistoryRow>, d: int): real
  {
    if rows == [] then 0.0
    else (if DayOfRow(rows[0]) == d then rows[0].quantity else 0.0) + DayUsage(rows[1..], d)
  }

  function FirstDay(rows: seq<HistoryRow>): (r: int)
    requires rows != []
    ensures exists i :: 0 <= i < |rows| && DayOfRow(rows[i]) == r
    ensures forall i :: 0 <= i < |rows| ==> r <= DayOfRow(rows[i])
  {
    if |rows| == 1 then DayOfRow(rows[0])
    else
      var m := FirstDay(rows[1..]);
      assert forall i :: 1 <= i < |rows| ==> rows[i] == rows[1..][i - 1];
      if DayOfRow(rows[0]) <= m then DayOfRow(rows[0]) else m
  }

  function LastDay(rows: seq<HistoryRow>): (r: int)
    requires rows != []
    ensures exists i :: 0 <= i < |rows| && DayOfRow(rows[i]) == r
    ensures forall i :: 0 <= i < |rows| ==> DayOfRow(rows[i]) <= r
  {
    if |rows| == 1 then DayOfRow(rows[0])
    else
      var m := LastDay(rows[1..]);
      assert forall i :: 1 <= i < |rows| ==> rows[i] == rows[1..][i - 1];
      if DayOfRow(rows[0]) >= m then DayOfRow(rows[0]) else m
  }

  /** `n` consecutive days starting at `from`, each with the usage the rows give it. */
  function Series(rows: seq<HistoryRow>, from: int, n: nat): (r: seq<DailyRow>)
    ensures |r| == n
    ensures forall i :: 0 <= i < n ==> r[i].date == from + i
    ensures forall i :: 0 <= i < n ==> r[i].usage == DayUsage(rows, r[i].date)
    decreases n
  {
    if n == 0 then [] else [DailyRow(from, DayUsage(rows, from))] + Series(rows, from + 1, n - 1)
  }

  /**
   * `calculate_daily_usage`: one row per calendar day from the first to the last
   * depletion day, with that day's total depletion quantity (0.0 on idle days).
   */
  function CalculateDailyUsage(history: seq<HistoryRow>): (r: Result<seq<DailyRow>, UsageError>)
    ensures r.Err? <==> Depletions(history) == []
    ensures r.Ok? ==>
      var dep := Depletions(history);
      |r.value| == LastDay(dep) - FirstDay(dep) + 1 &&
      r.value[0].date == FirstDay(dep) && r.value[|r.value| - 1].date == LastDay(dep) &&
      (forall i :: 0 <= i < |r.value| - 1 ==> r.value[i + 1].date == r.value[i].date + 1) &&
      (forall i :: 0 <= i < |r.value| ==> r.value[i].usage == DayUsage(dep, r.value[i].date))
  {
    var dep := Depletions(history);
    if dep == [] then Err(EmptyDateRange)
    else
      var first := FirstDay(dep);
      var n := LastDay(dep) - first + 1;
      var series := Series(dep, first, n);
      assert series[n - 1].date == LastDay(dep);
      Ok(series)
  }

  /** A day on which nothing was sold or removed has usage exactly 0.0. */
  lemma {:induction false} IdleDayIsZero(rows: seq<HistoryRow>, d: int)
    requires forall i :: 0 <= i < |rows| ==> DayOfRow(rows[i]) != d
    ensures DayUsage(rows, d) == 0.0
  {
    if rows != [] {
      IdleDayIsZero(rows[1..], d);
    }
  }

  /** A history row with any other action (a new order, a reset, …) changes nothing. */
  lemma OtherActionsIgnored(history: seq<HistoryRow>, row: HistoryRow)
    requires !IsDepletion(row)
    ensures CalculateDailyUsage(history + [row]) == CalculateDailyUsage(history)
  {
    FilterAppend(history, [row], IsDepletion);
    assert Filter([row], IsDepletion) == [] by {
      assert [row][1..] == [];
    }
    assert Depletions(history + [row]) == Depletions(history);
  }

  function Usages(series: seq<DailyRow>): (r: seq<real>)
    ensures |r| == |series|
    ensures forall i :: 0 <= i < |r| ==> r[i] == series[i].usage
  {
    if series == [] then [] else [series[0].usage] + Usages(series[1..])
  }

  function Quantities(rows: seq<HistoryRow>): (r: seq<real>)
    ensures |r| == |rows|
    ensures forall i :: 0 <= i < |r| ==> r[i] == rows[i].quantity
  {
    if rows == [] then [] else [rows[0].quantity] + Quantities(rows[1..])
  }

  lemma DayUsageSingle(row: HistoryRow, d: int)
    ensures DayUsage([row], d) == if DayOfRow(row) == d then row.quantity else 0.0
  {
    assert [row][1..] == [];
  }

  lemma DayUsageCons(row: HistoryRow, rows: seq<HistoryRow>, d: int)
    ensures DayUsage([row] + rows, d) == DayUsage([row], d) + DayUsage(rows, d)
  {
    assert ([row] + rows)[1..] == rows;
    DayUsageSingle(row, d);
  }

  /** The usage of a run of days, as a total. */
  function SeriesTotal(rows: seq<HistoryRow>, from: int, n: nat): real
    decreases n
  {
    if n == 0 then 0.0 else DayUsage(rows, from) + SeriesTotal(rows, from + 1, n - 1)
  }

  lemma {:induction false} SumOfSeries(rows: seq<HistoryRow>, from: int, n: nat)
    ensures Sum(Usages(Series(rows, from, n))) == SeriesTotal(rows, from, n)
    decreases n
  {
    if n > 0 {
      SumOfSeries(rows, from + 1, n - 1);
      assert Usages(Series(rows, from, n))[1..] == Usages(Series(rows, from + 1, n - 1));
    }
  }

  lemma {:induction false} SeriesTotalCons(row: HistoryRow, rows: seq<HistoryRow>, from: int, n: nat)
    ensures SeriesTotal([row] + rows, from, n) == SeriesTotal([row], from, n) + SeriesTotal(rows, from, n)
    decreases n
  {
    if n > 0 {
      DayUsageCons(row, rows, from);
      SeriesTotalCons(row, rows, from + 1, n - 1);
    }
  }

  lemma {:induction false} SeriesTotalOutside(row: HistoryRow, from: int, n: nat)
    requires DayOfRow(row) < from
    ensures SeriesTotal([row], from, n) == 0.0
    decreases n
  {
    if n > 0 {
      DayUsageSingle(row, from);
      SeriesTotalOutside(row, from + 1, n - 1);
    }
  }

  lemma {:induction false} SeriesTotalSingle(row: HistoryRow, from: int, n: nat)
    requires from <= DayOfRow(row) < from + n
    ensures SeriesTotal([row], from, n) == row.quantity
    decreases n
  {
    DayUsageSingle(row, from);
    if DayOfRow(row) == from {
      SeriesTotalOutside(row, from + 1, n - 1);
    } else {
      SeriesTotalSingle(row, from + 1, n - 1);
    }
  }

  lemma {:induction false} SeriesTotalAll(rows: seq<HistoryRow>, from: int, n: nat)
    requires forall i :: 0 <= i < |rows| ==> from <= DayOfRow(rows[i]) < from + n
    ensures SeriesTotal(rows, from, n) == Sum(Quantities(rows))
  {
    if rows == [] {
      if n > 0 {
        SeriesTotalZero(from, n);
      }
    } else {
      assert rows == [rows[0]] + rows[1..];
      SeriesTotalCons(rows[0], rows[1..], from, n);
      SeriesTotalSingle(rows[0], from, n);
      SeriesTotalAll(rows[1..], from, n);
    }
  }

  lemma {:induction false} SeriesTotalZero(from: int, n: nat)
    ensures SeriesTotal([], from, n) == 0.0
    decreases n
  {
    if n > 0 {
      SeriesTotalZero(from + 1, n - 1);
    }
  }

  /** Zero-filling and grouping lose nothing: the series adds up to the total quantity sold or removed. */
  lemma UsageConserved(history: seq<HistoryRow>)
    requires Depletions(history) != []
    ensures Sum(Usages(CalculateDailyUsage(history).value)) == Sum(Quantities(Depletions(history)))
  {
    var dep := Depletions(history);
    var first := FirstDay(dep);
    var n := LastDay(dep) - first + 1;
    assert CalculateDailyUsage(history).value == Series(dep, first, n);
    assert forall i :: 0 <= i < |dep| ==> first <= DayOfRow(dep[i]) < first + n;
    SumOfSeries(dep, first, n);
    SeriesTotalAll(dep, first, n);
  }

  // ---------------------------------------------------------------------------
  // prepare_time_series_data

  /** A row of the forecaster's input: date `ds` and value `y`. */
  datatype SeriesPoint = SeriesPoint(ds: int, y: real)

  function Renamed(rows: seq<DailyRow>): (r: seq<SeriesPoint>)
    ensures |r| == |rows|
    ensures forall i :: 0 <= i < |r| ==> r[i] == SeriesPoint(rows[i].date, rows[i].usage)
  {
    if rows == [] then [] else [SeriesPoint(rows[0].date, rows[0].usage)] + Renamed(rows[1..])
  }

  function ByDs(a: SeriesPoint, b: SeriesPoint): bool
  {
    a.ds <= b.ds
  }

  /** `prepare_time_series_data`: rename the columns to `ds`/`y` and sort by `ds`. */
  function PrepareTimeSeries(rows: seq<DailyRow>): (r: seq<SeriesPoint>)
    ensures multiset(r) == multiset(Renamed(rows))
    ensures forall i, j :: 0 <= i < j < |r| ==> r[i].ds <= r[j].ds
  {
    SortBySorted(Renamed(rows), ByDs);
    SortBy(Renamed(rows), ByDs)
  }

  /** A daily-usage series is already in date order, so preparing it only renames the columns. */
  lemma PrepareDailyUsageOnlyRenames(history: seq<HistoryRow>)
    requires Depletions(history) != []
    ensures PrepareTimeSeries(CalculateDailyUsage(history).value) == Renamed(CalculateDailyUsage(history).value)
  {
    var series := CalculateDailyUsage(history).value;
    var named := Renamed(series);
    forall i, j | 0 <= i < j < |named| ensures ByDs(named[i], named[j]) {
      assert series[j].date == series[i].date + (j - i) by {
        ConsecutiveDates(series, i, j);
      }
    }
    SortByIdentity(named, ByDs);
  }

  lemma {:induction false} ConsecutiveDates(series: seq<DailyRow>, i: nat, j: nat)
    requires i <= j < |series|
    requires forall k :: 0 <= k < |series| - 1 ==> series[k + 1].date == series[k].date + 1
    ensures series[j].date == series[i].date + (j - i)
  {
    if j > i {
      ConsecutiveDates(series, i, j - 1);
    }
  }

  // ---------------------------------------------------------------------------
  // calculate_hourly/weekly/monthly_distribution

  /** Counts per bucket, and each count as a percentage of all rows rounded to one decimal. */
  datatype Distribution<K> = Distribution(counts: map<K, nat>, percent: map<K, real>)

  /** `groupby(key).size()` with its percentages; an empty frame gives two empty maps. */
  function Distribute<K(==, !new)>(keys: seq<K>): (r: Distribution<K>)
    ensures forall k :: k in r.counts <==> k in keys
    ensures forall k :: k in r.percent <==> k in keys
    ensures forall k :: k in r.counts ==> r.counts[k] == multiset(keys)[k] >= 1
    ensures forall k :: k in r.percent ==>
      0.0 <= r.percent[k] <= 100.0 &&
      -0.05 <= r.percent[k] - (r.counts[k] as real) / (|keys| as real) * 100.0 <= 0.05
    ensures forall k :: k in r.percent ==>
      r.percent[k] == Round1((r.counts[k] as real) / (|keys| as real) * 100.0)
  {
    if keys == [] then Distribution(map[], map[])
    else
      var total := |keys| as real;
      var counts := map k | k in multiset(keys) :: multiset(keys)[k];
      var percent := map k | k in multiset(keys) :: Round1((multiset(keys)[k] as real) / total * 100.0);
      assert forall k :: k in percent ==> 0.0 <= percent[k] <= 100.0 by {
        forall k | k in percent ensures 0.0 <= percent[k] <= 100.0 {
          PercentOfTotal(multiset(keys)[k], |keys|);
        }
      }
      Distribution(counts, percent)
  }

  lemma PercentOfTotal(count: nat, total: nat)
    requires 0 < total && count <= total
    ensures 0.0 <= Round1((count as real) / (total as real) * 100.0) <= 100.0
  {
    var x := (count as real) / (total as real);
    assert x <= 1.0 by {
      assert (count as real) <= (total as real);
    }
    Round1Percent(x * 100.0);
  }

  /** The buckets of a distribution, listed once each: every row's bucket is among them. */
  lemma CountsCoverRows<K>(keys: seq<K>, domain: seq<K>)
    requires NoDup(domain)
    requires forall k :: k in keys ==> k in domain
    ensures CountSum(multiset(keys), domain) == |keys|
  {
    CountSumCovers(keys, domain);
  }

  function HourDomain(): (r: seq<int>)
    ensures |r| == 24 && forall h :: 0 <= h < 24 ==> r[h] == h
  {
    seq(24, h => h)
  }

  const DayNames: seq<string> := ["Lunes", "Martes", "Miércoles", "Jueves", "Viernes", "Sábado", "Domingo"]

  const MonthNames: seq<string> := ["Enero", "Febrero", "Marzo", "Abril", "Mayo", "Junio", "Julio",
                                    "Agosto", "Septiembre", "Octubre", "Noviembre", "Diciembre"]

  function Hours(times: seq<int>): (r: seq<int>)
    ensures |r| == |times|
    ensures forall i :: 0 <= i < |r| ==> r[i] == HourOf(times[i]) && 0 <= r[i] < 24
  {
    if times == [] then [] else [HourOf(times[0])] + Hours(times[1..])
  }

  /** The weekday name of a timestamp, Monday first as pandas' `dt.weekday`. */
  function WeekdayName(t: int): string
  {
    DayNames[Weekday(DayOf(t))]
  }

  function MonthName(t: int): string
  {
    MonthNames[ToCivil(DayOf(t)).month - 1]
  }

  function WeekdayNames(times: seq<int>): (r: seq<string>)
    ensures |r| == |times|
    ensures forall i :: 0 <= i < |r| ==> r[i] == WeekdayName(times[i]) && r[i] in DayNames
  {
    if times == [] then [] else [WeekdayName(times[0])] + WeekdayNames(times[1..])
  }

  function MonthNamesOf(times: seq<int>): (r: seq<string>)
    ensures |r| == |times|
    ensures forall i :: 0 <= i < |r| ==> r[i] == MonthName(times[i]) && r[i] in MonthNames
  {
    if times == [] then [] else [MonthName(times[0])] + MonthNamesOf(times[1..])
  }

  /** The two distributions each of the three functions reports: orders and stock operations. */
  datatype DistributionReport<K> = DistributionReport(orders: Distribution<K>, stockOps: Distribution<K>)

  function HourlyDistribution(orderTimes: seq<int>, stockTimes: seq<int>): DistributionReport<int>
  {
    DistributionReport(Distribute(Hours(orderTimes)), Distribute(Hours(stockTimes)))
  }

  function WeeklyDistribution(orderTimes: seq<int>, stockTimes: seq<int>): DistributionReport<string>
  {
    DistributionReport(Distribute(WeekdayNames(orderTimes)), Distribute(WeekdayNames(stockTimes)))
  }

  function MonthlyDistribution(orderTimes: seq<int>, stockTimes: seq<int>): DistributionReport<string>
  {
    DistributionReport(Distribute(MonthNamesOf(orderTimes)), Distribute(MonthNamesOf(stockTimes)))
  }

  /**
   * The hourly counts use only the hours 0–23 and, summed over those hours, count
   * every timestamp exactly once.
   */
  lemma HourlyCountsCoverRows(times: seq<int>)
    ensures forall h :: h in Distribute(Hours(times)).counts ==> 0 <= h < 24
    ensures CountSum(multiset(Hours(times)), HourDomain()) == |times|
  {
    var hs := Hours(times);
    assert forall k :: k in hs ==> k in HourDomain() by {
      forall k | k in hs ensures k in HourDomain() {
        assert HourDomain()[k] == k;
      }
    }
    CountsCoverRows(hs, HourDomain());
  }

  /** The weekday counts use only the seven names and count every timestamp exactly once. */
  lemma WeeklyCountsCoverRows(times: seq<int>)
    ensures forall k :: k in Distribute(WeekdayNames(times)).counts ==> k in DayNames
    ensures CountSum(multiset(WeekdayNames(times)), DayNames) == |times|
  {
    NamesDistinct();
    CountsCoverRows(WeekdayNames(times), DayNames);
  }

  /** The month counts use only the twelve names and count every timestamp exactly once. */
  lemma MonthlyCountsCoverRows(times: seq<int>)
    ensures forall k :: k in Distribute(MonthNamesOf(times)).counts ==> k in MonthNames
    ensures CountSum(multiset(MonthNamesOf(times)), MonthNames) == |times|
  {
    NamesDistinct();
    CountsCoverRows(MonthNamesOf(times), MonthNames);
  }

  lemma NamesDistinct()
    ensures NoDup(DayNames) && NoDup(MonthNames)
  {
  }

  // ---------------------------------------------------------------------------
  // calculate_average_daily_usage and predict_days_until_empty

  function NewestFirst(a: DailyRow, b: DailyRow): bool
  {
    a.date >= b.date
  }

  function Min(a: int, b: int): int
  {
    if a <= b then a else b
  }

  /** The `lastN` most recent days of the series. */
  function RecentDays(rows: seq<DailyRow>, lastN: nat): (r: seq<DailyRow>)
    ensures |r| == Min(lastN, |rows|)
    ensures multiset(r) <= multiset(rows)
    ensures forall i, j :: 0 <= i < j < |r| ==> r[i].date >= r[j].date
  {
    var sorted := SortBy(rows, NewestFirst);
    SortBySorted(rows, NewestFirst);
    var k := Min(lastN, |rows|);
    assert sorted == sorted[..k] + sorted[k..];
    assert multiset(sorted[..k]) <= multiset(sorted) by {
      assert multiset(sorted) == multiset(sorted[..k]) + multiset(sorted[k..]);
    }
    sorted[..k]
  }

  /** No day left out of the window is more recent than a day kept in it. */
  lemma RecentDaysAreTheNewest(rows: seq<DailyRow>, lastN: nat)
    ensures var sorted := SortBy(rows, NewestFirst);
      var k := Min(lastN, |rows|);
      sorted[..k] == RecentDays(rows, lastN) &&
      forall i, j :: 0 <= i < k <= j < |rows| ==> sorted[i].date >= sorted[j].date
  {
    SortBySorted(rows, NewestFirst);
  }

  /**
   * `calculate_average_daily_usage`: 0.0 for an empty series; otherwise the mean usage
   * of the `lastN` most recent days, where an empty window (its NaN mean) gives 0.0.
   */
  function AverageDailyUsage(rows: seq<DailyRow>, lastN: nat): (r: real)
    ensures rows == [] || lastN == 0 ==> r == 0.0
    ensures rows != [] && lastN > 0 ==>
      var recent := Usages(RecentDays(rows, lastN));
      MinOf(recent) <= r <= MaxOf(recent)
    ensures rows != [] && lastN > 0 ==>
      var recent := Usages(RecentDays(rows, lastN));
      |recent| == Min(lastN, |rows|) > 0 && r == Sum(recent) / (|recent| as real)
  {
    if rows == [] then 0.0
    else
      var recent := Usages(RecentDays(rows, lastN));
      if recent == [] then 0.0
      else
        MeanBetween(recent);
        Mean(recent)
  }

  /** With non-negative usage the average is non-negative. */
  lemma AverageDailyUsageNonNegative(rows: seq<DailyRow>, lastN: nat)
    requires forall i :: 0 <= i < |rows| ==> rows[i].usage >= 0.0
    ensures AverageDailyUsage(rows, lastN) >= 0.0
  {
    if rows != [] && lastN > 0 {
      var window := RecentDays(rows, lastN);
      forall i | 0 <= i < |window| ensures window[i].usage >= 0.0 {
        assert window[i] in multiset(rows);
      }
      var recent := Usages(window);
      MeanWithin(recent, 0.0, MaxOf(recent));
    }
  }

  /** A day count that may be infinite (`float('inf')`). */
  datatype Days = Infinite | Finite(days: real)

  /** `predict_days_until_empty`: infinite when nothing is used, else stock over average use. */
  function DaysUntilEmpty(currentStock: real, avgDailyUsage: real): (r: Days)
    ensures r.Infinite? <==> avgDailyUsage <= 0.0
    ensures r.Finite? ==> r.days * avgDailyUsage == currentStock
  {
    if avgDailyUsage <= 0.0 then Infinite else Finite(currentStock / avgDailyUsage)
  }

  /** Stock never runs out sooner when there is more of it. */
  lemma DaysUntilEmptyMonotone(s1: real, s2: real, avg: real)
    requires s1 <= s2 && avg > 0.0
    ensures DaysUntilEmpty(s1, avg).days <= DaysUntilEmpty(s2, avg).days
  {
    DivideBounds(s1 / avg, s1, s2 / avg, avg);
  }
}
