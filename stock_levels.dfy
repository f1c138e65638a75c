/**
 * The stock-levels dashboards (the full page and its basic variant): the timeline
 * built after sorting the fetched history in place, the daily usage rate, the
 * average daily usage and the days until the unreserved stock runs out, the
 * pattern charts built from the forecasting service's distributions, the "most
 * active" summaries and the forecast chart.
 */
module StockLevelsView {
  import opened Outcomes
  import opened Seqs
  import opened Calendar
  import opened Text
  import DP = DataProcessor
  import ML = MLPredictor

  /** A stock-history record as the page reads it. */
  datatype Record = Record(action: string, createdAt: int, quantity: real, newStock: real)

  // ---------------------------------------------------------------------------
  // The in-place sort and the timeline

  /** Oldest first. */
  ghost predicate ByTime(s: seq<Record>)
  {
    forall i, j :: 0 <= i < j < |s| ==> s[i].createdAt <= s[j].createdAt
  }

  /**
   * `stockHistory.sort((a, b) => a.createdAt - b.createdAt)`: the fetched array is
   * reordered in place, oldest record first, and keeps its records.
   */
  method SortByTime(a: array<Record>)
    modifies a
    ensures ByTime(a[..])
    ensures multiset(a[..]) == multiset(old(a[..]))
  {
    var i := 0;
    while i < a.Length
      invariant 0 <= i <= a.Length
      invariant ByTime(a[..i])
      invariant multiset(a[..]) == multiset(old(a[..]))
    {
      Sink(a, i);
      i := i + 1;
    }
    assert a[..a.Length] == a[..];
  }

  /** One insertion step: `a[i]` moves down past the later records before it. */
  method Sink(a: array<Record>, i: int)
    requires 0 <= i < a.Length
    requires ByTime(a[..i])
    modifies a
    ensures ByTime(a[..i + 1])
    ensures multiset(a[..]) == multiset(old(a[..]))
  {
    var j := i;
    SinkStart(a[..], i);
    while j > 0 && a[j - 1].createdAt > a[j].createdAt
      invariant 0 <= j <= i < a.Length
      invariant SortedExcept(a[..], i, j)
      invariant multiset(a[..]) == multiset(old(a[..]))
    {
      ghost var s := a[..];
      a[j - 1], a[j] := a[j], a[j - 1];
      assert a[..] == Swapped(s, j);
      SinkStep(s, i, j);
      j := j - 1;
    }
    SinkDone(a[..], i, j);
  }

  /** Records `0..i` are in time order, except that the one at `j` may be earlier than those before it. */
  ghost predicate SortedExcept(s: seq<Record>, i: int, j: int)
    requires 0 <= j <= i < |s|
  {
    forall p, q :: 0 <= p < q <= i && q != j ==> s[p].createdAt <= s[q].createdAt
  }

  /** `s` with its records at `j - 1` and `j` exchanged. */
  function Swapped(s: seq<Record>, j: int): (r: seq<Record>)
    requires 0 < j < |s|
    ensures multiset(r) == multiset(s)
  {
    s[j - 1 := s[j]][j := s[j - 1]]
  }

  lemma SinkStart(s: seq<Record>, i: int)
    requires 0 <= i < |s| && ByTime(s[..i])
    ensures SortedExcept(s, i, i)
  {
    forall p, q | 0 <= p < q <= i && q != i
      ensures s[p].createdAt <= s[q].createdAt
    {
      assert s[..i][p] == s[p] && s[..i][q] == s[q];
    }
  }

  lemma SinkStep(s: seq<Record>, i: int, j: int)
    requires 0 < j <= i < |s| && SortedExcept(s, i, j)
    requires s[j - 1].createdAt > s[j].createdAt
    ensures SortedExcept(Swapped(s, j), i, j - 1)
  {
  }

  lemma SinkDone(s: seq<Record>, i: int, j: int)
    requires 0 <= j <= i < |s| && SortedExcept(s, i, j)
    requires j == 0 || s[j - 1].createdAt <= s[j].createdAt
    ensures ByTime(s[..i + 1])
  {
    forall p, q | 0 <= p < q <= i
      ensures s[p].createdAt <= s[q].createdAt
    {
      if q == j && p < j - 1 {
        assert s[p].createdAt <= s[j - 1].createdAt;
      }
    }
  }

  /** One point of the stock timeline: when, the level reached, and the quantity moved. */
  datatype TimelinePoint = TimelinePoint(time: int, stock: real, amount: real)

  function Timeline(records: seq<Record>): (r: seq<TimelinePoint>)
    ensures |r| == |records|
    ensures forall i :: 0 <= i < |r| ==>
      r[i] == TimelinePoint(records[i].createdAt, records[i].newStock, records[i].quantity)
  {
    seq(|records|, i requires 0 <= i < |records| =>
      TimelinePoint(records[i].createdAt, records[i].newStock, records[i].quantity))
  }

  // ---------------------------------------------------------------------------
  // The daily usage rate

  /** Only sales and removals consume stock. */
  predicate IsUsage(r: Record)
  {
    r.action == "remove" || r.action == "sell"
  }

  function UsageRecords(history: seq<Record>): seq<Record>
  {
    Filter(history, IsUsage)
  }

  function Day(r: Record): int
  {
    DayOf(r.createdAt)
  }

  /** The day of each record. */
  function Days(rows: seq<Record>): (r: seq<int>)
    ensures |r| == |rows|
    ensures forall i :: 0 <= i < |r| ==> r[i] == Day(rows[i])
  {
    seq(|rows|, i requires 0 <= i < |rows| => Day(rows[i]))
  }

  function OnDay(d: int): Record -> bool
  {
    r => Day(r) == d
  }

  function Amounts(rows: seq<Record>): (r: seq<real>)
    ensures |r| == |rows|
    ensures forall i :: 0 <= i < |r| ==> r[i] == rows[i].quantity
  {
    seq(|rows|, i requires 0 <= i < |rows| => rows[i].quantity)
  }

  /** The quantities moved on day `d`, added up: the reference for the fold below. */
  function DayUsage(rows: seq<Record>, d: int): real
  {
    Sum(Amounts(Filter(rows, OnDay(d))))
  }

  /**
   * The `reduce` into a record keyed by the day: each row adds its quantity to its
   * day's entry, creating the entry at its first row. Every day of a row gets an
   * entry, no other day does, and the entry is that day's total.
   */
  function UsageRate(rows: seq<Record>): (acc: map<int, real>)
    ensures forall d :: d in acc <==> d in Days(rows)
    ensures forall d :: d in acc ==> acc[d] == DayUsage(rows, d)
    decreases |rows|
  {
    if rows == [] then map[]
    else
      var init := rows[..|rows| - 1];
      var last := rows[|rows| - 1];
      var acc := UsageRate(init);
      var d := Day(last);
      assert rows == init + [last];
      assert Days(rows) == Days(init) + [d];
      UsageRateStep(init, last);
      acc[d := (if d in acc then acc[d] else 0.0) + last.quantity]
  }

  /** What one more row does to the day totals. */
  lemma UsageRateStep(init: seq<Record>, last: Record)
    ensures forall e :: DayUsage(init + [last], e) == DayUsage(init, e) + (if Day(last) == e then last.quantity else 0.0)
    ensures Day(last) !in Days(init) ==> DayUsage(init, Day(last)) == 0.0
  {
    forall e ensures DayUsage(init + [last], e) == DayUsage(init, e) + (if Day(last) == e then last.quantity else 0.0) {
      DayUsageAppend(init, last, e);
    }
    if Day(last) !in Days(init) {
      NoRowNoUsage(init, Day(last));
    }
  }

  lemma AmountsAppend(a: seq<Record>, b: seq<Record>)
    ensures Amounts(a + b) == Amounts(a) + Amounts(b)
  {
  }

  lemma DayUsageAppend(rows: seq<Record>, x: Record, d: int)
    ensures DayUsage(rows + [x], d) == DayUsage(rows, d) + (if Day(x) == d then x.quantity else 0.0)
  {
    FilterAppend(rows, [x], OnDay(d));
    var f := Filter(rows, OnDay(d));
    var g := Filter([x], OnDay(d));
    assert g == if Day(x) == d then [x] else [];
    AmountsAppend(f, g);
    SumAppend(Amounts(f), Amounts(g));
    assert Sum(Amounts(g)) == if Day(x) == d then x.quantity else 0.0;
  }

  lemma NoRowNoUsage(rows: seq<Record>, d: int)
    requires d !in Days(rows)
    ensures DayUsage(rows, d) == 0.0
  {
    var f := Filter(rows, OnDay(d));
    assert forall x :: x in rows ==> !OnDay(d)(x) by {
      forall x | x in rows ensures !OnDay(d)(x) {
        var i :| 0 <= i < |rows| && rows[i] == x;
        assert Days(rows)[i] == Day(x);
      }
    }
    FilterNone(rows, OnDay(d));
  }

  /** One bar of the usage chart: a day with usage and its total. */
  datatype UsagePoint = UsagePoint(day: int, usage: real)

  /** The days with usage, in the order the record's keys were created. */
  function UsageDays(history: seq<Record>): (r: seq<int>)
    ensures NoDup(r)
  {
    Distinct(Days(UsageRecords(history)))
  }

  /** `Object.entries(stockUsageRate)`, in key-creation order. */
  function UsageData(history: seq<Record>): (r: seq<UsagePoint>)
    ensures |r| == |UsageDays(history)|
    ensures forall i :: 0 <= i < |r| ==>
      r[i].day == UsageDays(history)[i] && r[i].usage == DayUsage(UsageRecords(history), r[i].day)
  {
    var rows := UsageRecords(history);
    var rate := UsageRate(rows);
    var days := UsageDays(history);
    assert forall i :: 0 <= i < |days| ==> days[i] in rate;
    seq(|days|, i requires 0 <= i < |days| => UsagePoint(days[i], rate[days[i]]))
  }

  function Usages(points: seq<UsagePoint>): (r: seq<real>)
    ensures |r| == |points|
    ensures forall i :: 0 <= i < |r| ==> r[i] == points[i].usage
  {
    seq(|points|, i requires 0 <= i < |points| => points[i].usage)
  }

  /**
   * One entry per day on which stock was sold or removed, no day twice, and no
   * zero-filled entries for idle days.
   */
  lemma UsageDataDays(history: seq<Record>)
    ensures NoDup(BarDays(UsageData(history)))
    ensures forall d :: d in BarDays(UsageData(history)) <==>
      exists j :: 0 <= j < |history| && IsUsage(history[j]) && Day(history[j]) == d
  {
    var pts := UsageData(history);
    assert BarDays(pts) == UsageDays(history);
    forall d ensures d in BarDays(pts) <==> exists j :: 0 <= j < |history| && IsUsage(history[j]) && Day(history[j]) == d {
      UsageDayMembers(history, d);
    }
  }

  /** A day is among the usage records' days exactly when some sale or removal happened on it. */
  lemma UsageDayMembers(history: seq<Record>, d: int)
    ensures d in Days(UsageRecords(history)) <==> exists j :: 0 <= j < |history| && IsUsage(history[j]) && Day(history[j]) == d
  {
    var rows := UsageRecords(history);
    if d in Days(rows) {
      var i :| 0 <= i < |rows| && Days(rows)[i] == d;
      assert rows[i] in history;
    }
    if exists j :: 0 <= j < |history| && IsUsage(history[j]) && Day(history[j]) == d {
      var j :| 0 <= j < |history| && IsUsage(history[j]) && Day(history[j]) == d;
      assert history[j] in rows;
      var i :| 0 <= i < |rows| && rows[i] == history[j];
      assert Days(rows)[i] == d;
    }
  }

  /** The days of the chart's bars. */
  function BarDays(points: seq<UsagePoint>): (r: seq<int>)
    ensures |r| == |points|
    ensures forall i :: 0 <= i < |r| ==> r[i] == points[i].day
  {
    seq(|points|, i requires 0 <= i < |points| => points[i].day)
  }

  /** Records other than sales and removals leave the usage chart unchanged. */
  lemma OtherActionsIgnored(history: seq<Record>, x: Record)
    requires !IsUsage(x)
    ensures UsageData(history + [x]) == UsageData(history)
  {
    FilterAppend(history, [x], IsUsage);
    assert Filter([x], IsUsage) == [];
    assert UsageRecords(history + [x]) == UsageRecords(history);
  }

  /** The day totals listed in `days`. */
  function DayTotals(days: seq<int>, rows: seq<Record>): (r: seq<real>)
    ensures |r| == |days|
    ensures forall i :: 0 <= i < |r| ==> r[i] == DayUsage(rows, days[i])
  {
    seq(|days|, i requires 0 <= i < |days| => DayUsage(rows, days[i]))
  }

  lemma SumSingle(x: real)
    ensures Sum([x]) == x
  {
  }

  /** A new row adds its quantity to the day totals when its day is listed once. */
  lemma {:induction false} DayTotalsAddRow(days: seq<int>, rows: seq<Record>, x: Record)
    requires NoDup(days)
    ensures Sum(DayTotals(days, rows + [x])) ==
      Sum(DayTotals(days, rows)) + (if Day(x) in days then x.quantity else 0.0)
  {
    if days != [] {
      var init := days[..|days| - 1];
      var d := days[|days| - 1];
      assert days == init + [d];
      assert NoDup(init);
      assert d !in init;
      DayTotalsAddRow(init, rows, x);
      assert DayTotals(days, rows + [x]) == DayTotals(init, rows + [x]) + [DayUsage(rows + [x], d)];
      assert DayTotals(days, rows) == DayTotals(init, rows) + [DayUsage(rows, d)];
      SumAppend(DayTotals(init, rows + [x]), [DayUsage(rows + [x], d)]);
      SumAppend(DayTotals(init, rows), [DayUsage(rows, d)]);
      SumSingle(DayUsage(rows + [x], d));
      SumSingle(DayUsage(rows, d));
      DayUsageAppend(rows, x, d);
      assert Day(x) in days <==> Day(x) in init || Day(x) == d;
    }
  }

  /** The totals over the distinct days add up to the quantity of every row. */
  lemma {:induction false} DayTotalsCoverRows(rows: seq<Record>)
    ensures Sum(DayTotals(Distinct(Days(rows)), rows)) == Sum(Amounts(rows))
  {
    if rows == [] {
      assert DayTotals(Distinct(Days(rows)), rows) == [];
    } else {
      var init := rows[..|rows| - 1];
      var x := rows[|rows| - 1];
      var d := Day(x);
      assert rows == init + [x];
      var s := Days(rows);
      assert s[..|s| - 1] == Days(init);
      var ds := Distinct(Days(init));
      DayTotalsCoverRows(init);
      DayTotalsAddRow(ds, init, x);
      AmountsAppend(init, [x]);
      assert Amounts(rows) == Amounts(init) + [x.quantity];
      SumAppend(Amounts(init), [x.quantity]);
      SumSingle(x.quantity);
      assert s[|s| - 1] == d;
      if d in ds {
        assert Distinct(s) == ds;
      } else {
        assert Distinct(s) == ds + [d];
        assert d !in Days(init);
        NewDayTotal(ds, init, x);
      }
    }
  }

  /** A row on a day no earlier row has adds a bar holding just its quantity. */
  lemma NewDayTotal(ds: seq<int>, init: seq<Record>, x: Record)
    requires Day(x) !in Days(init)
    ensures Sum(DayTotals(ds + [Day(x)], init + [x])) == Sum(DayTotals(ds, init + [x])) + x.quantity
  {
    var d, rows := Day(x), init + [x];
    NoRowNoUsage(init, d);
    DayUsageAppend(init, x, d);
    assert DayTotals(ds + [d], rows) == DayTotals(ds, rows) + [DayUsage(rows, d)];
    SumAppend(DayTotals(ds, rows), [DayUsage(rows, d)]);
    SumSingle(DayUsage(rows, d));
  }

  /**
   * The usage chart loses nothing: its bars add up to the quantities of all
   * sales and removals.
   */
  lemma UsageConserved(history: seq<Record>)
    ensures Sum(Usages(UsageData(history))) == Sum(Amounts(UsageRecords(history)))
  {
    var rows := UsageRecords(history);
    assert Usages(UsageData(history)) == DayTotals(UsageDays(history), rows);
    DayTotalsCoverRows(rows);
  }

  /** A nondecreasing sequence has its distinct values in strictly increasing order. */
  lemma {:induction false} DistinctOfSortedIncreases(s: seq<int>)
    requires forall i, j :: 0 <= i < j < |s| ==> s[i] <= s[j]
    ensures forall i, j :: 0 <= i < j < |Distinct(s)| ==> Distinct(s)[i] < Distinct(s)[j]
  {
    if s != [] {
      var init := s[..|s| - 1];
      var x := s[|s| - 1];
      DistinctOfSortedIncreases(init);
      var d := Distinct(init);
      assert s == init + [x];
      if x !in d {
        forall i | 0 <= i < |d| ensures d[i] < x {
          assert d[i] in init;
        }
      }
    }
  }

  lemma DayOfMonotone(t1: int, t2: int)
    requires t1 <= t2
    ensures DayOf(t1) <= DayOf(t2)
  {
  }

  /**
   * The page sorts the history before folding it, so the usage chart lists its
   * days oldest first.
   */
  lemma UsageDaysAscending(history: seq<Record>)
    requires ByTime(history)
    ensures forall i, j :: 0 <= i < j < |UsageData(history)| ==> UsageData(history)[i].day < UsageData(history)[j].day
  {
    var rows := UsageRecords(history);
    var days := Days(rows);
    forall i, j | 0 <= i < j < |days| ensures days[i] <= days[j] {
      FilterOrder(history, i, j);
      DayOfMonotone(rows[i].createdAt, rows[j].createdAt);
    }
    DistinctOfSortedIncreases(days);
  }

  /** Keeping the usage records keeps their time order. */
  lemma {:induction false} FilterOrder(s: seq<Record>, i: int, j: int)
    requires ByTime(s)
    requires 0 <= i < j < |UsageRecords(s)|
    ensures UsageRecords(s)[i].createdAt <= UsageRecords(s)[j].createdAt
  {
    var f, rest := UsageRecords(s), UsageRecords(s[1..]);
    ByTimeTail(s);
    if IsUsage(s[0]) {
      assert f == [s[0]] + rest;
      if i == 0 {
        assert f[j] == rest[j - 1] && rest[j - 1] in s[1..];
        var k :| 0 <= k < |s| - 1 && s[1..][k] == f[j];
        assert s[k + 1] == f[j];
      } else {
        FilterOrder(s[1..], i - 1, j - 1);
      }
    } else {
      assert f == rest;
      FilterOrder(s[1..], i, j);
    }
  }

  lemma ByTimeTail(s: seq<Record>)
    requires ByTime(s) && s != []
    ensures ByTime(s[1..])
  {
    forall i, j | 0 <= i < j < |s| - 1
      ensures s[1..][i].createdAt <= s[1..][j].createdAt
    {
      assert s[1..][i] == s[i + 1] && s[1..][j] == s[j + 1];
    }
  }

  // ---------------------------------------------------------------------------
  // Average usage and days until empty

  /**
   * `total / days || 1`: the mean daily usage, replaced by 1 when it is not a
   * number (no usage days) or zero.
   */
  function AverageUsage(points: seq<UsagePoint>): (r: real)
    ensures r != 0.0
    ensures points == [] ==> r == 1.0
    ensures points != [] && Sum(Usages(points)) != 0.0 ==> r == Sum(Usages(points)) / (|points| as real)
    ensures points != [] && Sum(Usages(points)) == 0.0 ==> r == 1.0
  {
    if points == [] then 1.0
    else
      var total := Sum(Usages(points));
      if total == 0.0 then 1.0
      else
        assert total / (|points| as real) != 0.0 by {
          assert total / (|points| as real) * (|points| as real) == total;
        }
        total / (|points| as real)
  }

  /**
   * Whenever the average is not the fallback, it is the total usage per usage day
   * and lies between the quietest and the busiest day.
   */
  lemma AverageUsageIsPerUsageDay(history: seq<Record>)
    requires UsageData(history) != [] && Sum(Amounts(UsageRecords(history))) != 0.0
    ensures AverageUsage(UsageData(history)) ==
      Sum(Amounts(UsageRecords(history))) / (|UsageDays(history)| as real)
    ensures MinOf(Usages(UsageData(history))) <= AverageUsage(UsageData(history)) <= MaxOf(Usages(UsageData(history)))
  {
    UsageConserved(history);
    MeanBetween(Usages(UsageData(history)));
  }

  /** `unreserved / averageUsage`: how many average days the free stock lasts. */
  function DaysUntilEmpty(unreserved: real, averageUsage: real): (r: real)
    requires averageUsage != 0.0
    ensures r * averageUsage == unreserved
  {
    unreserved / averageUsage
  }

  /** What the basic and the full page compute from the history. */
  datatype LevelsView = LevelsView(
    timeline: seq<TimelinePoint>, usage: seq<UsagePoint>, averageUsage: real, daysUntilEmpty: real)

  /**
   * The page body: the history array is sorted in place (the timeline is built
   * from it, and the fold below reads the same, now sorted, array), then the usage
   * rate, the average and the days until empty follow.
   */
  method StockLevels(history: array<Record>, unreserved: real) returns (v: LevelsView)
    modifies history
    ensures multiset(history[..]) == multiset(old(history[..]))
    ensures ByTime(history[..])
    ensures v.timeline == Timeline(history[..])
    ensures forall i, j :: 0 <= i < j < |v.timeline| ==> v.timeline[i].time <= v.timeline[j].time
    ensures v.usage == UsageData(history[..])
    ensures forall i, j :: 0 <= i < j < |v.usage| ==> v.usage[i].day < v.usage[j].day
    ensures v.averageUsage == AverageUsage(v.usage)
    ensures v.daysUntilEmpty == DaysUntilEmpty(unreserved, v.averageUsage)
  {
    SortByTime(history);
    var records := history[..];
    var timeline := Timeline(records);
    var usage := UsageData(records);
    UsageDaysAscending(records);
    var average := AverageUsage(usage);
    v := LevelsView(timeline, usage, average, DaysUntilEmpty(unreserved, average));
  }

  // ---------------------------------------------------------------------------
  // The pattern charts

  /** One bar group: its label, the order count and the stock-operation count. */
  datatype ChartRow = ChartRow(name: string, orders: real, operations: real)

  /** `counts[key] || 0`. */
  function Bar<K>(counts: map<K, nat>, key: K): real
  {
    if key in counts then counts[key] as real else 0.0
  }

  function Rows<K>(labels: seq<string>, keys: seq<K>, report: DP.DistributionReport<K>): (r: seq<ChartRow>)
    requires |labels| == |keys|
    ensures |r| == |keys|
    ensures forall i :: 0 <= i < |r| ==>
      r[i] == ChartRow(labels[i], Bar(report.orders.counts, keys[i]), Bar(report.stockOps.counts, keys[i]))
  {
    seq(|keys|, i requires 0 <= i < |keys| =>
      ChartRow(labels[i], Bar(report.orders.counts, keys[i]), Bar(report.stockOps.counts, keys[i])))
  }

  /** Monday first, one row per weekday; no rows without a weekly distribution. */
  function FormatWeekly(report: Option<DP.DistributionReport<string>>): (r: seq<ChartRow>)
    ensures report.None? ==> r == []
    ensures report.Some? ==> |r| == 7
    ensures report.Some? ==> forall i :: 0 <= i < |r| ==>
      (r[i].name == DP.DayNames[i] &&
       r[i].orders == Bar(report.value.orders.counts, DP.DayNames[i]) &&
       r[i].operations == Bar(report.value.stockOps.counts, DP.DayNames[i]))
  {
    match report
    case None => []
    case Some(rep) => Rows(DP.DayNames, DP.DayNames, rep)
  }

  /** January first, one row per month; no rows without a monthly distribution. */
  function FormatMonthly(report: Option<DP.DistributionReport<string>>): (r: seq<ChartRow>)
    ensures report.None? ==> r == []
    ensures report.Some? ==> |r| == 12
    ensures report.Some? ==> forall i :: 0 <= i < |r| ==>
      (r[i].name == DP.MonthNames[i] &&
       r[i].orders == Bar(report.value.orders.counts, DP.MonthNames[i]) &&
       r[i].operations == Bar(report.value.stockOps.counts, DP.MonthNames[i]))
  {
    match report
    case None => []
    case Some(rep) => Rows(DP.MonthNames, DP.MonthNames, rep)
  }

  /** The label `${i}:00` of hour `i`. */
  function HourLabels(): (r: seq<string>)
    ensures |r| == 24 && forall i :: 0 <= i < 24 ==> r[i] == NatToString(i) + ":00"
  {
    seq(24, i requires 0 <= i < 24 => NatToString(i) + ":00")
  }

  /** Hours 0 to 23 in order; no rows without an hourly distribution. */
  function FormatHourly(report: Option<DP.DistributionReport<int>>): (r: seq<ChartRow>)
    ensures report.None? ==> r == []
    ensures report.Some? ==> |r| == 24
    ensures report.Some? ==> forall i :: 0 <= i < |r| ==>
      (r[i].name == NatToString(i) + ":00" &&
       r[i].orders == Bar(report.value.orders.counts, i) &&
       r[i].operations == Bar(report.value.stockOps.counts, i))
  {
    match report
    case None => []
    case Some(rep) => Rows(HourLabels(), DP.HourDomain(), rep)
  }

  function Orders(rows: seq<ChartRow>): (r: seq<real>)
    ensures |r| == |rows|
    ensures forall i :: 0 <= i < |r| ==> r[i] == rows[i].orders
  {
    seq(|rows|, i requires 0 <= i < |rows| => rows[i].orders)
  }

  function Operations(rows: seq<ChartRow>): (r: seq<real>)
    ensures |r| == |rows|
    ensures forall i :: 0 <= i < |r| ==> r[i] == rows[i].operations
  {
    seq(|rows|, i requires 0 <= i < |rows| => rows[i].operations)
  }

  /** The bucket counts of `m` over `domain`, as reals. */
  function Tallies<K>(m: multiset<K>, domain: seq<K>): (r: seq<real>)
    ensures |r| == |domain|
    ensures forall i :: 0 <= i < |r| ==> r[i] == m[domain[i]] as real
  {
    seq(|domain|, i requires 0 <= i < |domain| => m[domain[i]] as real)
  }

  lemma {:induction false} TalliesSum<K>(m: multiset<K>, domain: seq<K>)
    ensures Sum(Tallies(m, domain)) == CountSum(m, domain) as real
  {
    if domain != [] {
      assert Tallies(m, domain)[1..] == Tallies(m, domain[1..]);
      TalliesSum(m, domain[1..]);
    }
  }

  /** The bar of each bucket is the number of keys in it. */
  lemma BarsAreTallies<K(!new)>(keys: seq<K>, domain: seq<K>)
    ensures forall i :: 0 <= i < |domain| ==>
      Bar(DP.Distribute(keys).counts, domain[i]) == multiset(keys)[domain[i]] as real
  {
    forall i | 0 <= i < |domain|
      ensures Bar(DP.Distribute(keys).counts, domain[i]) == multiset(keys)[domain[i]] as real
    {
      if domain[i] !in keys {
        assert multiset(keys)[domain[i]] == 0;
      }
    }
  }

  /**
   * Rows charted from the distributions of two key lists, one row per key of a
   * domain that lists each key once and holds every key, add up to the lengths of
   * the two lists.
   */
  lemma RowsCountEveryKey<K(!new)>(labels: seq<string>, domain: seq<K>, orderKeys: seq<K>, stockKeys: seq<K>)
    requires |labels| == |domain| && NoDup(domain)
    requires forall k :: k in orderKeys ==> k in domain
    requires forall k :: k in stockKeys ==> k in domain
    ensures var rows := Rows(labels, domain, DP.DistributionReport(DP.Distribute(orderKeys), DP.Distribute(stockKeys)));
      Sum(Orders(rows)) == |orderKeys| as real && Sum(Operations(rows)) == |stockKeys| as real
  {
    var rows := Rows(labels, domain, DP.DistributionReport(DP.Distribute(orderKeys), DP.Distribute(stockKeys)));
    BarsAreTallies(orderKeys, domain);
    BarsAreTallies(stockKeys, domain);
    assert Orders(rows) == Tallies(multiset(orderKeys), domain);
    assert Operations(rows) == Tallies(multiset(stockKeys), domain);
    TalliesSum(multiset(orderKeys), domain);
    TalliesSum(multiset(stockKeys), domain);
    DP.CountsCoverRows(orderKeys, domain);
    DP.CountsCoverRows(stockKeys, domain);
  }

  /**
   * Charted from the forecasting service's weekly distribution, the weekday bars
   * add up to the number of orders and the number of stock operations.
   */
  lemma WeeklyBarsCountEveryRow(orderTimes: seq<int>, stockTimes: seq<int>)
    ensures Sum(Orders(FormatWeekly(Some(DP.WeeklyDistribution(orderTimes, stockTimes))))) == |orderTimes| as real
    ensures Sum(Operations(FormatWeekly(Some(DP.WeeklyDistribution(orderTimes, stockTimes))))) == |stockTimes| as real
  {
    DP.NamesDistinct();
    RowsCountEveryKey(DP.DayNames, DP.DayNames, DP.WeekdayNames(orderTimes), DP.WeekdayNames(stockTimes));
  }

  /** The same for the monthly chart. */
  lemma MonthlyBarsCountEveryRow(orderTimes: seq<int>, stockTimes: seq<int>)
    ensures Sum(Orders(FormatMonthly(Some(DP.MonthlyDistribution(orderTimes, stockTimes))))) == |orderTimes| as real
    ensures Sum(Operations(FormatMonthly(Some(DP.MonthlyDistribution(orderTimes, stockTimes))))) == |stockTimes| as real
  {
    DP.NamesDistinct();
    RowsCountEveryKey(DP.MonthNames, DP.MonthNames, DP.MonthNamesOf(orderTimes), DP.MonthNamesOf(stockTimes));
  }

  /** The hour domain has no repeats and holds the hour of every timestamp. */
  lemma HoursInDomain(times: seq<int>)
    ensures NoDup(DP.HourDomain())
    ensures forall k :: k in DP.Hours(times) ==> k in DP.HourDomain()
  {
    var hours := DP.HourDomain();
    forall k | k in DP.Hours(times) ensures k in hours {
      assert hours[k] == k;
    }
  }

  /** The same for the hourly chart. */
  lemma HourlyBarsCountEveryRow(orderTimes: seq<int>, stockTimes: seq<int>)
    ensures Sum(Orders(FormatHourly(Some(DP.HourlyDistribution(orderTimes, stockTimes))))) == |orderTimes| as real
    ensures Sum(Operations(FormatHourly(Some(DP.HourlyDistribution(orderTimes, stockTimes))))) == |stockTimes| as real
  {
    HoursInDomain(orderTimes);
    HoursInDomain(stockTimes);
    RowsCountEveryKey(HourLabels(), DP.HourDomain(), DP.Hours(orderTimes), DP.Hours(stockTimes));
  }

  // ---------------------------------------------------------------------------
  // The "most active" summaries

  /** `(prev.ordenes > current.ordenes) ? prev : current`. */
  function Busier(prev: ChartRow, current: ChartRow): ChartRow
  {
    if prev.orders > current.orders then prev else current
  }

  /**
   * `r` is `first` (position -1) or the row at position `k`, and every later row
   * has fewer orders.
   */
  ghost predicate LastBusiest(first: ChartRow, rows: seq<ChartRow>, r: ChartRow, k: int)
  {
    -1 <= k < |rows| && (if k == -1 then r == first else rows[k] == r) &&
    forall j :: k < j < |rows| ==> rows[j].orders < r.orders
  }

  /**
   * `rows.reduce(Busier, first)`: a row with the most orders, and of those the
   * last one, since a later row wins a tie.
   */
  function Reduce(first: ChartRow, rows: seq<ChartRow>): (r: ChartRow)
    ensures first.orders <= r.orders
    ensures forall i :: 0 <= i < |rows| ==> rows[i].orders <= r.orders
    ensures exists k :: LastBusiest(first, rows, r, k)
    decreases |rows|
  {
    if rows == [] then
      assert LastBusiest(first, rows, first, -1);
      first
    else
      var init := rows[..|rows| - 1];
      var acc := Reduce(first, init);
      var last := rows[|rows| - 1];
      assert rows == init + [last];
      if acc.orders > last.orders then
        assert exists k :: LastBusiest(first, rows, acc, k) by {
          var k :| LastBusiest(first, init, acc, k);
          assert LastBusiest(first, rows, acc, k);
        }
        acc
      else
        assert LastBusiest(first, rows, last, |rows| - 1);
        last
  }

  /** The row the "most active" summary shows: absent when the chart has no rows. */
  function MostActive(rows: seq<ChartRow>): (r: Option<ChartRow>)
    ensures r.None? <==> rows == []
    ensures r.Some? ==> forall i :: 0 <= i < |rows| ==> rows[i].orders <= r.value.orders
    ensures r.Some? ==> exists k :: 0 <= k < |rows| && rows[k] == r.value &&
                                    forall j :: k < j < |rows| ==> rows[j].orders < r.value.orders
  {
    if rows == [] then None
    else
      var m := Reduce(rows[0], rows);
      assert exists k :: 0 <= k < |rows| && rows[k] == m &&
                         forall j :: k < j < |rows| ==> rows[j].orders < m.orders by {
        var k :| LastBusiest(rows[0], rows, m, k);
        assert k >= 0;
      }
      Some(m)
  }

  // ---------------------------------------------------------------------------
  // The forecast chart

  /** One forecast point as charted: day, prediction and its band. */
  datatype ForecastPoint = ForecastPoint(day: int, prediction: real, minimum: real, maximum: real)

  /** `full_forecast.map(...)`, or nothing when the prediction has no forecast. */
  function FormatForecast(forecast: Option<seq<ML.ForecastRow>>): (r: seq<ForecastPoint>)
    ensures forecast.None? ==> r == []
    ensures forecast.Some? ==> |r| == |forecast.value|
    ensures forecast.Some? ==> forall i :: 0 <= i < |r| ==>
      r[i] == ForecastPoint(forecast.value[i].ds, forecast.value[i].yhat, forecast.value[i].lower, forecast.value[i].upper)
  {
    match forecast
    case None => []
    case Some(rows) =>
      seq(|rows|, i requires 0 <= i < |rows| =>
        ForecastPoint(rows[i].ds, rows[i].yhat, rows[i].lower, rows[i].upper))
  }
}
