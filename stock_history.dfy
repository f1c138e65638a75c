/**
 * The stock-history dashboard: the time filter, the per-action, per-hour and
 * per-weekday activity counts, the stock timeline and the average activity per day.
 *
 * Timestamps are seconds in the browser's time zone (`Calendar`); the current time
 * is a parameter.
 */
module StockHistoryView {
  import opened Seqs
  import opened Sorting
  import opened Calendar
  import opened Tallies

  /** A stock-history record as the dashboard receives it. */
  datatype Entry = Entry(action: string, createdAt: int, previousStock: real, newStock: real)

  /** The time filter: the whole history or the last `days` days (7, 14 or 30 in the selector). */
  datatype TimeFilter = AllTime | LastDays(days: nat)

  // ---------------------------------------------------------------------------
  // Counting helpers

  /** A count of 0 for each of `keys`: the loop that initialises every bucket. */
  method ZeroCounts<K>(keys: seq<K>) returns (counts: map<K, nat>)
    ensures forall k :: k in counts <==> k in keys
    ensures forall k :: k in counts ==> counts[k] == 0
  {
    counts := map[];
    var i := 0;
    while i < |keys|
      invariant 0 <= i <= |keys|
      invariant forall k :: k in counts <==> k in keys[..i]
      invariant forall k :: k in counts ==> counts[k] == 0
    {
      assert keys[..i + 1] == keys[..i] + [keys[i]];
      counts := counts[keys[i] := 0];
      i := i + 1;
    }
    assert keys[..i] == keys;
  }

  /** The `forEach` that adds one to the bucket of each item, creating a bucket that is missing. */
  method Tally<K>(init: map<K, nat>, items: seq<K>) returns (counts: map<K, nat>)
    ensures forall k :: k in counts <==> k in init || k in items
    ensures forall k :: k in counts ==> counts[k] == (if k in init then init[k] else 0) + multiset(items)[k]
  {
    counts := init;
    var i := 0;
    while i < |items|
      invariant 0 <= i <= |items|
      invariant forall k :: k in counts <==> k in init || k in items[..i]
      invariant forall k :: k in counts ==> counts[k] == (if k in init then init[k] else 0) + multiset(items[..i])[k]
    {
      var c := if items[i] in counts then counts[items[i]] else 0;
      assert items[..i + 1] == items[..i] + [items[i]];
      counts := counts[items[i] := c + 1];
      i := i + 1;
    }
    assert items[..i] == items;
  }

  // ---------------------------------------------------------------------------
  // filterHistoryByTime

  function NewerFirst(a: Entry, b: Entry): bool
  {
    a.createdAt >= b.createdAt
  }

  /** The records after `cutoff`. */
  function After(cutoff: int): Entry -> bool
  {
    (e: Entry) => e.createdAt > cutoff
  }

  /** `addDays(now, -days)`. */
  function Cutoff(now: int, days: nat): int
  {
    now - days * SecondsPerDay
  }

  /**
   * `filterHistoryByTime`: the whole history or the records strictly newer than the
   * cut-off, newest first.
   */
  function FilterHistoryByTime(history: seq<Entry>, filter: TimeFilter, now: int): (r: seq<Entry>)
    ensures SortedBy(r, NewerFirst)
    ensures filter.AllTime? ==> multiset(r) == multiset(history)
    ensures filter.LastDays? ==>
      multiset(r) == multiset(Filter(history, After(Cutoff(now, filter.days)))) &&
      multiset(r) <= multiset(history) &&
      forall e :: e in r <==> e in history && e.createdAt > Cutoff(now, filter.days)
  {
    SortBySorted(history, NewerFirst);
    if filter.AllTime? then SortBy(history, NewerFirst)
    else
      var cutoff := Cutoff(now, filter.days);
      var kept := Filter(history, After(cutoff));
      SortBySorted(kept, NewerFirst);
      FilterSubMultiset(history, After(cutoff));
      var r := SortBy(kept, NewerFirst);
      assert forall e :: After(cutoff)(e) == (e.createdAt > cutoff);
      assert forall e :: e in r <==> e in kept by {
        forall e ensures e in r <==> e in kept {
          assert e in r <==> e in multiset(r);
          assert e in kept <==> e in multiset(kept);
        }
      }
      r
  }

  /** The detail table: the first ten filtered records. */
  function DetailRows(filtered: seq<Entry>): (r: seq<Entry>)
    ensures |r| == if |filtered| < 10 then |filtered| else 10
    ensures forall i :: 0 <= i < |r| ==> r[i] == filtered[i]
  {
    if |filtered| < 10 then filtered else filtered[..10]
  }

  /** The number of days the average activity is spread over: 30 for the whole history. */
  function Span(filter: TimeFilter): nat
  {
    if filter.AllTime? then 30 else filter.days
  }

  /** `activityPerDay`: the filtered count over the filter's span. */
  function ActivityPerDay(count: nat, filter: TimeFilter): (r: real)
    requires filter.LastDays? ==> filter.days > 0
    ensures r >= 0.0
    ensures r * (Span(filter) as real) == count as real
  {
    (count as real) / (Span(filter) as real)
  }

  // ---------------------------------------------------------------------------
  // getActionDistribution

  /** The display names of the known actions. */
  const ActionNames: map<string, string> := map[
    "add_mounted" := "Montaje",
    "remove_mounted" := "Desmontaje",
    "mounted_correction" := "Corrección de Montaje",
    "direct_sale" := "Venta Directa",
    "direct_sale_correction" := "Corrección de Venta",
    "new_order" := "Nuevo Pedido",
    "cancel_order" := "Cancelación de Pedido",
    "order_delivered" := "Pedido Entregado",
    "order_error" := "Error en Pedido",
    "order_update" := "Actualización de Pedido",
    "reset_stock" := "Reseteo de Stock"
  ]

  /** A known action's display name, or the raw action. */
  function DisplayName(action: string): string
  {
    if action in ActionNames then ActionNames[action] else action
  }

  function Names(history: seq<Entry>): (r: seq<string>)
    ensures |r| == |history| && forall i :: 0 <= i < |r| ==> r[i] == DisplayName(history[i].action)
  {
    seq(|history|, i requires 0 <= i < |history| => DisplayName(history[i].action))
  }

  function MoreFrequent(a: (string, nat), b: (string, nat)): bool
  {
    a.1 >= b.1
  }

  /**
   * `getActionDistribution`: one entry per display name, with the number of records
   * under that name, most frequent first; the counts add up to the number of records.
   */
  method GetActionDistribution(history: seq<Entry>) returns (r: seq<(string, nat)>)
    ensures SortedBy(r, MoreFrequent)
    ensures NoDup(Keys(r))
    ensures forall k :: k in Keys(r) <==> k in Names(history)
    ensures forall i :: 0 <= i < |r| ==> r[i].1 == multiset(Names(history))[r[i].0]
    ensures Total(r) == |history|
  {
    var names := Names(history);
    var counts := Tally(map[], names);
    var entries := Entries(counts, Distinct(names));
    SortBySorted(entries, MoreFrequent);
    r := SortBy(entries, MoreFrequent);
    ReorderedCounts(names, counts, r);
  }

  // ---------------------------------------------------------------------------
  // getActivityByHour

  const HoursOfDay: seq<int> := seq(24, h => h)

  function EntryHours(history: seq<Entry>): (r: seq<int>)
    ensures |r| == |history| && forall i :: 0 <= i < |r| ==> r[i] == HourOf(history[i].createdAt)
  {
    seq(|history|, i requires 0 <= i < |history| => HourOf(history[i].createdAt))
  }

  /**
   * `getActivityByHour`: exactly the hours 0 to 23 in order, each with the number of
   * records made in that hour; the counts add up to the number of records.
   */
  method GetActivityByHour(history: seq<Entry>) returns (r: seq<(int, nat)>)
    ensures |r| == 24
    ensures forall h :: 0 <= h < 24 ==> r[h].0 == h && r[h].1 == multiset(EntryHours(history))[h]
    ensures Total(r) == |history|
  {
    var hours := EntryHours(history);
    var counts := ZeroCounts(HoursOfDay);
    assert forall k :: k in hours ==> k in HoursOfDay by {
      forall k | k in hours ensures k in HoursOfDay {
        assert HoursOfDay[k] == k;
      }
    }
    counts := Tally(counts, hours);
    assert forall k :: 0 <= k < 24 ==> k in counts by {
      forall k | 0 <= k < 24 ensures k in counts {
        assert HoursOfDay[k] == k;
      }
    }
    r := seq(24, k requires 0 <= k < 24 => (k, counts[k]));
    assert Keys(r) == HoursOfDay;
    TotalIsCountSum(r, multiset(hours));
    CountSumCovers(hours, HoursOfDay);
  }

  // ---------------------------------------------------------------------------
  // getActivityByDay

  /** The day names indexed by `getDay()`: Sunday first. */
  const JsDayNames: seq<string> := ["Domingo", "Lunes", "Martes", "Miércoles", "Jueves", "Viernes", "Sábado"]

  /** The order the dashboard lists the days in: Monday first. */
  const WeekOrder: seq<string> := ["Lunes", "Martes", "Miércoles", "Jueves", "Viernes", "Sábado", "Domingo"]

  lemma WeekOrderFacts()
    ensures NoDup(WeekOrder)
    ensures forall d :: 0 <= d < 7 ==> WeekOrder[d] == JsDayNames[(d + 1) % 7]
    ensures forall n :: n in JsDayNames ==> n in WeekOrder
  {
  }

  function EntryDays(history: seq<Entry>): (r: seq<string>)
    ensures |r| == |history| && forall i :: 0 <= i < |r| ==> r[i] == JsDayNames[JsDay(DayOf(history[i].createdAt))]
  {
    seq(|history|, i requires 0 <= i < |history| => JsDayNames[JsDay(DayOf(history[i].createdAt))])
  }

  /**
   * `getActivityByDay`: exactly seven entries, Monday to Sunday, each with the number
   * of records made on that weekday; the counts add up to the number of records.
   */
  method GetActivityByDay(history: seq<Entry>) returns (r: seq<(string, nat)>)
    ensures Keys(r) == WeekOrder
    ensures forall d :: 0 <= d < 7 ==> r[d].1 == multiset(EntryDays(history))[WeekOrder[d]]
    ensures Total(r) == |history|
  {
    var days := EntryDays(history);
    WeekOrderFacts();
    var counts := ZeroCounts(JsDayNames);
    counts := Tally(counts, days);
    r := seq(7, k requires 0 <= k < 7 => (WeekOrder[k], counts[WeekOrder[k]]));
    assert Keys(r) == WeekOrder;
    TotalIsCountSum(r, multiset(days));
    CountSumCovers(days, WeekOrder);
  }

  // ---------------------------------------------------------------------------
  // getStockTimeline

  /** A timeline point: the time, the stock level after the operation and its change. */
  datatype TimelinePoint = TimelinePoint(time: int, level: real, change: real, action: string)

  function PointOf(e: Entry): (p: TimelinePoint)
    ensures p.time == e.createdAt && p.level == e.newStock && p.level - p.change == e.previousStock
  {
    TimelinePoint(e.createdAt, e.newStock, e.newStock - e.previousStock, e.action)
  }

  function Points(history: seq<Entry>): (r: seq<TimelinePoint>)
    ensures |r| == |history| && forall i :: 0 <= i < |r| ==> r[i] == PointOf(history[i])
  {
    seq(|history|, i requires 0 <= i < |history| => PointOf(history[i]))
  }

  function Earlier(a: TimelinePoint, b: TimelinePoint): bool
  {
    a.time <= b.time
  }

  /**
   * `getStockTimeline`: one point per record, oldest first, each with the level after
   * the operation and the change it made.
   */
  function StockTimeline(history: seq<Entry>): (r: seq<TimelinePoint>)
    ensures |r| == |history|
    ensures SortedBy(r, Earlier)
    ensures multiset(r) == multiset(Points(history))
  {
    SortBySorted(Points(history), Earlier);
    SortBy(Points(history), Earlier)
  }
}
