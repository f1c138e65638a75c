/**
 * The opening-hours panel: the week's rows listed from Monday to Sunday, each
 * with its Spanish day name and either its hours or "Cerrado". The compact and
 * the card variants show the same rows and differ only in styling.
 */
module BusinessHoursDisplay {
  import opened Outcomes
  import opened Sorting
  import opened Seqs

  /** A row of the business-hours table; `dayOfWeek` counts from Sunday = 0. */
  datatype BusinessHours = BusinessHours(id: int, dayOfWeek: int, openTime: string, closeTime: string, isOpen: bool)

  /** What one row of the panel shows. A day number without a name shows no name. */
  datatype Row = Row(id: int, dayName: Option<string>, hoursText: string, isOpen: bool)

  const DaysOrdered: seq<string> := ["Lunes", "Martes", "Miércoles", "Jueves", "Viernes", "Sábado", "Domingo"]

  /** The day's place in a week that starts on Monday: Sunday (0) goes last. */
  function SortKey(day: int): int
  {
    if day == 0 then 7 else day
  }

  predicate ByWeekday(a: BusinessHours, b: BusinessHours)
  {
    SortKey(a.dayOfWeek) <= SortKey(b.dayOfWeek)
  }

  lemma ByWeekdayIsTotalPreorder()
    ensures TotalPreorder(ByWeekday)
  {
  }

  /** `[...hours].sort(...)`: the same rows, Monday first and Sunday last. */
  function OrderedHours(hours: seq<BusinessHours>): (r: seq<BusinessHours>)
    ensures multiset(r) == multiset(hours)
    ensures forall i, j :: 0 <= i < j < |r| ==> SortKey(r[i].dayOfWeek) <= SortKey(r[j].dayOfWeek)
  {
    ByWeekdayIsTotalPreorder();
    SortBySorted(hours, ByWeekday);
    SortBy(hours, ByWeekday)
  }

  /**
   * `DAYS_ORDERED[day === 0 ? 6 : day - 1]`: the name of a day 0 to 6, and also
   * "Domingo" for 7; any other number indexes outside the list and shows nothing.
   */
  function DayName(day: int): (r: Option<string>)
    ensures r.Some? <==> 0 <= day <= 7
    ensures r.Some? ==> r.value in DaysOrdered
  {
    var index := if day == 0 then 6 else day - 1;
    if 0 <= index < |DaysOrdered| then Some(DaysOrdered[index]) else None
  }

  /** The name shown for a day is the one at the day's place in the Monday-first week. */
  lemma DayNameFollowsSortKey(day: int)
    requires 0 <= day <= 6
    ensures DayName(day) == Some(DaysOrdered[SortKey(day) - 1])
    ensures day == 0 ==> DayName(day) == Some("Domingo")
    ensures day == 1 ==> DayName(day) == Some("Lunes")
  {
  }

  /** The seven days get seven different names. */
  lemma DayNamesDiffer(d1: int, d2: int)
    requires 0 <= d1 <= 6 && 0 <= d2 <= 6 && d1 != d2
    ensures DayName(d1) != DayName(d2)
  {
    var k1, k2 := SortKey(d1) - 1, SortKey(d2) - 1;
    assert k1 != k2;
    assert forall i, j :: 0 <= i < j < 7 ==> DaysOrdered[i] != DaysOrdered[j];
  }

  /** The hours of an open day, or "Cerrado". */
  function HoursText(h: BusinessHours): (r: string)
    ensures r == "Cerrado" <==> !h.isOpen
    ensures h.isOpen ==> |r| == |h.openTime| + 3 + |h.closeTime|
    ensures h.isOpen ==> r[..|h.openTime|] == h.openTime && r[|h.openTime| + 3..] == h.closeTime
  {
    if h.isOpen then
      var r := h.openTime + " - " + h.closeTime;
      assert r[|h.openTime| + 1] == '-' && r[..|h.openTime|] == h.openTime;
      assert forall i :: 0 <= i < |"Cerrado"| ==> "Cerrado"[i] != '-';
      r
    else "Cerrado"
  }

  function RowOf(h: BusinessHours): Row
  {
    Row(h.id, DayName(h.dayOfWeek), HoursText(h), h.isOpen)
  }

  /** The panel: nothing without hours, otherwise one row per entry in weekday order. */
  function Display(hours: Option<seq<BusinessHours>>): (r: Option<seq<Row>>)
    ensures r.None? <==> hours.None?
    ensures r.Some? ==> |r.value| == |hours.value|
    ensures r.Some? ==> forall i :: 0 <= i < |r.value| ==> r.value[i] == RowOf(OrderedHours(hours.value)[i])
  {
    if hours.None? then None
    else
      var ordered := OrderedHours(hours.value);
      Some(seq(|ordered|, i requires 0 <= i < |ordered| => RowOf(ordered[i])))
  }

  /** Each of the seven days of the week present once, numbered from Sunday = 0. */
  predicate WholeWeek(hours: seq<BusinessHours>)
  {
    |hours| == 7 &&
    (forall i :: 0 <= i < 7 ==> 0 <= hours[i].dayOfWeek <= 6) &&
    (forall i, j :: 0 <= i < j < 7 ==> hours[i].dayOfWeek != hours[j].dayOfWeek)
  }

  /** A whole week is shown from "Lunes" to "Domingo", in the order of `DAYS_ORDERED`. */
  lemma WholeWeekInOrder(hours: seq<BusinessHours>)
    requires WholeWeek(hours)
    ensures var rows := Display(Some(hours)).value;
      |rows| == 7 && forall i :: 0 <= i < 7 ==> rows[i].dayName == Some(DaysOrdered[i])
  {
    var r := OrderedHours(hours);
    OrderedWeekDays(hours);
    var keys := seq(7, i requires 0 <= i < 7 => SortKey(r[i].dayOfWeek));
    StrictRunOfSeven(keys);
    var rows := Display(Some(hours)).value;
    forall i | 0 <= i < 7
      ensures rows[i].dayName == Some(DaysOrdered[i])
    {
      assert keys[i] == SortKey(r[i].dayOfWeek) == i + 1;
      DayNameFollowsSortKey(r[i].dayOfWeek);
      assert rows[i] == RowOf(r[i]);
    }
  }

  /** Sorting a whole week keeps every day in range and puts them in strictly increasing order. */
  lemma OrderedWeekDays(hours: seq<BusinessHours>)
    requires WholeWeek(hours)
    ensures var r := OrderedHours(hours);
      |r| == 7 &&
      (forall i :: 0 <= i < 7 ==> 0 <= r[i].dayOfWeek <= 6) &&
      (forall i, j :: 0 <= i < j < 7 ==> SortKey(r[i].dayOfWeek) < SortKey(r[j].dayOfWeek))
  {
    var r := OrderedHours(hours);
    assert NoDup(hours) by {
      forall i, j | 0 <= i < j < 7
        ensures hours[i] != hours[j]
      {
        assert hours[i].dayOfWeek != hours[j].dayOfWeek;
      }
    }
    NoDupPermutation(hours, r);
    assert |r| == 7;
    forall i | 0 <= i < 7
      ensures 0 <= r[i].dayOfWeek <= 6
    {
      assert r[i] in multiset(hours);
    }
    forall i, j | 0 <= i < j < 7
      ensures r[i].dayOfWeek != r[j].dayOfWeek
    {
      assert r[i] in multiset(hours) && r[j] in multiset(hours);
      var p :| 0 <= p < 7 && hours[p] == r[i];
      var q :| 0 <= q < 7 && hours[q] == r[j];
      assert p != q;
    }
  }

  /** Seven strictly increasing numbers from 1 to 7 are exactly 1, 2, …, 7. */
  lemma StrictRunOfSeven(keys: seq<int>)
    requires |keys| == 7 && 1 <= keys[0] && keys[6] <= 7
    requires forall i, j :: 0 <= i < j < 7 ==> keys[i] < keys[j]
    ensures forall i :: 0 <= i < 7 ==> keys[i] == i + 1
  {
    assert keys[0] < keys[1] < keys[2] < keys[3] < keys[4] < keys[5] < keys[6];
  }
}
