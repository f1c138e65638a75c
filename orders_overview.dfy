/**
 * The orders overview dashboard: orders counted per status, per creation day,
 * per whole number of chickens, and the customers with the most orders.
 */
module OrdersOverview {
  import opened Outcomes
  import opened Seqs
  import opened Sorting
  import opened Calendar
  import opened Text
  import opened Tallies

  /** The fields of an order the dashboard reads; a missing status is `None`. */
  datatype Order = Order(status: Option<string>, createdAt: int, quantity: real, customerName: string)

  // ---------------------------------------------------------------------------
  // Orders per status

  /** `order.status || 'unknown'`: an absent or empty status counts as 'unknown'. */
  function StatusOf(o: Order): (s: string)
    ensures s == "unknown" <==> o.status.None? || o.status.value == "" || o.status.value == "unknown"
    ensures s != "unknown" ==> o.status == Some(s)
  {
    match o.status
    case None => "unknown"
    case Some(s) => if s == "" then "unknown" else s
  }

  function Statuses(orders: seq<Order>): (r: seq<string>)
    ensures |r| == |orders| && forall i :: 0 <= i < |r| ==> r[i] == StatusOf(orders[i])
  {
    seq(|orders|, i requires 0 <= i < |orders| => StatusOf(orders[i]))
  }

  /** The pie chart's slices: one per status, in order of first appearance. */
  function OrdersByStatus(orders: seq<Order>): seq<(string, nat)>
  {
    Tally(Statuses(orders))
  }

  /**
   * Each status appears once, exactly the statuses of the orders appear, each
   * with its number of orders, and the slices add up to the number of orders.
   */
  lemma StatusSlicesCountEveryOrder(orders: seq<Order>)
    ensures NoDup(Keys(OrdersByStatus(orders)))
    ensures forall s :: s in Keys(OrdersByStatus(orders)) <==> s in Statuses(orders)
    ensures forall i :: 0 <= i < |OrdersByStatus(orders)| ==>
      OrdersByStatus(orders)[i].1 == multiset(Statuses(orders))[OrdersByStatus(orders)[i].0] >= 1
    ensures Total(OrdersByStatus(orders)) == |orders|
  {
    var st := Statuses(orders);
    var r := OrdersByStatus(orders);
    TallyCountsEveryItem(st);
    forall i | 0 <= i < |r| ensures r[i].1 == multiset(st)[r[i].0] >= 1 {
      assert Keys(r)[i] in st;
    }
  }

  // ---------------------------------------------------------------------------
  // Orders per day

  function CreationDays(orders: seq<Order>): (r: seq<int>)
    ensures |r| == |orders| && forall i :: 0 <= i < |r| ==> r[i] == DayOf(orders[i].createdAt)
  {
    seq(|orders|, i requires 0 <= i < |orders| => DayOf(orders[i].createdAt))
  }

  function EarlierDay(a: (int, nat), b: (int, nat)): bool
  {
    a.0 <= b.0
  }

  /**
   * The trend chart: one bar per creation day, days in ascending order. The
   * source sorts the "yyyy-MM-dd" keys as strings, which orders them by day.
   */
  function OrderTrend(orders: seq<Order>): (r: seq<(int, nat)>)
    ensures NoDup(Keys(r))
    ensures forall d :: d in Keys(r) <==> d in CreationDays(orders)
    ensures forall i :: 0 <= i < |r| ==> r[i].1 == multiset(CreationDays(orders))[r[i].0]
    ensures Total(r) == |orders|
    ensures forall i, j :: 0 <= i < j < |r| ==> r[i].0 < r[j].0
  {
    var days := CreationDays(orders);
    var counts := CountBy(days);
    var r := SortBy(Entries(counts, Distinct(days)), EarlierDay);
    SortBySorted(Entries(counts, Distinct(days)), EarlierDay);
    ReorderedCounts(days, counts, r);
    assert forall i, j :: 0 <= i < j < |r| ==> r[i].0 < r[j].0 by {
      forall i, j | 0 <= i < j < |r| ensures r[i].0 < r[j].0 {
        assert EarlierDay(r[i], r[j]);
        assert Keys(r)[i] != Keys(r)[j];
      }
    }
    r
  }

  // ---------------------------------------------------------------------------
  // Orders per whole number of chickens

  /** The bucket of an order: `Math.floor(quantity)`. */
  function Bucket(o: Order): int
  {
    o.quantity.Floor
  }

  function Buckets(orders: seq<Order>): (r: seq<int>)
    ensures |r| == |orders| && forall i :: 0 <= i < |r| ==> r[i] == Bucket(orders[i])
  {
    seq(|orders|, i requires 0 <= i < |orders| => Bucket(orders[i]))
  }

  /** The bar label `${quantity} pollos`. */
  function BucketLabel(n: int): string
  {
    IntToString(n) + " pollos"
  }

  /** Different buckets get different labels. */
  lemma BucketLabelsDiffer(m: int, n: int)
    requires m != n
    ensures BucketLabel(m) != BucketLabel(n)
  {
    IntToStringInjective(m, n);
    var sm, sn := IntToString(m), IntToString(n);
    if |sm| == |sn| {
      assert BucketLabel(m)[..|sm|] == sm && BucketLabel(n)[..|sn|] == sn;
    } else {
      assert |BucketLabel(m)| != |BucketLabel(n)|;
    }
  }

  function LabelEntry(e: (int, nat)): (string, nat)
  {
    (BucketLabel(e.0), e.1)
  }

  function Labelled(r: seq<(int, nat)>): (l: seq<(string, nat)>)
    ensures |l| == |r| && forall i :: 0 <= i < |l| ==> l[i] == LabelEntry(r[i])
  {
    seq(|r|, i requires 0 <= i < |r| => LabelEntry(r[i]))
  }

  function ByLabel(a: (string, nat), b: (string, nat)): bool
  {
    LexLe(a.0, b.0)
  }

  lemma ByLabelIsTotalPreorder()
    ensures TotalPreorder(ByLabel)
  {
    forall a: (string, nat), b: (string, nat) ensures ByLabel(a, b) || ByLabel(b, a) {
      LexLeTotal(a.0, b.0);
    }
    forall a: (string, nat), b: (string, nat), c: (string, nat) | ByLabel(a, b) && ByLabel(b, c)
      ensures ByLabel(a, c)
    {
      LexLeTransitive(a.0, b.0, c.0);
    }
  }

  /**
   * The quantity chart: one bar per whole number of chickens, labelled, with the
   * labels sorted as strings (so "10 pollos" comes before "2 pollos").
   */
  function QuantityDistribution(orders: seq<Order>): (r: seq<(string, nat)>)
    ensures NoDup(Keys(r))
    ensures forall s :: s in Keys(r) <==> exists j :: 0 <= j < |orders| && s == BucketLabel(Bucket(orders[j]))
    ensures forall i, j :: 0 <= i < j < |r| ==> LexLe(r[i].0, r[j].0) && r[i].0 != r[j].0
    ensures forall b :: b in Buckets(orders) ==> (BucketLabel(b), multiset(Buckets(orders))[b]) in r
  {
    var entries := Labelled(Tally(Buckets(orders)));
    ByLabelIsTotalPreorder();
    SortBySorted(entries, ByLabel);
    var r := SortBy(entries, ByLabel);
    QuantityBars(orders, entries, r);
    r
  }

  lemma QuantityBars(orders: seq<Order>, entries: seq<(string, nat)>, r: seq<(string, nat)>)
    requires entries == Labelled(Tally(Buckets(orders)))
    requires multiset(r) == multiset(entries) && SortedBy(r, ByLabel)
    ensures NoDup(Keys(r))
    ensures forall s :: s in Keys(r) <==> exists j :: 0 <= j < |orders| && s == BucketLabel(Bucket(orders[j]))
    ensures forall i, j :: 0 <= i < j < |r| ==> LexLe(r[i].0, r[j].0) && r[i].0 != r[j].0
    ensures forall b :: b in Buckets(orders) ==> (BucketLabel(b), multiset(Buckets(orders))[b]) in r
  {
    var buckets := Buckets(orders);
    LabelledKeys(buckets);
    ReorderedKeysNoDup(entries, r);
    forall s ensures s in Keys(r) <==> exists j :: 0 <= j < |orders| && s == BucketLabel(Bucket(orders[j])) {
      if exists b :: b in buckets && s == BucketLabel(b) {
        var b :| b in buckets && s == BucketLabel(b);
        var j :| 0 <= j < |buckets| && buckets[j] == b;
        assert s == BucketLabel(Bucket(orders[j]));
      }
      if exists j :: 0 <= j < |orders| && s == BucketLabel(Bucket(orders[j])) {
        var j :| 0 <= j < |orders| && s == BucketLabel(Bucket(orders[j]));
        assert buckets[j] in buckets;
      }
    }
    forall i, j | 0 <= i < j < |r| ensures LexLe(r[i].0, r[j].0) && r[i].0 != r[j].0 {
      assert ByLabel(r[i], r[j]);
      assert Keys(r)[i] != Keys(r)[j];
    }
    var t := Tally(buckets);
    forall b | b in buckets ensures (BucketLabel(b), multiset(buckets)[b]) in r {
      var i :| 0 <= i < |t| && Keys(t)[i] == b;
      assert entries[i] == (BucketLabel(b), multiset(buckets)[b]);
      assert entries[i] in multiset(r);
    }
  }

  /** The labelled entries carry one distinct label per bucket, for exactly the buckets present. */
  lemma LabelledKeys(buckets: seq<int>)
    ensures NoDup(Keys(Labelled(Tally(buckets))))
    ensures forall s :: s in Keys(Labelled(Tally(buckets))) <==> exists b :: b in buckets && s == BucketLabel(b)
  {
    LabelledKeysDistinct(Tally(buckets));
    LabelledKeysCover(Tally(buckets), buckets);
  }

  lemma LabelledKeysDistinct(t: seq<(int, nat)>)
    requires NoDup(Keys(t))
    ensures NoDup(Keys(Labelled(t)))
  {
    var l := Labelled(t);
    forall i, j | 0 <= i < j < |l| ensures Keys(l)[i] != Keys(l)[j] {
      assert Keys(t)[i] != Keys(t)[j];
      BucketLabelsDiffer(t[i].0, t[j].0);
    }
  }

  lemma LabelledKeysCover(t: seq<(int, nat)>, buckets: seq<int>)
    requires forall k :: k in Keys(t) <==> k in buckets
    ensures forall s :: s in Keys(Labelled(t)) <==> exists b :: b in buckets && s == BucketLabel(b)
  {
    var l := Labelled(t);
    forall s | s in Keys(l) ensures exists b :: b in buckets && s == BucketLabel(b) {
      var i :| 0 <= i < |l| && Keys(l)[i] == s;
      assert Keys(t)[i] in Keys(t);
    }
    forall b | b in buckets ensures BucketLabel(b) in Keys(l) {
      var i :| 0 <= i < |t| && Keys(t)[i] == b;
      assert Keys(l)[i] == BucketLabel(b);
    }
  }

  /** A reordering of entries with distinct labels has distinct labels. */
  lemma ReorderedKeysNoDup(entries: seq<(string, nat)>, r: seq<(string, nat)>)
    requires NoDup(Keys(entries)) && multiset(r) == multiset(entries)
    ensures NoDup(Keys(r))
    ensures forall s :: s in Keys(r) <==> s in Keys(entries)
  {
    assert NoDup(entries) by {
      forall i, j | 0 <= i < j < |entries| ensures entries[i] != entries[j] {
        assert Keys(entries)[i] != Keys(entries)[j];
      }
    }
    NoDupPermutation(entries, r);
    forall i, j | 0 <= i < j < |r| ensures Keys(r)[i] != Keys(r)[j] {
      assert r[i] in multiset(entries) && r[j] in multiset(entries);
      var p :| 0 <= p < |entries| && entries[p] == r[i];
      var q :| 0 <= q < |entries| && entries[q] == r[j];
      assert p != q;
      assert Keys(entries)[p] != Keys(entries)[q];
    }
    forall s ensures s in Keys(r) <==> s in Keys(entries) {
      if s in Keys(r) {
        var i :| 0 <= i < |r| && Keys(r)[i] == s;
        assert r[i] in multiset(entries);
        var p :| 0 <= p < |entries| && entries[p] == r[i];
        assert Keys(entries)[p] == s;
      }
      if s in Keys(entries) {
        var p :| 0 <= p < |entries| && Keys(entries)[p] == s;
        assert entries[p] in multiset(r);
        var i :| 0 <= i < |r| && r[i] == entries[p];
        assert Keys(r)[i] == s;
      }
    }
  }

  /** The string order puts the ten-chicken bar before the two-chicken bar. */
  lemma TenBeforeTwo()
    ensures LexLe(BucketLabel(10), BucketLabel(2)) && !LexLe(BucketLabel(2), BucketLabel(10))
  {
    assert NatToString(10) == ['1', '0'];
    assert NatToString(2) == ['2'];
  }

  // ---------------------------------------------------------------------------
  // Top customers

  function Customers(orders: seq<Order>): (r: seq<string>)
    ensures |r| == |orders| && forall i :: 0 <= i < |r| ==> r[i] == orders[i].customerName
  {
    seq(|orders|, i requires 0 <= i < |orders| => orders[i].customerName)
  }

  function MoreOrders(a: (string, nat), b: (string, nat)): bool
  {
    a.1 >= b.1
  }

  /**
   * Every customer with their order count, most orders first. Ties keep the key
   * order of the counts, which is the order of first appearance.
   */
  function CustomerRanking(orders: seq<Order>): (r: seq<(string, nat)>)
    ensures NoDup(Keys(r))
    ensures forall c :: c in Keys(r) <==> c in Customers(orders)
    ensures forall i :: 0 <= i < |r| ==> r[i].1 == multiset(Customers(orders))[r[i].0]
    ensures SortedBy(r, MoreOrders)
  {
    var names := Customers(orders);
    var counts := CountBy(names);
    var r := SortBy(Entries(counts, Distinct(names)), MoreOrders);
    SortBySorted(Entries(counts, Distinct(names)), MoreOrders);
    ReorderedCounts(names, counts, r);
    r
  }

  /**
   * Customers with as many orders as `e` (tied under `MoreOrders`) are ranked in the
   * order of their first order.
   */
  lemma CustomerTiesKeepFirstSeenOrder(orders: seq<Order>, e: (string, nat))
    ensures var names := Customers(orders);
      TiedWith(CustomerRanking(orders), e, MoreOrders) == TiedWith(Entries(CountBy(names), Distinct(names)), e, MoreOrders)
  {
    var names := Customers(orders);
    SortByStable(Entries(CountBy(names), Distinct(names)), e, MoreOrders);
  }

  /** `.slice(0, 5)` of the ranking. */
  function TopCustomers(orders: seq<Order>): (r: seq<(string, nat)>)
    ensures |r| == if |CustomerRanking(orders)| < 5 then |CustomerRanking(orders)| else 5
  {
    var ranking := CustomerRanking(orders);
    if |ranking| < 5 then ranking else ranking[..5]
  }

  /**
   * The top list shows at most five distinct customers with their order counts,
   * most orders first.
   */
  lemma TopCustomersRanked(orders: seq<Order>)
    ensures |TopCustomers(orders)| <= 5
    ensures NoDup(Keys(TopCustomers(orders)))
    ensures forall i :: 0 <= i < |TopCustomers(orders)| ==>
      TopCustomers(orders)[i].1 == multiset(Customers(orders))[TopCustomers(orders)[i].0] >= 1
    ensures forall i, j :: 0 <= i < j < |TopCustomers(orders)| ==> TopCustomers(orders)[i].1 >= TopCustomers(orders)[j].1
  {
    var ranking := CustomerRanking(orders);
    var top := TopCustomers(orders);
    var names := Customers(orders);
    assert forall i :: 0 <= i < |top| ==> top[i] == ranking[i];
    forall i, j | 0 <= i < j < |top| ensures Keys(top)[i] != Keys(top)[j] {
      assert Keys(ranking)[i] != Keys(ranking)[j];
    }
    forall i | 0 <= i < |top| ensures top[i].1 == multiset(names)[top[i].0] >= 1 {
      assert Keys(ranking)[i] in names;
    }
    forall i, j | 0 <= i < j < |top| ensures top[i].1 >= top[j].1 {
      assert MoreOrders(ranking[i], ranking[j]);
    }
  }

  /** No customer left out of the top list has more orders than a customer shown. */
  lemma TopCustomersAreTheBusiest(orders: seq<Order>)
    ensures forall c, i :: c in Customers(orders) && c !in Keys(TopCustomers(orders)) && 0 <= i < |TopCustomers(orders)| ==>
      multiset(Customers(orders))[c] <= TopCustomers(orders)[i].1
  {
    var ranking := CustomerRanking(orders);
    var top := TopCustomers(orders);
    var names := Customers(orders);
    assert forall i :: 0 <= i < |top| ==> top[i] == ranking[i];
    forall c, i | c in names && c !in Keys(top) && 0 <= i < |top| ensures multiset(names)[c] <= top[i].1 {
      assert c in Keys(ranking);
      var p :| 0 <= p < |ranking| && Keys(ranking)[p] == c;
      assert forall q :: 0 <= q < |top| ==> Keys(top)[q] == Keys(ranking)[q];
      assert p >= |top|;
      assert MoreOrders(ranking[i], ranking[p]);
    }
  }
}
