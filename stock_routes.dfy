/**
 * The stock routes of the server: the GET view that derives today's reservations
 * from the pending orders, and the `/add`, `/remove` and `/reset` actions.
 */
module StockRoutes {
  import opened Outcomes
  import opened Seqs
  import opened Calendar
  import opened StockMiddleware
  import opened OrderRoutes
  import opened Rounding

  /** An order that holds stock today: picked up today, still pending and not deleted. */
  predicate ReservesToday(o: Order, today: int)
  {
    DayOf(o.pickupTime) == DayOf(today) && o.status == "pending" && !o.deleted
  }

  function Quantities(orders: seq<Order>): (r: seq<real>)
    ensures |r| == |orders|
    ensures forall i :: 0 <= i < |r| ==> r[i] == orders[i].quantity
  {
    if orders == [] then [] else [orders[0].quantity] + Quantities(orders[1..])
  }

  /** Today's reserved stock: the total quantity of the orders that reserve today. */
  function ReservedToday(orders: seq<Order>, now: int): real
  {
    Sum(Quantities(Filter(orders, o => ReservesToday(o, now))))
  }

  lemma {:induction false} QuantitiesAppend(a: seq<Order>, b: seq<Order>)
    ensures Quantities(a + b) == Quantities(a) + Quantities(b)
  {
    var l, r := Quantities(a + b), Quantities(a) + Quantities(b);
    assert |l| == |r|;
    forall i | 0 <= i < |l| ensures l[i] == r[i] {
      if i < |a| {
        assert (a + b)[i] == a[i];
      } else {
        assert (a + b)[i] == b[i - |a|];
      }
    }
  }

  /**
   * One more order adds its quantity to the reservation exactly when it is pending,
   * not deleted and picked up today; any other order leaves the total unchanged.
   */
  lemma {:induction false} ReservedTodayAppend(orders: seq<Order>, o: Order, now: int)
    ensures ReservedToday(orders + [o], now) ==
            ReservedToday(orders, now) + (if ReservesToday(o, now) then o.quantity else 0.0)
  {
    var p := (x: Order) => ReservesToday(x, now);
    FilterAppend(orders, [o], p);
    assert Filter([o], p) == if p(o) then [o] else [] by {
      assert [o][1..] == [];
    }
    QuantitiesAppend(Filter(orders, p), Filter([o], p));
    SumAppend(Quantities(Filter(orders, p)), Quantities(Filter([o], p)));
    assert Sum([o.quantity]) == o.quantity;
  }

  /** With non-negative quantities the reservation is never negative. */
  lemma ReservedTodayNonNegative(orders: seq<Order>, now: int)
    requires forall i :: 0 <= i < |orders| ==> orders[i].quantity >= 0.0
    ensures ReservedToday(orders, now) >= 0.0
  {
    var kept := Filter(orders, o => ReservesToday(o, now));
    forall i | 0 <= i < |Quantities(kept)|
      ensures Quantities(kept)[i] >= 0.0
    {
      assert kept[i] in orders;
    }
    SumNonNegative(Quantities(kept));
  }

  /** The body of GET `/`: the stored row (if any) with reserved and unreserved stock recomputed. */
  datatype StockView = StockView(row: Option<StockRow>, reservedStock: real, unreservedStock: real)

  function GetStock(row: Option<StockRow>, orders: seq<Order>, now: int): (r: StockView)
    ensures r.row == row
    ensures r.reservedStock == ReservedToday(orders, now)
    ensures r.unreservedStock + r.reservedStock == (if row.Some? then row.value.current else 0.0)
  {
    var current := if row.Some? then row.value.current else 0.0;
    var reserved := ReservedToday(orders, now);
    StockView(row, reserved, current - reserved)
  }

  /** POST `/add`: a `direct_sale_correction` by |quantity|, so current stock never drops. */
  method AddStock(ledger: StockLedger, quantity: real) returns (r: Result<StockUpdate, StockError>)
    modifies ledger
    ensures ledger.stock == NextRow(old(ledger.stock), DirectSaleCorrection, Abs(quantity))
    ensures old(ledger.stock).None? <==> r.Err?
    ensures old(ledger.stock).Some? ==> ledger.stock.value.current >= old(ledger.stock).value.current
    ensures ledger.history == NextHistory(old(ledger.history), old(ledger.stock), DirectSaleCorrection, Abs(quantity), Some(Admin))
  {
    r := ledger.Perform(DirectSaleCorrection, Abs(quantity), Some(Admin));
  }

  /** POST `/remove`: a `direct_sale` by |quantity|, so current stock never rises. */
  method RemoveStock(ledger: StockLedger, quantity: real) returns (r: Result<StockUpdate, StockError>)
    modifies ledger
    ensures ledger.stock == NextRow(old(ledger.stock), DirectSale, Abs(quantity))
    ensures old(ledger.stock).None? <==> r.Err?
    ensures old(ledger.stock).Some? ==> ledger.stock.value.current <= old(ledger.stock).value.current
    ensures ledger.history == NextHistory(old(ledger.history), old(ledger.stock), DirectSale, Abs(quantity), Some(Admin))
  {
    r := ledger.Perform(DirectSale, Abs(quantity), Some(Admin));
  }

  /** POST `/reset`: a `reset_stock` with quantity 0, leaving an all-zero row. */
  method ResetStockRoute(ledger: StockLedger) returns (r: Result<StockUpdate, StockError>)
    modifies ledger
    ensures ledger.stock == NextRow(old(ledger.stock), ResetStock, 0.0)
    ensures old(ledger.stock).Some? ==> ledger.stock == Some(StockRow(0.0, 0.0, 0.0, 0.0))
    ensures old(ledger.stock).None? <==> r.Err?
    ensures ledger.history == NextHistory(old(ledger.history), old(ledger.stock), ResetStock, 0.0, Some(Admin))
  {
    r := ledger.Perform(ResetStock, 0.0, Some(Admin));
  }
}
