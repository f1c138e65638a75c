/**
 * The order lifecycle routes of the server: create, confirm, mark as error, PATCH
 * (with cancellation) and soft delete, each driving the stock state machine.
 */
module OrderRoutes {
  import opened Outcomes
  import opened StockMiddleware

  /** A stored order row, with the fields the routes read or write. */
  datatype Order = Order(
    id: int,
    customerName: string,
    customerPhone: Option<string>,
    quantity: real,
    totalAmount: real,
    pickupTime: int,
    status: string,
    deleted: bool)

  /** The validated body of a create request: an order without id, status or deleted flag. */
  datatype NewOrderRequest = NewOrderRequest(
    customerName: string,
    customerPhone: Option<string>,
    quantity: real,
    totalAmount: real,
    pickupTime: int)

  /** The fields a PATCH body may carry; absent fields keep their stored value. */
  datatype OrderPatch = OrderPatch(
    customerName: Option<string>,
    customerPhone: Option<Option<string>>,
    quantity: Option<real>,
    totalAmount: Option<real>,
    pickupTime: Option<int>,
    status: Option<string>,
    deleted: Option<bool>)

  /** Why a route answered with an error status: 404, or 500 from the stock update. */
  datatype RouteError = NotFound | StockFailure(cause: StockError)

  function Pick<T>(field: Option<T>, stored: T): T
  {
    if field.Some? then field.value else stored
  }

  /** The row after an update with `patch`: each present field replaces the stored one. */
  function ApplyPatch(o: Order, patch: OrderPatch): (r: Order)
    ensures r.id == o.id
    ensures patch == OrderPatch(None, None, None, None, None, None, None) ==> r == o
    ensures patch.status.Some? ==> r.status == patch.status.value
    ensures patch.status.None? ==> r.status == o.status
    ensures patch.quantity.None? ==> r.quantity == o.quantity
  {
    Order(o.id,
          Pick(patch.customerName, o.customerName),
          Pick(patch.customerPhone, o.customerPhone),
          Pick(patch.quantity, o.quantity),
          Pick(patch.totalAmount, o.totalAmount),
          Pick(patch.pickupTime, o.pickupTime),
          Pick(patch.status, o.status),
          Pick(patch.deleted, o.deleted))
  }

  /** Whether a PATCH releases the order's reservation: only a transition into 'cancelled'. */
  predicate CancelsOrder(current: Order, patch: OrderPatch)
  {
    patch.status == Some("cancelled") && current.status != "cancelled"
  }

  /** The orders table and the stock the routes act on. */
  class OrderBook {
    var orders: map<int, Order>
    var nextId: int
    const ledger: StockLedger

    constructor (ledger: StockLedger)
      ensures orders == map[] && nextId == 1 && this.ledger == ledger
    {
      orders := map[];
      nextId := 1;
      this.ledger := ledger;
    }

    /**
     * POST `/`: stores the order as 'pending' first, then reserves its quantity with
     * `new_order`. When the stock update fails the order stays stored and the route
     * answers 500.
     */
    method Create(req: NewOrderRequest) returns (r: Result<Order, RouteError>)
      modifies this, ledger
      ensures var created := Order(old(nextId), req.customerName, req.customerPhone, req.quantity,
                                   req.totalAmount, req.pickupTime, "pending", false);
        orders == old(orders)[old(nextId) := created] &&
        nextId == old(nextId) + 1 &&
        (r.Ok? <==> old(ledger.stock).Some?) &&
        (r.Ok? ==> r.value == created)
      ensures ledger.stock == NextRow(old(ledger.stock), NewOrder, req.quantity)
      ensures |ledger.history| == |old(ledger.history)| + (if old(ledger.stock).Some? then 1 else 0)
      ensures ledger.history == NextHistory(old(ledger.history), old(ledger.stock), NewOrder, req.quantity, Some(Client))
    {
      var created := Order(nextId, req.customerName, req.customerPhone, req.quantity,
                           req.totalAmount, req.pickupTime, "pending", false);
      orders := orders[nextId := created];
      nextId := nextId + 1;
      var update := ledger.Perform(NewOrder, created.quantity, Some(Client));
      if update.Err? {
        return Err(StockFailure(update.error));
      }
      return Ok(created);
    }

    /**
     * PATCH `/:id/confirm`: 404 for an unknown id; otherwise delivers the order's
     * quantity and marks it 'completed'. The current status is not checked, so a
     * second confirmation delivers again.
     */
    method Confirm(id: int) returns (r: Result<Order, RouteError>)
      modifies this, ledger
      ensures nextId == old(nextId)
      ensures id !in old(orders) ==>
        r == Err(NotFound) && orders == old(orders) &&
        ledger.stock == old(ledger.stock) && ledger.history == old(ledger.history)
      ensures id in old(orders) ==>
        var o := old(orders)[id];
        ledger.stock == NextRow(old(ledger.stock), OrderDelivered, o.quantity) &&
        ledger.history == NextHistory(old(ledger.history), old(ledger.stock), OrderDelivered, o.quantity, Some(Admin)) &&
        (old(ledger.stock).None? ==> r == Err(StockFailure(NoStockFound)) && orders == old(orders)) &&
        (old(ledger.stock).Some? ==>
          orders == old(orders)[id := o.(status := "completed")] && r == Ok(orders[id]))
    {
      if id !in orders {
        return Err(NotFound);
      }
      var o := orders[id];
      var update := ledger.Perform(OrderDelivered, o.quantity, Some(Admin));
      if update.Err? {
        return Err(StockFailure(update.error));
      }
      orders := orders[id := o.(status := "completed")];
      return Ok(orders[id]);
    }

    /**
     * PATCH `/:id/error`: 404 for an unknown id; otherwise releases the reservation
     * with `order_error`, then soft-deletes the order with status 'error'.
     */
    method MarkError(id: int) returns (r: Result<Order, RouteError>)
      modifies this, ledger
      ensures nextId == old(nextId)
      ensures id !in old(orders) ==>
        r == Err(NotFound) && orders == old(orders) &&
        ledger.stock == old(ledger.stock) && ledger.history == old(ledger.history)
      ensures id in old(orders) ==>
        var o := old(orders)[id];
        ledger.stock == NextRow(old(ledger.stock), OrderError, o.quantity) &&
        ledger.history == NextHistory(old(ledger.history), old(ledger.stock), OrderError, o.quantity, Some(Admin)) &&
        (old(ledger.stock).None? ==> r == Err(StockFailure(NoStockFound)) && orders == old(orders)) &&
        (old(ledger.stock).Some? ==>
          orders == old(orders)[id := o.(status := "error", deleted := true)] && r == Ok(orders[id]))
    {
      if id !in orders {
        return Err(NotFound);
      }
      var o := orders[id];
      var update := ledger.Perform(OrderError, o.quantity, Some(Admin));
      if update.Err? {
        return Err(StockFailure(update.error));
      }
      orders := orders[id := o.(status := "error", deleted := true)];
      return Ok(orders[id]);
    }

    /**
     * PATCH `/:id`: 404 for an unknown id. A transition into 'cancelled' first releases
     * the reservation with `order_cancelled`; every other update touches only the row.
     */
    method Update(id: int, patch: OrderPatch) returns (r: Result<Order, RouteError>)
      modifies this, ledger
      ensures nextId == old(nextId)
      ensures id !in old(orders) ==>
        r == Err(NotFound) && orders == old(orders) &&
        ledger.stock == old(ledger.stock) && ledger.history == old(ledger.history)
      ensures id in old(orders) && !CancelsOrder(old(orders)[id], patch) ==>
        ledger.stock == old(ledger.stock) && ledger.history == old(ledger.history) &&
        orders == old(orders)[id := ApplyPatch(old(orders)[id], patch)] && r == Ok(orders[id])
      ensures id in old(orders) && CancelsOrder(old(orders)[id], patch) ==>
        var o := old(orders)[id];
        ledger.stock == NextRow(old(ledger.stock), OrderCancelled, o.quantity) &&
        ledger.history == NextHistory(old(ledger.history), old(ledger.stock), OrderCancelled, o.quantity, Some(Admin)) &&
        (old(ledger.stock).None? ==> r == Err(StockFailure(NoStockFound)) && orders == old(orders)) &&
        (old(ledger.stock).Some? ==>
          orders == old(orders)[id := ApplyPatch(o, patch)] && r == Ok(orders[id]))
    {
      if id !in orders {
        return Err(NotFound);
      }
      var current := orders[id];
      if CancelsOrder(current, patch) {
        var update := ledger.Perform(OrderCancelled, current.quantity, Some(Admin));
        if update.Err? {
          return Err(StockFailure(update.error));
        }
      }
      orders := orders[id := ApplyPatch(current, patch)];
      return Ok(orders[id]);
    }

    /** DELETE `/:id`: soft delete; no existence check and no stock change. */
    method Delete(id: int)
      modifies this
      ensures nextId == old(nextId)
      ensures id in old(orders) ==> orders == old(orders)[id := old(orders)[id].(deleted := true)]
      ensures id !in old(orders) ==> orders == old(orders)
    {
      if id in orders {
        orders := orders[id := orders[id].(deleted := true)];
      }
    }
  }

  /** Re-cancelling an already cancelled order never reaches the stock. */
  lemma RecancelIsStockNeutral(o: Order, patch: OrderPatch)
    requires CancelsOrder(o, patch)
    ensures !CancelsOrder(ApplyPatch(o, patch), patch)
  {
  }

  /**
   * Creating an order and then cancelling it leaves today's stock row as it was, as
   * does creating it and then marking it as an error.
   */
  lemma CreateThenCancelRestoresStock(row: Option<StockRow>, q: real)
    requires row.Some? && row.value.unreserved == row.value.current - row.value.reserved
    ensures NextRow(NextRow(row, NewOrder, q), OrderCancelled, q) == row
    ensures NextRow(NextRow(row, NewOrder, q), OrderError, q) == row
  {
    NewOrderInverse(SnapshotOf(row.value), q);
  }

  /** Delivering a reserved order lowers the stock on hand but leaves unreserved stock as it was. */
  lemma CreateThenConfirmSellsFromStock(row: Option<StockRow>, q: real)
    requires row.Some? && row.value.unreserved == row.value.current - row.value.reserved
    ensures var after := NextRow(NextRow(row, NewOrder, q), OrderDelivered, q);
      after.Some? && after.value.current == row.value.current - q &&
      after.value.reserved == row.value.reserved && after.value.unreserved == row.value.unreserved - q
  {
  }
}
