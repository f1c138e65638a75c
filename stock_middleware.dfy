/**
 * The stock accounting state machine of the server: the pure transition
 * `prepareStockUpdate` and the `stockMiddleware` step that writes the new stock
 * row and a history entry.
 */
module StockMiddleware {
  import opened Outcomes

  /** The seven actions that move stock. */
  datatype StockAction =
    | OrderCancelled
    | OrderError
    | OrderDelivered
    | DirectSale
    | DirectSaleCorrection
    | NewOrder
    | ResetStock

  /** Who asked for the update; absent when the caller gave no source. */
  datatype Source = Admin | Client

  /** The three stored quantities a transition reads. */
  datatype Snapshot = Snapshot(initial: real, current: real, reserved: real)

  /** Today's stock row as stored. */
  datatype StockRow = StockRow(initial: real, current: real, reserved: real, unreserved: real)

  /** What `prepareStockUpdate` hands to the middleware. */
  datatype StockUpdate = StockUpdate(
    initial: real, current: real, reserved: real, unreserved: real,
    action: StockAction, quantity: real, source: Option<Source>)

  /** One row of the stock history table written by the middleware. */
  datatype HistoryEntry = HistoryEntry(
    action: StockAction, quantity: real, previousStock: real, newStock: real, createdBy: string)

  datatype StockError = NoStockFound

  function Unreserved(s: Snapshot): real
  {
    s.current - s.reserved
  }

  function SnapshotOf(row: StockRow): Snapshot
  {
    Snapshot(row.initial, row.current, row.reserved)
  }

  /** The transition of one action by quantity `q`. No value is clamped. */
  function Apply(s: Snapshot, action: StockAction, q: real): Snapshot
  {
    match action
    case OrderCancelled => s.(reserved := s.reserved - q)
    case OrderError => s.(reserved := s.reserved - q)
    case OrderDelivered => s.(current := s.current - q, reserved := s.reserved - q)
    case DirectSale => s.(current := s.current - q)
    case DirectSaleCorrection => s.(current := s.current + q)
    case NewOrder => s.(reserved := s.reserved + q)
    case ResetStock => Snapshot(0.0, 0.0, 0.0)
  }

  /**
   * `prepareStockUpdate`: fails when there is no stock row; otherwise applies the
   * action to the stored snapshot, derives the unreserved stock from the new values
   * and echoes the action, the quantity and the source.
   */
  function PrepareStockUpdate(row: Option<StockRow>, action: StockAction, q: real, source: Option<Source>)
    : (r: Result<StockUpdate, StockError>)
    ensures row.None? <==> r == Err(NoStockFound)
    ensures r.Ok? ==>
      var u := r.value;
      Snapshot(u.initial, u.current, u.reserved) == Apply(SnapshotOf(row.value), action, q) &&
      u.unreserved == u.current - u.reserved &&
      u.action == action && u.quantity == q && u.source == source
  {
    match row
    case None => Err(NoStockFound)
    case Some(stored) =>
      var next := Apply(SnapshotOf(stored), action, q);
      Ok(StockUpdate(next.initial, next.current, next.reserved, next.current - next.reserved,
                     action, q, source))
  }

  /** The stock row after a successful prepare-and-commit; no row stays no row. */
  function NextRow(row: Option<StockRow>, action: StockAction, q: real): (r: Option<StockRow>)
    ensures r.None? <==> row.None?
    ensures r.Some? ==>
      SnapshotOf(r.value) == Apply(SnapshotOf(row.value), action, q) &&
      r.value.unreserved == r.value.current - r.value.reserved
  {
    match row
    case None => None
    case Some(stored) =>
      var next := Apply(SnapshotOf(stored), action, q);
      Some(StockRow(next.initial, next.current, next.reserved, next.current - next.reserved))
  }

  /** The `createdBy` text of a history entry: the source, or 'system' without one. */
  function CreatedBy(source: Option<Source>): (r: string)
    ensures source == Some(Admin) <==> r == "admin"
    ensures source == Some(Client) <==> r == "client"
    ensures source == None <==> r == "system"
  {
    match source
    case Some(Admin) => "admin"
    case Some(Client) => "client"
    case None => "system"
  }

  /**
   * The stock history after a prepare-and-commit on `row`: one entry recording the
   * action, its quantity, the previous and the new current stock and who made it;
   * nothing when there is no row.
   */
  function NextHistory(history: seq<HistoryEntry>, row: Option<StockRow>, action: StockAction,
                       q: real, source: Option<Source>): (r: seq<HistoryEntry>)
    ensures row.None? ==> r == history
    ensures row.Some? ==>
      |r| == |history| + 1 && r[..|history|] == history &&
      r[|history|].action == action && r[|history|].quantity == q &&
      r[|history|].previousStock == row.value.current &&
      r[|history|].newStock == Apply(SnapshotOf(row.value), action, q).current &&
      r[|history|].createdBy == CreatedBy(source)
  {
    if row.None? then history
    else history + [HistoryEntry(action, q, row.value.current, NextRow(row, action, q).value.current,
                                 CreatedBy(source))]
  }

  /** Cancelling or erroring an order moves only the reserved stock, down by `q`. */
  lemma OnlyReservedChanges(s: Snapshot, q: real, action: StockAction)
    requires action == OrderCancelled || action == OrderError
    ensures Apply(s, action, q).initial == s.initial
    ensures Apply(s, action, q).current == s.current
    ensures Apply(s, action, q).reserved == s.reserved - q
    ensures Unreserved(Apply(s, action, q)) == Unreserved(s) + q
  {
  }

  /** Delivering an order lowers current and reserved stock together: unreserved is conserved. */
  lemma DeliveryConservesUnreserved(s: Snapshot, q: real)
    ensures Apply(s, OrderDelivered, q).current == s.current - q
    ensures Apply(s, OrderDelivered, q).reserved == s.reserved - q
    ensures Unreserved(Apply(s, OrderDelivered, q)) == Unreserved(s)
  {
  }

  /** A direct sale and its correction undo each other, in either order. */
  lemma DirectSaleInverse(s: Snapshot, q: real)
    ensures Apply(Apply(s, DirectSale, q), DirectSaleCorrection, q) == s
    ensures Apply(Apply(s, DirectSaleCorrection, q), DirectSale, q) == s
  {
  }

  /** Reserving an order and then cancelling it or marking it as an error restores the snapshot. */
  lemma NewOrderInverse(s: Snapshot, q: real)
    ensures Apply(Apply(s, NewOrder, q), OrderCancelled, q) == s
    ensures Apply(Apply(s, NewOrder, q), OrderError, q) == s
  {
  }

  /** A reset zeroes everything whatever the quantity. */
  lemma ResetZeroes(s: Snapshot, q: real)
    ensures Apply(s, ResetStock, q) == Snapshot(0.0, 0.0, 0.0)
    ensures Unreserved(Apply(s, ResetStock, q)) == 0.0
  {
  }

  /**
   * How each action moves the unreserved stock: reserving or selling lowers it by `q`,
   * releasing a reservation or correcting a sale raises it by `q`, delivery keeps it.
   */
  function UnreservedDelta(action: StockAction, q: real): real
  {
    match action
    case OrderCancelled => q
    case OrderError => q
    case OrderDelivered => 0.0
    case DirectSale => -q
    case DirectSaleCorrection => q
    case NewOrder => -q
    case ResetStock => 0.0
  }

  lemma UnreservedBalance(s: Snapshot, action: StockAction, q: real)
    requires action != ResetStock
    ensures Unreserved(Apply(s, action, q)) == Unreserved(s) + UnreservedDelta(action, q)
    ensures Apply(s, action, q).initial == s.initial
  {
  }

  /** Today's stock row together with the stock history table. */
  class StockLedger {
    var stock: Option<StockRow>
    var history: seq<HistoryEntry>

    constructor (stock: Option<StockRow>)
      ensures this.stock == stock && history == []
    {
      this.stock := stock;
      history := [];
    }

    /**
     * `stockMiddleware`: without an update nothing happens. Otherwise, if a stock row
     * exists, it is overwritten with the update's four values and a history entry
     * records the previous and the new current stock.
     */
    method Commit(update: Option<StockUpdate>) returns (r: Result<(), StockError>)
      modifies this
      ensures update.None? ==> r.Ok? && stock == old(stock) && history == old(history)
      ensures update.Some? && old(stock).None? ==>
        r == Err(NoStockFound) && stock == old(stock) && history == old(history)
      ensures update.Some? && old(stock).Some? ==>
        var u := update.value;
        r.Ok? &&
        stock == Some(StockRow(u.initial, u.current, u.reserved, u.unreserved)) &&
        history == old(history) + [HistoryEntry(u.action, u.quantity, old(stock).value.current,
                                                u.current, CreatedBy(u.source))]
    {
      if update.None? {
        return Ok(());
      }
      if stock.None? {
        return Err(NoStockFound);
      }
      var u := update.value;
      var previous := stock.value.current;
      stock := Some(StockRow(u.initial, u.current, u.reserved, u.unreserved));
      history := history + [HistoryEntry(u.action, u.quantity, previous, u.current, CreatedBy(u.source))];
      return Ok(());
    }

    /**
     * The sequence every stock route runs: prepare the update from the stored row,
     * then hand it to the middleware. The new row is the old one moved by `Apply`,
     * with unreserved = current − reserved.
     */
    method Perform(action: StockAction, q: real, source: Option<Source>) returns (r: Result<StockUpdate, StockError>)
      modifies this
      ensures old(stock).None? <==> r == Err(NoStockFound)
      ensures stock == NextRow(old(stock), action, q)
      ensures old(stock).None? ==> history == old(history)
      ensures old(stock).Some? ==>
        r.Ok? && r.value.action == action && r.value.quantity == q &&
        history == old(history) + [HistoryEntry(action, q, old(stock).value.current, stock.value.current,
                                                CreatedBy(source))]
    {
      r := PrepareStockUpdate(stock, action, q, source);
      if r.Err? {
        return;
      }
      var committed := Commit(Some(r.value));
    }
  }
}
