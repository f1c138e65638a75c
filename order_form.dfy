/**
 * The public order form: the quantity field that snaps to half chickens and
 * fills in the total and the details, the checks made on submit, and the
 * shortening of long error messages.
 *
 * A number that JavaScript would hold as NaN is `None`; the current stock and
 * the pick-up date arrive already converted (`Number(currentStock)`, `new Date(…)`).
 */
module OrderForm {
  import opened Outcomes
  import opened Rounding
  import opened HalfSteps

  /** The price of one chicken in the unit of `totalAmount`. */
  const PricePerChicken: real := 1200.0

  /** `Math.round(q * 2) / 2`: the nearest half, halves of a half rounded up. */
  function HalfRound(q: real): (r: real)
    ensures IsHalfStep(r)
    ensures q - 0.25 < r <= q + 0.25
  {
    var n := JsRound(q * 2.0);
    assert (2.0 * (n as real / 2.0)).Floor == n;
    n as real / 2.0
  }

  /** A quantity that already is a half step is kept. */
  lemma HalfRoundKeepsHalfSteps(q: real)
    requires IsHalfStep(q)
    ensures HalfRound(q) == q
  {
    var n := (2.0 * q).Floor;
    assert (q * 2.0 + 0.5).Floor == n;
  }

  /** Rounding twice is rounding once. */
  lemma HalfRoundIdempotent(q: real)
    ensures HalfRound(HalfRound(q)) == HalfRound(q)
  {
    HalfRoundKeepsHalfSteps(HalfRound(q));
  }

  /** A larger input never rounds to a smaller quantity. */
  lemma HalfRoundMonotone(p: real, q: real)
    requires p <= q
    ensures HalfRound(p) <= HalfRound(q)
  {
    var a, b := p * 2.0 + 0.5, q * 2.0 + 0.5;
    assert a.Floor as real <= a <= b < b.Floor as real + 1.0;
    assert a.Floor <= b.Floor;
    assert JsRound(p * 2.0) <= JsRound(q * 2.0);
  }

  /** `quantity * 1200`. */
  function TotalAmount(q: real): (r: real)
    ensures q >= 0.0 ==> r >= 0.0
    ensures r / PricePerChicken == q
  {
    q * PricePerChicken
  }

  /** The total of a half step is a whole multiple of the price of half a chicken. */
  lemma TotalOfHalfStep(q: real)
    requires IsHalfStep(q)
    ensures TotalAmount(q) == ((2.0 * q).Floor * 600) as real
  {
  }

  /** The text put in the details field: the quantity phrase, or "NaN pollos". */
  function DetailsText(quantity: Option<real>): (r: string)
    requires quantity.Some? ==> IsHalfStep(quantity.value)
    ensures quantity.None? ==> r == "NaN pollos"
    ensures quantity.Some? ==> r == QuantityText(quantity.value)
  {
    if quantity.None? then "NaN pollos" else QuantityText(quantity.value)
  }

  /** The order sent to the server. */
  datatype OrderData = OrderData(quantity: real, totalAmount: real, pickupTime: int)

  /** What pressing submit does: one of the refusals, or the order it sends. */
  datatype SubmitOutcome =
    | InsufficientStock
    | InvalidQuantity
    | NonPositiveQuantity
    | InvalidPickupTime
    | Sent(data: OrderData)

  /**
   * `onSubmit`: the stock check first (a comparison with NaN is false). Then the
   * pick-up date: logging its ISO text throws for an invalid date, and the catch
   * shows that error, so an invalid date is refused before the quantity is looked
   * at and the later date check of the handler is never reached. Then the quantity;
   * a valid form sends the quantity with its total.
   */
  function SubmitDecision(quantity: Option<real>, stock: Option<real>, pickup: Option<int>): (r: SubmitOutcome)
    ensures r.InsufficientStock? <==> quantity.Some? && stock.Some? && quantity.value > stock.value
    ensures r.Sent? <==>
      quantity.Some? && quantity.value > 0.0 && (stock.None? || quantity.value <= stock.value) && pickup.Some?
    ensures r.Sent? ==> r.data == OrderData(quantity.value, TotalAmount(quantity.value), pickup.value)
    ensures r.InvalidPickupTime? <==> pickup.None? && !r.InsufficientStock?
    ensures r.InvalidQuantity? <==> quantity.None? && pickup.Some?
    ensures r.NonPositiveQuantity? <==> quantity.Some? && quantity.value <= 0.0 && pickup.Some? && !r.InsufficientStock?
  {
    if quantity.Some? && stock.Some? && quantity.value > stock.value then InsufficientStock
    else if pickup.None? then InvalidPickupTime
    else if quantity.None? then InvalidQuantity
    else if quantity.value <= 0.0 then NonPositiveQuantity
    else Sent(OrderData(quantity.value, TotalAmount(quantity.value), pickup.value))
  }

  /** A quantity typed into the field and then submitted is a positive half step within stock. */
  lemma SentQuantityIsHalfStepInStock(typed: real, stock: Option<real>, pickup: Option<int>)
    requires SubmitDecision(Some(HalfRound(typed)), stock, pickup).Sent?
    ensures var d := SubmitDecision(Some(HalfRound(typed)), stock, pickup).data;
      IsHalfStep(d.quantity) && d.quantity >= 0.5 && (stock.Some? ==> d.quantity <= stock.value) &&
      d.totalAmount >= 600.0
  {
    var q := HalfRound(typed);
    var n := (2.0 * q).Floor;
    assert n >= 1;
  }

  /**
   * The toast description: a message longer than 200 characters is cut to its
   * first 197 followed by "...", so it is exactly 200 long.
   */
  function ErrorDescription(message: string): (r: string)
    ensures |r| <= 200
    ensures |message| <= 200 ==> r == message
    ensures |message| > 200 ==> |r| == 200 && r[..197] == message[..197] && r[197..] == "..."
  {
    if |message| > 200 then message[..197] + "..." else message
  }

  /** Shortening a shortened message changes nothing. */
  lemma ErrorDescriptionIdempotent(message: string)
    ensures ErrorDescription(ErrorDescription(message)) == ErrorDescription(message)
  {
  }

  /** The form's values, changed by the quantity field and by submitting. */
  class OrderFormState {
    var quantity: Option<real>
    var totalAmount: Option<real>
    var details: string
    /** The orders handed to the create-order request, oldest first. */
    var sent: seq<OrderData>

    /** Every quantity the field holds is a half step (or NaN). */
    ghost predicate Valid()
      reads this
    {
      quantity.Some? ==> IsHalfStep(quantity.value)
    }

    /** The default values: one chicken, total 0, no details, nothing sent. */
    constructor()
      ensures Valid()
      ensures quantity == Some(1.0) && totalAmount == Some(0.0) && details == "" && sent == []
    {
      quantity := Some(1.0);
      totalAmount := Some(0.0);
      details := "";
      sent := [];
    }

    /**
     * The quantity input's `onChange`: the parsed value rounded to a half, the
     * total for it and the quantity phrase as details.
     */
    method QuantityChanged(parsed: Option<real>)
      modifies this
      ensures Valid()
      ensures quantity == if parsed.None? then None else Some(HalfRound(parsed.value))
      ensures totalAmount == if parsed.None? then None else Some(TotalAmount(HalfRound(parsed.value)))
      ensures details == DetailsText(quantity)
      ensures sent == old(sent)
    {
      if parsed.None? {
        quantity := None;
        totalAmount := None;
      } else {
        var q := HalfRound(parsed.value);
        quantity := Some(q);
        totalAmount := Some(TotalAmount(q));
      }
      details := DetailsText(quantity);
    }

    /** `onSubmit`: the order is sent exactly when the decision says so. */
    method Submit(stock: Option<real>, pickup: Option<int>) returns (outcome: SubmitOutcome)
      requires Valid()
      modifies this
      ensures Valid()
      ensures outcome == SubmitDecision(old(quantity), stock, pickup)
      ensures sent == old(sent) + (if outcome.Sent? then [outcome.data] else [])
      ensures quantity == old(quantity) && totalAmount == old(totalAmount) && details == old(details)
    {
      outcome := SubmitDecision(quantity, stock, pickup);
      if outcome.Sent? {
        sent := sent + [outcome.data];
      }
    }
  }
}
