/**
 * The quantity picker: four preset buttons and a drop-down of every half from 0.5
 * to 10. The component also defines a handler for a free input, accepted only
 * within [min, max] and snapped to the step, though it renders no input that
 * calls it. The selection and the `onChange` calls are the state.
 */
module QuantitySelector {
  import opened Outcomes
  import opened Rounding
  import opened HalfSteps

  /** The preset buttons. */
  const PresetQuantities: seq<real> := [0.5, 1.0, 1.5, 2.0]

  /** `Array.from({ length: 20 }, (_, i) => (i + 1) * 0.5)`. */
  function AllQuantities(): (r: seq<real>)
    ensures |r| == 20
    ensures forall i, j :: 0 <= i < j < |r| ==> r[i] < r[j]
  {
    seq(20, i requires 0 <= i < 20 => (i + 1) as real * 0.5)
  }

  /** The drop-down offers exactly the half steps from 0.5 to 10. */
  lemma AllQuantitiesAreTheHalves(q: real)
    ensures q in AllQuantities() <==> IsHalfStep(q) && 0.5 <= q <= 10.0
  {
    var all := AllQuantities();
    if IsHalfStep(q) && 0.5 <= q <= 10.0 {
      var n := (2.0 * q).Floor;
      assert 1 <= n <= 20;
      assert all[n - 1] == q;
    }
    if q in all {
      var i :| 0 <= i < 20 && all[i] == q;
      assert (2.0 * q).Floor == i + 1;
    }
  }

  /** Every preset is also in the drop-down. */
  lemma PresetsAreOffered()
    ensures forall q :: q in PresetQuantities ==> q in AllQuantities()
  {
    var all := AllQuantities();
    assert all[0] == 0.5 && all[1] == 1.0 && all[2] == 1.5 && all[3] == 2.0;
  }

  /** `!PRESET_QUANTITIES.includes(value)`. */
  predicate IsManual(q: real)
  {
    q !in PresetQuantities
  }

  /**
   * The free input: a number within [min, max] is snapped to the nearest multiple
   * of `step` (`Math.round(q / step) * step`); anything else is refused.
   */
  function ManualQuantity(parsed: Option<real>, min: real, max: real, step: real): (r: Option<real>)
    requires step > 0.0
    ensures r.Some? <==> parsed.Some? && min <= parsed.value <= max
    ensures r.Some? ==> r.value == (JsRound(parsed.value / step) as real) * step
    ensures r.Some? ==> parsed.value - step / 2.0 < r.value <= parsed.value + step / 2.0
  {
    if parsed.Some? && min <= parsed.value <= max then
      var q := parsed.value;
      var n := JsRound(q / step);
      assert q / step - 0.5 < n as real <= q / step + 0.5;
      Scale(q / step - 0.5, n as real, q / step + 0.5, step);
      Some(n as real * step)
    else None
  }

  lemma Scale(lo: real, x: real, hi: real, k: real)
    requires k > 0.0 && lo < x <= hi
    ensures lo * k < x * k <= hi * k
  {
  }

  /** With bounds that are multiples of the step, a snapped value stays within the bounds. */
  lemma ManualQuantityWithinBounds(q: real, lo: int, hi: int, step: real)
    requires step > 0.0
    requires lo as real * step <= q <= hi as real * step
    ensures ManualQuantity(Some(q), lo as real * step, hi as real * step, step).Some?
    ensures lo as real * step <= ManualQuantity(Some(q), lo as real * step, hi as real * step, step).value
    ensures ManualQuantity(Some(q), lo as real * step, hi as real * step, step).value <= hi as real * step
  {
    var x := q / step;
    QuotientWithin(q, lo as real, hi as real, step);
    var n := JsRound(x);
    RoundWithin(x, lo, hi);
    var l, m, h := lo as real, n as real, hi as real;
    assert l <= m <= h;
    var lower, snapped, upper := l * step, m * step, h * step;
    MulMonotone(l, m, step);
    MulMonotone(m, h, step);
    assert lower <= snapped;
    assert snapped <= upper;
    var r := ManualQuantity(Some(q), lower, upper, step);
    assert r.Some?;
    assert r.value == JsRound(q / step) as real * step;
    assert JsRound(q / step) == n;
    assert r.value == snapped;
  }

  lemma QuotientWithin(q: real, lo: real, hi: real, step: real)
    requires step > 0.0 && lo * step <= q <= hi * step
    ensures lo <= q / step <= hi
  {
    var x := q / step;
    assert x * step == q;
  }

  /** Rounding a value between two integers stays between them. */
  lemma RoundWithin(x: real, lo: int, hi: int)
    requires lo as real <= x <= hi as real
    ensures lo <= JsRound(x) <= hi
  {
    assert (lo as real + 0.5).Floor == lo && (hi as real + 0.5).Floor == hi;
    FloorMonotone(lo as real + 0.5, x + 0.5);
    FloorMonotone(x + 0.5, hi as real + 0.5);
  }

  lemma MulMonotone(a: real, b: real, k: real)
    requires a <= b && k > 0.0
    ensures a * k <= b * k
  {
  }

  lemma FloorMonotone(a: real, b: real)
    requires a <= b
    ensures a.Floor <= b.Floor
  {
    assert a.Floor as real <= a <= b < b.Floor as real + 1.0;
  }

  /** `formatQuantityText` of the buttons and the drop-down, which only show half steps. */
  function FormatQuantityText(q: real): (r: string)
    requires IsHalfStep(q)
    ensures q != 0.5 ==> r == QuantityText(q)
    ensures q == 0.5 ==> r == "Medio pollo"
  {
    if q == 0.5 then "Medio pollo"
    else if q == 1.0 then "1 pollo"
    else HalfText(q) + " pollos"
  }

  /** Every entry of the drop-down has its own text. */
  lemma FormatQuantityTextInjective(p: real, q: real)
    requires IsHalfStep(p) && IsHalfStep(q) && p != q
    ensures FormatQuantityText(p) != FormatQuantityText(q)
  {
    if p == 0.5 || q == 0.5 {
      var other := if p == 0.5 then q else p;
      var t := QuantityText(other);
      assert |t| >= 7;
      if other != 1.0 {
        assert t[|t| - 1] == 's';
      }
    } else {
      QuantityTextInjective(p, q);
    }
  }

  /** The picker's state and the values it reported through `onChange`. */
  class Selector {
    var selectedQuantity: real
    var isManualSelection: bool
    /** The arguments of the `onChange` calls, oldest first. */
    var reported: seq<real>

    /** The flag tells whether the selection is off the preset buttons. */
    ghost predicate FlagAgrees()
      reads this
    {
      isManualSelection == IsManual(selectedQuantity)
    }

    /** The mount effect: adopt the given value, or select and report one chicken. */
    constructor(value: Option<real>)
      ensures FlagAgrees()
      ensures value.Some? ==> selectedQuantity == value.value && reported == []
      ensures value.None? ==> selectedQuantity == 1.0 && reported == [1.0]
    {
      if value.Some? {
        selectedQuantity := value.value;
        isManualSelection := IsManual(value.value);
        reported := [];
      } else {
        selectedQuantity := 1.0;
        isManualSelection := false;
        reported := [1.0];
      }
    }

    /** The effect on a new `value` prop: adopt a different defined value without reporting it. */
    method ValueChanged(value: Option<real>)
      requires FlagAgrees()
      modifies this
      ensures FlagAgrees()
      ensures selectedQuantity == if value.Some? then value.value else old(selectedQuantity)
      ensures reported == old(reported)
    {
      if value.Some? && value.value != selectedQuantity {
        selectedQuantity := value.value;
        isManualSelection := IsManual(value.value);
      }
    }

    /** A preset button: select it, clear the manual flag, report it. */
    method PresetClicked(q: real)
      requires q in PresetQuantities
      modifies this
      ensures FlagAgrees()
      ensures selectedQuantity == q && !isManualSelection
      ensures reported == old(reported) + [q]
    {
      selectedQuantity := q;
      isManualSelection := false;
      reported := reported + [q];
    }

    /** A drop-down entry: select it, set the flag from the presets, report it. */
    method SelectorChanged(q: real)
      modifies this
      ensures FlagAgrees()
      ensures selectedQuantity == q
      ensures reported == old(reported) + [q]
    {
      selectedQuantity := q;
      isManualSelection := IsManual(q);
      reported := reported + [q];
    }

    /**
     * The free-input handler, which no element of the component is wired to: an
     * accepted value is selected and reported; an empty input selects 0 without
     * reporting; anything else is ignored. The manual flag is left as it was.
     */
    method ManualChanged(input: string, parsed: Option<real>, min: real, max: real, step: real)
      requires step > 0.0
      modifies this
      ensures isManualSelection == old(isManualSelection)
      ensures ManualQuantity(parsed, min, max, step).Some? ==>
        selectedQuantity == ManualQuantity(parsed, min, max, step).value &&
        reported == old(reported) + [selectedQuantity]
      ensures ManualQuantity(parsed, min, max, step).None? ==> reported == old(reported)
      ensures ManualQuantity(parsed, min, max, step).None? && input == "" ==> selectedQuantity == 0.0
      ensures ManualQuantity(parsed, min, max, step).None? && input != "" ==> selectedQuantity == old(selectedQuantity)
    {
      var accepted := ManualQuantity(parsed, min, max, step);
      if accepted.Some? {
        selectedQuantity := accepted.value;
        reported := reported + [accepted.value];
      } else if input == "" {
        selectedQuantity := 0.0;
      }
    }
  }
}
