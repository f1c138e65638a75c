/**
 * Quantities of chicken in steps of one half, and how the client writes them:
 * JavaScript's decimal text of such a number (`${q}`) and the quantity phrase
 * shared by the order form and the WhatsApp message.
 */
module HalfSteps {
  import opened Text
  import opened Rounding

  /** `q` is a whole number of halves. */
  predicate IsHalfStep(q: real)
  {
    (2.0 * q).Floor as real == 2.0 * q
  }

  predicate IsWhole(q: real)
  {
    q.Floor as real == q
  }

  /** A half step that is not whole lies exactly half-way between two integers. */
  lemma HalfwayBetween(q: real)
    requires IsHalfStep(q) && !IsWhole(q)
    ensures q - q.Floor as real == 0.5
  {
    var n := (2.0 * q).Floor;
    var f := q.Floor;
    assert 2 * f <= n < 2 * f + 2;
    assert n != 2 * f;
  }

  lemma WholeIsHalfStep(n: int)
    ensures IsHalfStep(n as real) && IsWhole(n as real)
  {
    assert (2.0 * (n as real)).Floor == 2 * n;
  }

  lemma AbsOfHalfStep(q: real)
    requires IsHalfStep(q)
    ensures IsHalfStep(Abs(q)) && (IsWhole(Abs(q)) <==> IsWhole(q))
  {
    if q < 0.0 {
      var n := (2.0 * q).Floor;
      assert (2.0 * -q).Floor == -n;
      if IsWhole(q) {
        assert (-q).Floor == -q.Floor;
      } else {
        HalfwayBetween(q);
        assert (-q).Floor == -q.Floor - 1;
      }
    }
  }

  /** An optional minus sign followed by the digits of `k`. */
  function SignedText(negative: bool, k: nat): (r: string)
    ensures |r| >= 1
    ensures negative <==> r[0] == '-'
    ensures forall i :: 0 <= i < |r| ==> r[i] == '-' || IsDigit(r[i])
  {
    (if negative then "-" else "") + NatToString(k)
  }

  lemma SignedTextInjective(n1: bool, k1: nat, n2: bool, k2: nat)
    requires (n1, k1) != (n2, k2)
    ensures SignedText(n1, k1) != SignedText(n2, k2)
  {
    var s1, s2 := SignedText(n1, k1), SignedText(n2, k2);
    if n1 == n2 {
      var d1, d2 := NatToString(k1), NatToString(k2);
      assert DigitsValue(d1) != DigitsValue(d2);
      if n1 {
        assert s1[1..] == d1 && s2[1..] == d2;
      } else {
        assert s1 == d1 && s2 == d2;
      }
    } else {
      assert s1[0] != s2[0];
    }
  }

  /**
   * `${q}` for a half step: the integer for a whole number, otherwise the sign, the
   * whole part and ".5" (so -0.5 is written "-0.5").
   */
  function HalfText(q: real): (r: string)
    requires IsHalfStep(q)
    ensures |r| >= 1
    ensures Has(r, '.') <==> !IsWhole(q)
  {
    if IsWhole(q) then
      var s := IntToString(q.Floor);
      assert forall i :: 0 <= i < |s| ==> s[i] == '-' || IsDigit(s[i]);
      s
    else
      var s := SignedText(q < 0.0, Abs(q).Floor) + ".5";
      assert s[|s| - 2] == '.';
      assert forall i :: 0 <= i < |s| - 2 ==> s[i] != '.';
      s
  }

  /** Different half steps are written differently. */
  lemma HalfTextInjective(p: real, q: real)
    requires IsHalfStep(p) && IsHalfStep(q) && p != q
    ensures HalfText(p) != HalfText(q)
  {
    if IsWhole(p) && IsWhole(q) {
      IntToStringInjective(p.Floor, q.Floor);
    } else if !IsWhole(p) && !IsWhole(q) {
      var sp, sq := HalfText(p), HalfText(q);
      AbsOfHalfStep(p);
      AbsOfHalfStep(q);
      HalfwayBetween(Abs(p));
      HalfwayBetween(Abs(q));
      assert (p < 0.0, Abs(p).Floor) != (q < 0.0, Abs(q).Floor);
      SignedTextInjective(p < 0.0, Abs(p).Floor, q < 0.0, Abs(q).Floor);
      assert sp[..|sp| - 2] == SignedText(p < 0.0, Abs(p).Floor);
      assert sq[..|sq| - 2] == SignedText(q < 0.0, Abs(q).Floor);
    }
  }

  /**
   * The quantity phrase of the order form and the WhatsApp message: "1 pollo",
   * "medio pollo", otherwise the number followed by " pollos".
   */
  function QuantityText(q: real): (r: string)
    requires IsHalfStep(q)
    ensures |r| >= 7
    ensures r[|r| - 1] == 's' <==> q != 1.0 && q != 0.5
    ensures q != 1.0 && q != 0.5 ==> r[..|r| - 7] == HalfText(q)
  {
    if q == 1.0 then "1 pollo"
    else if q == 0.5 then "medio pollo"
    else
      var r := HalfText(q) + " pollos";
      assert r[..|r| - 7] == HalfText(q);
      r
  }

  /** Different quantities give different phrases. */
  lemma QuantityTextInjective(p: real, q: real)
    requires IsHalfStep(p) && IsHalfStep(q) && p != q
    ensures QuantityText(p) != QuantityText(q)
  {
    var sp, sq := QuantityText(p), QuantityText(q);
    if p != 1.0 && p != 0.5 && q != 1.0 && q != 0.5 {
      HalfTextInjective(p, q);
      assert sp[..|sp| - 7] != sq[..|sq| - 7];
    } else if (p == 1.0 || p == 0.5) && (q == 1.0 || q == 0.5) {
      assert |sp| != |sq|;
    } else {
      assert sp[|sp| - 1] != sq[|sq| - 1];
    }
  }
}
