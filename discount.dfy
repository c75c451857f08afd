/** `calculateDiscount(price, discount)`, copied verbatim into the checkout,
    catalogue, reviews and terms pages: the percentage by which the sale
    price `discount` lies below the list price `price`, printed with
    `toFixed(0)`; of the non-numeric results only "-Infinity" is replaced by
    "0". Number arithmetic is over `real`, with the special values that a
    division by zero yields. */
module Discount {
  import opened Text

  /** A JavaScript number: finite, or one of the three special values. */
  datatype JsNumber = Finite(value: real) | PosInf | NegInf | NaN

  /** `a / b` on numbers: a zero divisor gives an infinity signed like the
      dividend, or NaN for `0 / 0`. */
  function Divide(a: real, b: real): JsNumber
  {
    if b != 0.0 then Finite(a / b)
    else if a > 0.0 then PosInf
    else if a < 0.0 then NegInf
    else NaN
  }

  /** `v * k` for a positive factor `k`: special values are unchanged. */
  function Scale(v: JsNumber, k: real): JsNumber
    requires k > 0.0
  {
    match v
    case Finite(x) => Finite(x * k)
    case _ => v
  }

  /** The integer nearest to `x`, a half rounded up: how `toFixed(0)`
      rounds a magnitude. */
  function RoundHalfUp(x: real): (n: nat)
    requires x >= 0.0
    ensures n as real - 0.5 <= x < n as real + 0.5
  {
    (x + 0.5).Floor
  }

  /** `v.toFixed(0)`: a minus sign for a negative value (kept even when the
      magnitude rounds to 0), then the rounded magnitude; special values are
      printed by name. */
  function ToFixed0(v: JsNumber): string
  {
    match v
    case Finite(x) =>
      if x < 0.0 then "-" + NatToString(RoundHalfUp(-x)) else NatToString(RoundHalfUp(x))
    case PosInf => "Infinity"
    case NegInf => "-Infinity"
    case NaN => "NaN"
  }

  /** `calculateDiscount(price, discount)`. */
  function CalculateDiscount(price: real, discount: real): string
  {
    var percentage := ToFixed0(Scale(Divide(price - discount, price), 100.0));
    if percentage == "-Infinity" then "0" else percentage
  }

  /** A numeral as `toFixed(0)` prints one: digits, possibly after a sign. */
  predicate IsNumeral(s: string)
  {
    (|s| >= 1 && AllDigits(s)) || (|s| >= 2 && s[0] == '-' && AllDigits(s[1..]))
  }

  /** The exact percentage that a non-zero list price yields. */
  function Percentage(price: real, discount: real): real
    requires price != 0.0
  {
    (price - discount) / price * 100.0
  }

  /** For a non-zero list price no special value arises, so the sentinel
      rule never fires and the result is `toFixed(0)` of the percentage. */
  lemma NonZeroListPrice(price: real, discount: real)
    requires price != 0.0
    ensures CalculateDiscount(price, discount) == ToFixed0(Finite(Percentage(price, discount)))
  {
    var x := Percentage(price, discount);
    assert Scale(Divide(price - discount, price), 100.0) == Finite(x);
    var s := ToFixed0(Finite(x));
    if x < 0.0 {
      assert s[1] == NatToString(RoundHalfUp(-x))[0];
      assert s[1] != "-Infinity"[1];
    } else {
      assert s[0] != "-Infinity"[0];
    }
  }

  /** A sale price between 0 and a positive list price gives the whole
      percentage nearest to the true discount, between 0 and 100. */
  lemma DiscountWithinListPrice(price: real, discount: real)
    requires price > 0.0 && 0.0 <= discount <= price
    ensures var r := CalculateDiscount(price, discount);
      && AllDigits(r) && |r| >= 1
      && DigitsValue(r) <= 100
      && DigitsValue(r) as real - 0.5 <= Percentage(price, discount) < DigitsValue(r) as real + 0.5
  {
    NonZeroListPrice(price, discount);
    var x := Percentage(price, discount);
    PercentageBounds(price, discount);
    var n := RoundHalfUp(x);
    assert n <= 100;
    assert CalculateDiscount(price, discount) == NatToString(n);
    DigitsRoundTrip(n);
  }

  lemma PercentageBounds(price: real, discount: real)
    requires price > 0.0 && 0.0 <= discount <= price
    ensures 0.0 <= Percentage(price, discount) <= 100.0
  {
    var q := (price - discount) / price;
    assert q * price == price - discount;
  }

  /** Equal prices give "0". */
  lemma EqualPricesGiveZero(price: real)
    requires price != 0.0
    ensures CalculateDiscount(price, price) == "0"
  {
    NonZeroListPrice(price, price);
    assert price - price == 0.0;
    assert Percentage(price, price) == 0.0;
    assert RoundHalfUp(0.0) == 0;
  }

  /** A free item with a positive list price gives "100". */
  lemma FreeItemGivesHundred(price: real)
    requires price > 0.0
    ensures CalculateDiscount(price, 0.0) == "100"
  {
    NonZeroListPrice(price, 0.0);
    FreePercentage(price);
    assert ToFixed0(Finite(100.0)) == NatToString(100) by {
      assert RoundHalfUp(100.0) == 100;
    }
    assert NatToString(100) == "100" by {
      assert NatToString(10) == "10" by { assert NatToString(1) == "1"; }
    }
  }

  lemma FreePercentage(price: real)
    requires price > 0.0
    ensures Percentage(price, 0.0) == 100.0
  {
    assert (price - 0.0) / price == 1.0;
  }

  /** A sale price above a positive list price gives a negative percentage,
      the sign followed by the rounded mark-up; it is not clamped. */
  lemma SaleAboveListIsNegative(price: real, discount: real)
    requires 0.0 < price < discount
    ensures var r := CalculateDiscount(price, discount);
      && |r| >= 2 && r[0] == '-' && AllDigits(r[1..])
      && DigitsValue(r[1..]) as real - 0.5 <= -Percentage(price, discount) < DigitsValue(r[1..]) as real + 0.5
  {
    NonZeroListPrice(price, discount);
    MarkupPercentageNegative(price, discount);
    var x := Percentage(price, discount);
    var n := RoundHalfUp(-x);
    var r := CalculateDiscount(price, discount);
    assert r == "-" + NatToString(n);
    assert r[1..] == NatToString(n);
    DigitsRoundTrip(n);
  }

  lemma MarkupPercentageNegative(price: real, discount: real)
    requires 0.0 < price < discount
    ensures Percentage(price, discount) < 0.0
  {
    var q := (price - discount) / price;
    assert q * price == price - discount;
  }

  /** Concretely: list price 10, sale price 30 prints "-200". */
  lemma MarkupIsNotClamped()
    ensures CalculateDiscount(10.0, 30.0) == "-200"
  {
    NonZeroListPrice(10.0, 30.0);
    assert Percentage(10.0, 30.0) == -200.0;
    assert RoundHalfUp(200.0) == 200;
    assert NatToString(20) == "20";
    assert NatToString(200) == NatToString(20) + "0";
  }

  /** A mark-up below half a percent still prints its sign: "-0". */
  lemma SmallMarkupPrintsMinusZero()
    ensures CalculateDiscount(1000.0, 1001.0) == "-0"
  {
    NonZeroListPrice(1000.0, 1001.0);
    assert Percentage(1000.0, 1001.0) == -0.1;
    assert RoundHalfUp(0.1) == 0;
  }

  /** A list price of 0: only the "-Infinity" of a positive sale price is
      caught; a zero sale price prints "NaN" and a negative one "Infinity". */
  lemma ZeroListPrice(discount: real)
    ensures discount > 0.0 ==> CalculateDiscount(0.0, discount) == "0"
    ensures discount == 0.0 ==> CalculateDiscount(0.0, discount) == "NaN"
    ensures discount < 0.0 ==> CalculateDiscount(0.0, discount) == "Infinity"
    ensures discount <= 0.0 ==> !IsNumeral(CalculateDiscount(0.0, discount))
  {
    if discount <= 0.0 {
      var r := CalculateDiscount(0.0, discount);
      assert r == "NaN" || r == "Infinity";
      assert !IsDigit(r[0]) && r[0] != '-';
    }
  }

  /** The sentinel rule: the result is never "-Infinity". */
  lemma NeverMinusInfinity(price: real, discount: real)
    ensures CalculateDiscount(price, discount) != "-Infinity"
  {
  }

  /** Away from a zero list price the result is always a numeral. */
  lemma NumeralUnlessListPriceZero(price: real, discount: real)
    requires price != 0.0
    ensures IsNumeral(CalculateDiscount(price, discount))
  {
    NonZeroListPrice(price, discount);
    var x := Percentage(price, discount);
    if x < 0.0 {
      var r := ToFixed0(Finite(x));
      assert r[1..] == NatToString(RoundHalfUp(-x));
    }
  }

  /** The discount badge with the zero denominator guarded directly: a list
      price of 0 gives "0", every other input what `calculateDiscount`
      gives, so the result is always a numeral. */
  function DiscountPercent(price: real, discount: real): (r: string)
    ensures IsNumeral(r)
    ensures price == 0.0 ==> r == "0"
    ensures price != 0.0 ==> r == CalculateDiscount(price, discount)
  {
    if price == 0.0 then "0"
    else
      NumeralUnlessListPriceZero(price, discount);
      CalculateDiscount(price, discount)
  }

  /** The list price as the pages pass it: `item.comparation` is optional
      in the product record, so it may be `undefined` or `null`. */
  datatype ListPrice = Undefined | NullPrice | Given(value: real)

  /** `calculateDiscount(comparation, price)` as the pages call it. Lodash's
      `subtract` and `divide` return the defined operand when the other is
      `undefined`, so a missing list price leaves `price` as the quotient;
      `null` is converted to 0. */
  function BadgeText(listPrice: ListPrice, salePrice: real): string
  {
    match listPrice
    case Given(price) => CalculateDiscount(price, salePrice)
    case NullPrice => CalculateDiscount(0.0, salePrice)
    case Undefined =>
      var percentage := ToFixed0(Finite(salePrice * 100.0));
      if percentage == "-Infinity" then "0" else percentage
  }

  /** A missing list price prints the sale price times 100: a sale price
      of 50 shows "5000". */
  lemma MissingListPrice(salePrice: real)
    ensures BadgeText(Undefined, salePrice) == ToFixed0(Finite(salePrice * 100.0))
    ensures BadgeText(Undefined, 50.0) == "5000"
  {
    var s := ToFixed0(Finite(salePrice * 100.0));
    if salePrice * 100.0 < 0.0 {
      assert s[1] == NatToString(RoundHalfUp(-(salePrice * 100.0)))[0];
      assert s[1] != "-Infinity"[1];
    } else {
      assert s[0] != "-Infinity"[0];
    }
    assert ToFixed0(Finite(5000.0)) == "5000" by {
      assert RoundHalfUp(5000.0) == 5000;
      assert NatToString(5000) == "5000" by {
        assert NatToString(500) == "500" by {
          assert NatToString(50) == "50" by { assert NatToString(5) == "5"; }
        }
      }
    }
  }

  /** A `null` list price behaves as a list price of 0. */
  lemma NullListPrice(salePrice: real)
    ensures salePrice > 0.0 ==> BadgeText(NullPrice, salePrice) == "0"
    ensures salePrice == 0.0 ==> BadgeText(NullPrice, salePrice) == "NaN"
    ensures salePrice < 0.0 ==> BadgeText(NullPrice, salePrice) == "Infinity"
  {
    ZeroListPrice(salePrice);
  }

  /** The badge with a missing, `null` or zero list price shown as "0"; a
      non-zero list price gives what `calculateDiscount` gives. */
  function GuardedBadge(listPrice: ListPrice, salePrice: real): (r: string)
    ensures IsNumeral(r)
    ensures listPrice.Undefined? || listPrice.NullPrice? || listPrice == Given(0.0) ==> r == "0"
    ensures listPrice.Given? && listPrice.value != 0.0 ==> r == BadgeText(listPrice, salePrice)
  {
    match listPrice
    case Given(price) => DiscountPercent(price, salePrice)
    case _ => "0"
  }
}
