/** `calculate_price` and the `prices` list (random.py): a unit price with a
    volume discount in four tiers. Python's floating point is replaced by
    exact `real` arithmetic; quantities are whole numbers. */
module Pricing {
  /** The quantities the price list is computed for. */
  const Quantities: seq<int> := [1, 2, 3, 4, 5, 10, 15, 20, 25, 30, 50]

  const UnitPrice: real := 8.5

  /** The discount, in percent, for a quantity: 10 from 5 to 15, 15 up to
      25, 20 up to 30, 25 up to 50, and none outside 5 to 50. */
  function DiscountPercent(qty: int): (p: int)
    ensures 0 <= p <= 25
    ensures p == 0 <==> qty < 5 || 50 < qty
  {
    if 5 <= qty <= 15 then 10
    else if 15 < qty <= 25 then 15
    else if 25 < qty <= 30 then 20
    else if 30 < qty <= 50 then 25
    else 0
  }

  /** Within the discounted range a larger order never gets a smaller
      discount. */
  lemma DiscountMonotone(a: int, b: int)
    requires 5 <= a <= b <= 50
    ensures DiscountPercent(a) <= DiscountPercent(b)
  {
  }

  /** Each tier starts right after the previous one ends. */
  lemma TierBoundaries()
    ensures DiscountPercent(4) == 0 && DiscountPercent(5) == 10
    ensures DiscountPercent(15) == 10 && DiscountPercent(16) == 15
    ensures DiscountPercent(25) == 15 && DiscountPercent(26) == 20
    ensures DiscountPercent(30) == 20 && DiscountPercent(31) == 25
    ensures DiscountPercent(50) == 25 && DiscountPercent(51) == 0
  {
  }

  /** `calculate_price`: the quantity times the unit price, less the
      discount. Per tier this is the quantity times a discounted unit price:
      8.50 with no discount, then 7.65, 7.225, 6.80 and 6.375. */
  function CalculatePrice(qty: int): (price: real)
    ensures qty < 5 || 50 < qty ==> price == (qty as real) * 8.5
    ensures 5 <= qty <= 15 ==> price == (qty as real) * 7.65
    ensures 15 < qty <= 25 ==> price == (qty as real) * 7.225
    ensures 25 < qty <= 30 ==> price == (qty as real) * 6.8
    ensures 30 < qty <= 50 ==> price == (qty as real) * 6.375
    ensures qty >= 0 ==> 0.0 <= price <= (qty as real) * UnitPrice
    ensures qty > 0 ==> (price == (qty as real) * UnitPrice <==> DiscountPercent(qty) == 0)
    ensures qty >= 0 ==> price >= (qty as real) * UnitPrice * 0.75
  {
    var full := (qty as real) * UnitPrice;
    var p := DiscountPercent(qty) as real;
    assert 0.0 <= p <= 25.0;
    full * (1.0 - p / 100.0)
  }

  /** The discount is by tier, not by unit: one more unit past a tier
      boundary can cost less in total. */
  lemma CrossingATierLowersThePrice()
    ensures CalculatePrice(26) < CalculatePrice(25)
    ensures CalculatePrice(31) < CalculatePrice(30)
  {
  }

  /** The `prices` comprehension: one price per quantity, in order. */
  function Prices(qs: seq<int>): (ps: seq<real>)
    ensures |ps| == |qs|
    ensures forall i :: 0 <= i < |qs| ==> ps[i] == CalculatePrice(qs[i])
  {
    if qs == [] then [] else [CalculatePrice(qs[0])] + Prices(qs[1..])
  }

  /** The prices of the quantities below the top discount tier. */
  lemma LowerTierPrices()
    ensures CalculatePrice(1) == 8.5 && CalculatePrice(2) == 17.0
    ensures CalculatePrice(3) == 25.5 && CalculatePrice(4) == 34.0
    ensures CalculatePrice(5) == 38.25 && CalculatePrice(10) == 76.5
  {
  }

  lemma UpperTierPrices()
    ensures CalculatePrice(15) == 114.75 && CalculatePrice(20) == 144.5
    ensures CalculatePrice(25) == 180.625 && CalculatePrice(30) == 204.0
    ensures CalculatePrice(50) == 318.75
  {
  }

  lemma QuantitiesListed(qs: seq<int>)
    requires qs == Quantities
    ensures |qs| == 11
    ensures qs[0] == 1 && qs[1] == 2 && qs[2] == 3 && qs[3] == 4 && qs[4] == 5 && qs[5] == 10
    ensures qs[6] == 15 && qs[7] == 20 && qs[8] == 25 && qs[9] == 30 && qs[10] == 50
  {
  }

  /** The prices the script prints, in exact arithmetic. */
  const Expected: seq<real> := [8.5, 17.0, 25.5, 34.0, 38.25, 76.5, 114.75, 144.5, 180.625, 204.0, 318.75]

  lemma LowerPriceList(qs: seq<int>, ps: seq<real>)
    requires qs == Quantities && ps == Prices(qs)
    ensures forall i :: 0 <= i < 6 ==> ps[i] == Expected[i]
  {
    QuantitiesListed(qs);
    LowerTierPrices();
    assert ps[0] == CalculatePrice(1) && ps[1] == CalculatePrice(2) && ps[2] == CalculatePrice(3);
    assert ps[3] == CalculatePrice(4) && ps[4] == CalculatePrice(5) && ps[5] == CalculatePrice(10);
  }

  lemma UpperPriceList(qs: seq<int>, ps: seq<real>)
    requires qs == Quantities && ps == Prices(qs)
    ensures forall i :: 6 <= i < 11 ==> ps[i] == Expected[i]
  {
    QuantitiesListed(qs);
    UpperTierPrices();
    assert ps[6] == CalculatePrice(15) && ps[7] == CalculatePrice(20) && ps[8] == CalculatePrice(25);
    assert ps[9] == CalculatePrice(30) && ps[10] == CalculatePrice(50);
  }

  /** The list the script prints. */
  lemma PriceList(qs: seq<int>)
    requires qs == Quantities
    ensures Prices(qs) == Expected
  {
    var ps := Prices(qs);
    QuantitiesListed(qs);
    LowerPriceList(qs, ps);
    UpperPriceList(qs, ps);
    assert forall i :: 0 <= i < 11 ==> ps[i] == Expected[i];
  }
}
