/**
 * The width of the depth bar drawn behind an order-book row on Android
 * (`calculateBarWidth` in OrderRowWithBarView.kt): the row's share of the
 * largest quantity, scaled to 200, and never narrower than 5.
 */
module BarWidth {

  const MinWidth: real := 5.0
  const FullWidth: real := 200.0

  /** The bar width of a row of `quantity` when the largest listed quantity is `maxQuantity`. */
  function CalculateBarWidth(quantity: real, maxQuantity: real): (r: real)
    ensures r >= MinWidth
    ensures maxQuantity <= 0.0 ==> r == MinWidth
    ensures maxQuantity > 0.0 ==> r >= quantity / maxQuantity * FullWidth
    ensures maxQuantity > 0.0 ==> r == MinWidth || r == quantity / maxQuantity * FullWidth
  {
    if maxQuantity <= 0.0 then MinWidth
    else
      var width := quantity / maxQuantity * FullWidth;
      if MinWidth >= width then MinWidth else width
  }

  /** The largest row gets the full width. */
  lemma LargestRowIsFull(maxQuantity: real)
    requires maxQuantity > 0.0
    ensures CalculateBarWidth(maxQuantity, maxQuantity) == FullWidth
  {
    assert maxQuantity / maxQuantity == 1.0;
  }

  /** A larger quantity never gets a narrower bar. */
  lemma WidthMonotone(q1: real, q2: real, maxQuantity: real)
    requires q1 <= q2
    ensures CalculateBarWidth(q1, maxQuantity) <= CalculateBarWidth(q2, maxQuantity)
  {
    if maxQuantity > 0.0 {
      assert q1 / maxQuantity * FullWidth <= q2 / maxQuantity * FullWidth by {
        assert q1 / maxQuantity <= q2 / maxQuantity;
      }
    }
  }

  /** A row of at most the largest quantity is never wider than the full bar. */
  lemma WidthBounded(quantity: real, maxQuantity: real)
    requires quantity <= maxQuantity
    ensures CalculateBarWidth(quantity, maxQuantity) <= FullWidth
  {
    if maxQuantity > 0.0 {
      WidthMonotone(quantity, maxQuantity, maxQuantity);
      LargestRowIsFull(maxQuantity);
    }
  }
}
