/**
 Token amounts of a concentrated-liquidity position (apps/indexer/src/snapshot/math.ts), over exact
 reals (Uniswap v3 Core, section 6.4.1). Prices are square roots of token0's price in token1.
 */
module ConcentratedLiquidity {

  datatype Amounts = Amounts(amount0: real, amount1: real)

  /** `univ3PositionAmounts` before flooring. */
  function PositionAmounts(liquidity: real, price: real, lower: real, upper: real): Amounts
    requires price > 0.0 && lower > 0.0 && upper > 0.0
  {
    if price <= lower then Amounts(liquidity * ((upper - lower) / (upper * lower)), 0.0)
    else if price >= upper then Amounts(0.0, liquidity * (upper - lower))
    else Amounts(liquidity * ((upper - price) / (upper * price)), liquidity * (price - lower))
  }

  /** The price, held inside the range. */
  function Inside(price: real, lower: real, upper: real): real {
    if price <= lower then lower else if price >= upper then upper else price
  }

  lemma InverseDifference(a: real, b: real)
    requires a > 0.0 && b > 0.0
    ensures (b - a) / (b * a) == 1.0 / a - 1.0 / b
  {
    var x, y := 1.0 / a, 1.0 / b;
    assert x * a == 1.0 && y * b == 1.0;
    calc {
      (x - y) * (b * a);
      b * (x * a) - a * (y * b);
      b - a;
    }
    assert b * a > 0.0;
  }

  lemma InverseOrder(a: real, b: real)
    requires 0.0 < a <= b
    ensures 1.0 / b <= 1.0 / a
  {
    var x, y := 1.0 / a, 1.0 / b;
    assert x * a == 1.0 && y * b == 1.0;
    if y > x {
      assert y * b >= y * a > x * a;
    }
  }

  /**
   Closed form: token0 is liquidity times the inverse-price distance to the top, token1 times the price
   distance to the bottom.
   */
  lemma AmountsClosedForm(liquidity: real, price: real, lower: real, upper: real)
    requires price > 0.0 && 0.0 < lower <= upper
    ensures var p := Inside(price, lower, upper);
            PositionAmounts(liquidity, price, lower, upper)
                == Amounts(liquidity * (1.0 / p - 1.0 / upper), liquidity * (p - lower))
  {
    if price <= lower {
      InverseDifference(lower, upper);
    } else if price < upper {
      InverseDifference(price, upper);
    }
  }

  lemma SumOfProducts(l: real, x: real, y: real)
    ensures l * x + l * y == l * (x + y)
  {
  }

  /** Adjacent ranges add up: the amounts over [a, b] and [b, c] sum to those over [a, c], at every price. */
  lemma AdjacentRangesAdd(liquidity: real, price: real, a: real, b: real, c: real)
    requires price > 0.0 && 0.0 < a <= b <= c
    ensures var low, high, whole := PositionAmounts(liquidity, price, a, b), PositionAmounts(liquidity, price, b, c),
                                    PositionAmounts(liquidity, price, a, c);
            whole == Amounts(low.amount0 + high.amount0, low.amount1 + high.amount1)
  {
    AmountsClosedForm(liquidity, price, a, b);
    AmountsClosedForm(liquidity, price, b, c);
    AmountsClosedForm(liquidity, price, a, c);
    var p, q, r := Inside(price, a, b), Inside(price, b, c), Inside(price, a, c);
    SumOfProducts(liquidity, 1.0 / p - 1.0 / b, 1.0 / q - 1.0 / c);
    SumOfProducts(liquidity, p - a, q - b);
    assert p == b || q == b;
    assert (p - a) + (q - b) == r - a;
    assert (1.0 / p - 1.0 / b) + (1.0 / q - 1.0 / c) == 1.0 / r - 1.0 / c;
  }

  /** As the price rises token0 never rises and token1 never falls. */
  lemma AmountsMonotone(liquidity: real, price: real, higher: real, lower: real, upper: real)
    requires liquidity >= 0.0 && 0.0 < price <= higher && 0.0 < lower <= upper
    ensures PositionAmounts(liquidity, higher, lower, upper).amount0
            <= PositionAmounts(liquidity, price, lower, upper).amount0
    ensures PositionAmounts(liquidity, higher, lower, upper).amount1
            >= PositionAmounts(liquidity, price, lower, upper).amount1
  {
    OrderedAmounts(liquidity, price, higher, lower, upper, PositionAmounts(liquidity, price, lower, upper),
                   PositionAmounts(liquidity, higher, lower, upper));
  }

  lemma OrderedAmounts(liquidity: real, price: real, higher: real, lower: real, upper: real, low: Amounts,
                       high: Amounts)
    requires liquidity >= 0.0 && 0.0 < price <= higher && 0.0 < lower <= upper
    requires low == PositionAmounts(liquidity, price, lower, upper)
             && high == PositionAmounts(liquidity, higher, lower, upper)
    ensures high.amount0 <= low.amount0 && high.amount1 >= low.amount1
  {
    var p, q := Inside(price, lower, upper), Inside(higher, lower, upper);
    ClosedAt(liquidity, price, lower, upper, p, low);
    ClosedAt(liquidity, higher, lower, upper, q, high);
    OrderedInside(liquidity, p, q, lower, upper, low, high);
  }

  predicate Closed(l: real, p: real, lower: real, upper: real, r: Amounts)
    requires p > 0.0 && upper > 0.0
  {
    r == Amounts(l * (1.0 / p - 1.0 / upper), l * (p - lower))
  }

  lemma ClosedAt(l: real, price: real, lower: real, upper: real, p: real, r: Amounts)
    requires price > 0.0 && 0.0 < lower <= upper && p == Inside(price, lower, upper)
    requires r == PositionAmounts(l, price, lower, upper)
    ensures p > 0.0 && Closed(l, p, lower, upper, r)
  {
    AmountsClosedForm(l, price, lower, upper);
  }

  lemma OrderedInside(l: real, p: real, q: real, lower: real, upper: real, low: Amounts, high: Amounts)
    requires l >= 0.0 && 0.0 < p <= q && 0.0 < upper
    requires Closed(l, p, lower, upper, low) && Closed(l, q, lower, upper, high)
    ensures high.amount0 <= low.amount0 && high.amount1 >= low.amount1
  {
    InverseOrder(p, q);
    ScaledOrder(l, 1.0 / q - 1.0 / upper, 1.0 / p - 1.0 / upper);
    ScaledOrder(l, p - lower, q - lower);
  }

  lemma ScaledOrder(l: real, x: real, y: real)
    requires l >= 0.0 && x <= y
    ensures l * x <= l * y
  {
    SumOfProducts(l, x, y - x);
    assert l * (y - x) >= 0.0;
  }

  /** At the two boundary prices the in-range formulas give what the out-of-range branches give. */
  lemma BranchesAgreeAtBoundaries(liquidity: real, lower: real, upper: real)
    requires 0.0 < lower <= upper
    ensures PositionAmounts(liquidity, lower, lower, upper)
            == Amounts(liquidity * ((upper - lower) / (upper * lower)), liquidity * (lower - lower))
    ensures lower < upper ==>
              PositionAmounts(liquidity, upper, lower, upper)
              == Amounts(liquidity * ((upper - upper) / (upper * upper)), liquidity * (upper - lower))
  {
    assert liquidity * (lower - lower) == 0.0;
    InverseDifference(upper, upper);
    assert liquidity * ((upper - upper) / (upper * upper)) == 0.0;
  }

  /** `BigInt(Math.max(0, Math.floor(x)))`. */
  function Floored(x: real): int {
    if x.Floor < 0 then 0 else x.Floor
  }

  /** After flooring, adjacent ranges still add up to within one unit of either token. */
  lemma FlooredRangesAdd(liquidity: real, price: real, a: real, b: real, c: real)
    requires liquidity >= 0.0 && price > 0.0 && 0.0 < a <= b <= c
    ensures var low, high, whole := PositionAmounts(liquidity, price, a, b), PositionAmounts(liquidity, price, b, c),
                                    PositionAmounts(liquidity, price, a, c);
            && 0 <= Floored(whole.amount0) - (Floored(low.amount0) + Floored(high.amount0)) <= 1
            && 0 <= Floored(whole.amount1) - (Floored(low.amount1) + Floored(high.amount1)) <= 1
  {
    AdjacentRangesAdd(liquidity, price, a, b, c);
    NonNegative(liquidity, price, a, b);
    NonNegative(liquidity, price, b, c);
  }

  lemma NonNegative(liquidity: real, price: real, lower: real, upper: real)
    requires liquidity >= 0.0 && price > 0.0 && 0.0 < lower <= upper
    ensures var r := PositionAmounts(liquidity, price, lower, upper); r.amount0 >= 0.0 && r.amount1 >= 0.0
  {
    var p := Inside(price, lower, upper);
    ClosedAt(liquidity, price, lower, upper, p, PositionAmounts(liquidity, price, lower, upper));
    InverseOrder(p, upper);
    ScaledOrder(liquidity, 0.0, 1.0 / p - 1.0 / upper);
    ScaledOrder(liquidity, 0.0, p - lower);
  }
}
