/**
 What the spot quotes of the pool handlers mean (apps/indexer/src/pricing): at the quoted price the sides of
 a pool are worth what its curve says they are worth, and quoting back recovers the price that was put in.
 */
module PriceParity {
  import opened Options
  import opened PriceHandlers

  /** Rates `y / x` and `x / y`, applied one after the other. */
  lemma Rates(x: real, y: real, p: real, r: real, s: real)
    requires x != 0.0 && y != 0.0 && r == y / x && s == x / y
    ensures x * (r * p) == y * p && s * (r * p) == p
  {
    assert r * x == y && s * y == x;
    Products(x, y, p, r, s);
  }

  lemma Products(x: real, y: real, p: real, r: real, s: real)
    requires x != 0.0 && r * x == y && s * y == x
    ensures x * (r * p) == y * p && s * (r * p) == p
  {
    assert x * (r * p) == (r * x) * p;
    assert (s * r) * x == s * (r * x);
    assert s * r == 1.0;
    assert s * (r * p) == (s * r) * p;
  }

  // ---------- Constant product ----------

  /** The reserve behind a token of the pool, in whole tokens. */
  function ReserveOf(tokens: seq<TokenDef>, kind: Kind, token: Address): real
    requires kind.Univ2? && kind.reserves.Some?
  {
    if token == Min(kind.a, kind.b) then ToDecimal(kind.reserves.value.reserve0, TokenDecimals(tokens, token))
    else ToDecimal(kind.reserves.value.reserve1, TokenDecimals(tokens, token))
  }

  /**
   A quote exists exactly when the other token has a price and neither reserve is empty; at the quoted
   price both sides of the pool are worth the same, which is the liquidity used as tie-breaker.
   */
  lemma PairValueParity(tokens: seq<TokenDef>, kind: Kind, token: Address, secondary: Quote)
    requires kind.Univ2? && kind.reserves.Some? && kind.a != kind.b && (token == kind.a || token == kind.b)
    ensures var q, other := Univ2Quote(tokens, kind, token, secondary), Secondary(kind, token);
            var reserves := kind.reserves.value;
            && (q.Some? <==> secondary.price != 0.0 && reserves.reserve0 > 0 && reserves.reserve1 > 0)
            && (q.Some? ==>
                  && ReserveOf(tokens, kind, token) * q.value.price == q.value.liquidity
                  && ReserveOf(tokens, kind, other) * secondary.price == q.value.liquidity)
  {
    if Univ2Quote(tokens, kind, token, secondary).Some? {
      PairQuoteParity(tokens, kind, token, secondary);
    }
  }

  lemma PairQuoteParity(tokens: seq<TokenDef>, kind: Kind, token: Address, secondary: Quote)
    requires kind.Univ2? && kind.reserves.Some? && kind.a != kind.b && (token == kind.a || token == kind.b)
    requires Univ2Quote(tokens, kind, token, secondary).Some?
    ensures var q := Univ2Quote(tokens, kind, token, secondary).value;
            ReserveOf(tokens, kind, token) * q.price
                == ReserveOf(tokens, kind, Secondary(kind, token)) * secondary.price == q.liquidity
  {
    var r0, r1 := ReserveOf(tokens, kind, Min(kind.a, kind.b)), ReserveOf(tokens, kind, Max(kind.a, kind.b));
    if token == Min(kind.a, kind.b) {
      Rates(r0, r1, secondary.price, r1 / r0, r0 / r1);
    } else {
      Rates(r1, r0, secondary.price, r0 / r1, r1 / r0);
    }
  }

  /** Pricing one token through the pool and then the other one back returns the price put in. */
  lemma PairRoundTrip(tokens: seq<TokenDef>, kind: Kind, token: Address, secondary: Quote)
    requires kind.Univ2? && kind.reserves.Some? && kind.a != kind.b && (token == kind.a || token == kind.b)
    requires Univ2Quote(tokens, kind, token, secondary).Some?
    ensures var q := Univ2Quote(tokens, kind, token, secondary).value;
            var back := Univ2Quote(tokens, kind, Secondary(kind, token), q);
            back.Some? && back.value.price == secondary.price
  {
    var other := Secondary(kind, token);
    var x, y := ReserveOf(tokens, kind, token), ReserveOf(tokens, kind, other);
    Rates(x, y, secondary.price, y / x, x / y);
  }

  // ---------- Concentrated liquidity ----------

  /**
   `raw` units of token1 trade for one raw unit of token0. The adjusted price scales it by the number of raw
   units in a whole token0 over that in a whole token1, whichever token has more decimals.
   */
  lemma AdjustedPriceScales(raw: real, d0: nat, d1: nat) returns (f: real)
    requires raw > 0.0
    ensures f * Pow10(d1) == Pow10(d0) && Univ3Adjust(raw, d0, d1, true) == raw * f
  {
    f := DecimalFactor(d0 - d1);
    FactorRatio(d0, d1);
  }

  lemma {:induction false} FactorRatio(d0: nat, d1: nat)
    ensures DecimalFactor(d0 - d1) * Pow10(d1) == Pow10(d0)
  {
    if d0 > 0 && d1 > 0 {
      FactorRatio(d0 - 1, d1 - 1);
      TenTimes(DecimalFactor(d0 - d1), Pow10(d1 - 1));
    }
  }

  lemma TenTimes(f: real, x: real)
    ensures f * (10.0 * x) == 10.0 * (f * x)
  {
  }

  // ---------- Weighted pools ----------

  function LegReserve(tokens: seq<TokenDef>, leg: Leg): real {
    ToDecimal(leg.balance, TokenDecimals(tokens, leg.token))
  }

  /** At the quoted price each leg holds its weight's share of the pool, whose whole value is the tie-breaker. */
  lemma WeightedValueParity(tokens: seq<TokenDef>, weightDecimals: nat, leg: Leg, other: Leg, secondary: Quote)
    ensures var q := LegQuote(tokens, weightDecimals, leg, other, secondary);
            && (q.Some? <==> secondary.price != 0.0 && leg.balance != 0 && other.balance != 0)
            && (q.Some? ==>
                  && LegReserve(tokens, leg) * q.value.price
                      == ToDecimal(leg.weight, weightDecimals) * q.value.liquidity
                  && LegReserve(tokens, other) * secondary.price
                      == ToDecimal(other.weight, weightDecimals) * q.value.liquidity)
  {
    if secondary.price != 0.0 && leg.balance != 0 && other.balance != 0 {
      Weighted(LegReserve(tokens, leg), ToDecimal(leg.weight, weightDecimals), LegReserve(tokens, other),
               ToDecimal(other.weight, weightDecimals), secondary.price);
    }
  }

  lemma Weighted(x: real, w: real, y: real, v: real, p: real)
    requires x != 0.0 && w != 0.0 && v != 0.0
    ensures x / w != 0.0
    ensures x * (y / v / (x / w) * p) == w * (y * p / v)
    ensures y * p == v * (y * p / v)
  {
    var a, b, l := x / w, y / v, y * p / v;
    assert a * w == x && b * v == y && l * v == y * p;
    assert a != 0.0;
    assert l == b * p by {
      assert (b * p) * v == y * p;
    }
    var r := b / a;
    assert r * a == b;
    calc {
      x * (r * p);
      w * ((r * a) * p);
      w * (b * p);
    }
  }

  /** The weights of some legs, summed. */
  function TotalWeight(legs: seq<Leg>, weightDecimals: nat): real {
    if legs == [] then 0.0 else ToDecimal(legs[0].weight, weightDecimals) + TotalWeight(legs[1..], weightDecimals)
  }

  /** When every leg holds its weight's share of `whole`, the legs together are worth their total weight's share. */
  lemma {:induction false} LegsAreWorthTheirWeights(tokens: seq<TokenDef>, legs: seq<Leg>, weightDecimals: nat,
                                                    answers: seq<Quote>, whole: real)
    requires |legs| == |answers|
    requires forall i :: 0 <= i < |legs| ==> HoldsShare(tokens, weightDecimals, legs[i], answers[i], whole)
    ensures LegValue(tokens, legs, answers) == TotalWeight(legs, weightDecimals) * whole
  {
    if legs == [] {
    } else {
      LegsAreWorthTheirWeights(tokens, legs[1..], weightDecimals, answers[1..], whole);
      Share(ToDecimal(legs[0].weight, weightDecimals), TotalWeight(legs[1..], weightDecimals), whole);
    }
  }

  lemma Share(a: real, b: real, whole: real)
    ensures (a + b) * whole == a * whole + b * whole
  {
  }

  /** The leg's value over its weight: what the whole pool is worth, told from that leg. */
  function Depth(tokens: seq<TokenDef>, weightDecimals: nat, leg: Leg, answer: Quote): real {
    LegReserve(tokens, leg) * answer.price / ToDecimal(leg.weight, weightDecimals)
  }

  /** `quote` is the pool's own spot quote of `leg` against the leg `other`. */
  predicate QuotedAgainst(tokens: seq<TokenDef>, weightDecimals: nat, leg: Leg, quote: Quote, other: Leg,
                          answer: Quote) {
    LegQuote(tokens, weightDecimals, leg, other, answer) == Some(quote)
  }

  predicate HoldsShare(tokens: seq<TokenDef>, weightDecimals: nat, leg: Leg, answer: Quote, whole: real) {
    LegReserve(tokens, leg) * answer.price == ToDecimal(leg.weight, weightDecimals) * whole
  }

  lemma QuoteDepth(tokens: seq<TokenDef>, weightDecimals: nat, leg: Leg, quote: Quote, other: Leg, answer: Quote)
    requires QuotedAgainst(tokens, weightDecimals, leg, quote, other, answer)
    ensures quote.liquidity == Depth(tokens, weightDecimals, other, answer)
  {
  }

  lemma QuoteShares(tokens: seq<TokenDef>, weightDecimals: nat, leg: Leg, quote: Quote, other: Leg, answer: Quote)
    requires QuotedAgainst(tokens, weightDecimals, leg, quote, other, answer)
    ensures HoldsShare(tokens, weightDecimals, leg, quote, quote.liquidity)
    ensures HoldsShare(tokens, weightDecimals, other, answer, quote.liquidity)
  {
    WeightedValueParity(tokens, weightDecimals, leg, other, answer);
  }

  /**
   The quote's liquidity is the value of the whole pool: when the weights sum to one and one leg's price is
   known, all legs, the others at the pool's own quotes against that one, are together worth the liquidity
   that each of these quotes reports.
   */
  lemma LiquidityIsWholePool(tokens: seq<TokenDef>, legs: seq<Leg>, weightDecimals: nat, answers: seq<Quote>, j: nat,
                             k: nat)
    requires |legs| == |answers| && j < |legs| && k < |legs| && j != k
    requires TotalWeight(legs, weightDecimals) == 1.0
    requires forall i :: 0 <= i < |legs| && i != j ==>
      QuotedAgainst(tokens, weightDecimals, legs[i], answers[i], legs[j], answers[j])
    ensures LegValue(tokens, legs, answers) == answers[k].liquidity
  {
    var whole := answers[k].liquidity;
    QuoteDepth(tokens, weightDecimals, legs[k], answers[k], legs[j], answers[j]);
    QuoteShares(tokens, weightDecimals, legs[k], answers[k], legs[j], answers[j]);
    forall i | 0 <= i < |legs| ensures HoldsShare(tokens, weightDecimals, legs[i], answers[i], whole) {
      if i != j {
        QuoteDepth(tokens, weightDecimals, legs[i], answers[i], legs[j], answers[j]);
        QuoteShares(tokens, weightDecimals, legs[i], answers[i], legs[j], answers[j]);
      }
    }
    LegsAreWorthTheirWeights(tokens, legs, weightDecimals, answers, whole);
  }

  // ---------- Pool shares ----------

  /**
   A pool token's quote exists exactly when the pool is worth something and has shares; all shares together
   are worth the pool.
   */
  lemma SharesAreWorthThePool(value: real, supply: nat, decimals: nat)
    ensures var q := PoolShare(value, supply, decimals);
            && (q.Some? <==> value != 0.0 && supply > 0)
            && (q.Some? ==> ToDecimal(supply, decimals) * q.value.price == value == q.value.liquidity)
  {
    if value != 0.0 && supply > 0 {
      var s := ToDecimal(supply, decimals);
      assert (value / s) * s == value;
    }
  }
}
