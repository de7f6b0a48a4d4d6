/**
 Properties of whole price searches: what every handler keeps, every lookup keeps, over any cycles,
 pool states and cache contents.
 */
module PriceProperties {
  import opened Options
  import opened PriceHandlers
  import opened PriceRouter

  // ---------- Invariants of quotes ----------

  ghost predicate CacheKeeps(inv: (Address, Quote) -> bool, cache: map<Key, Quote>) {
    forall k :: k in cache ==> inv(k.token, cache[k])
  }

  ghost predicate AnswersKeep(inv: (Address, Quote) -> bool, h: Handler, t: Address, answers: seq<Quote>) {
    |answers| <= |Asks(h, t)| && forall j :: 0 <= j < |answers| ==> inv(Asks(h, t)[j].token, answers[j])
  }

  /** From answers that satisfy `inv`, handler `h` only produces a quote of `t` that satisfies it. */
  ghost predicate HandlerKeeps(inv: (Address, Quote) -> bool, tb: Table, h: Handler, t: Address) {
    forall answers ::
      AnswersKeep(inv, h, t, answers) && Verdict(tb.tokens, h, t, answers).Done? ==>
        var q := Verdict(tb.tokens, h, t, answers).quote;
        q.Some? ==> inv(t, q.value)
  }

  ghost predicate TableKeeps(inv: (Address, Quote) -> bool, tb: Table, tokens: set<Address>) {
    && (forall t :: t in tokens ==> inv(t, ZERO_RESULT))
    && (forall h, t :: h in tb.handlers && t in tokens && IsActive(h.startBlock, tb.block) && t in h.Tokens()
                       ==> HandlerKeeps(inv, tb, h, t))
  }

  lemma {:induction false} LookupKeeps(inv: (Address, Quote) -> bool, tb: Table, tokens: set<Address>, k: Key, s: Store)
    requires Closed(tb, tokens) && k in Keys(tb, tokens) && TableKeeps(inv, tb, tokens) && CacheKeeps(inv, s.cache)
    ensures inv(k.token, Lookup(tb, tokens, k, s).0) && CacheKeeps(inv, Lookup(tb, tokens, k, s).1.cache)
    decreases Keys(tb, tokens) - s.inFlight, 0
  {
    if k !in s.inFlight && k !in s.cache && !TokenInactive(tb, k.token) {
      var s1 := Store(s.cache, s.inFlight + {k}, s.derived + [k]);
      ScanKeeps(inv, tb, tokens, k, 0, s1);
      var quotes := Scan(tb, tokens, k, 0, s1).0;
      if quotes != [] {
        var i := BestIsLastGreatest(quotes);
      }
    }
  }

  lemma {:induction false} ScanKeeps(inv: (Address, Quote) -> bool, tb: Table, tokens: set<Address>, k: Key, i: nat,
                                     s: Store)
    requires Closed(tb, tokens) && k in Keys(tb, tokens) && i <= |tb.handlers|
    requires TableKeeps(inv, tb, tokens) && CacheKeeps(inv, s.cache)
    ensures CacheKeeps(inv, Scan(tb, tokens, k, i, s).1.cache)
    ensures forall q :: q in Scan(tb, tokens, k, i, s).0 ==> inv(k.token, q)
    decreases Keys(tb, tokens) - s.inFlight, 2, |tb.handlers| - i
  {
    if i < |tb.handlers| {
      if Considered(tb, tb.handlers[i], k) {
        RunKeeps(inv, tb, tokens, tb.handlers[i], k.token, [], s);
        ScanKeeps(inv, tb, tokens, k, i + 1, Run(tb, tokens, tb.handlers[i], k.token, [], s).1);
      } else {
        ScanKeeps(inv, tb, tokens, k, i + 1, s);
      }
    }
  }

  lemma {:induction false} RunKeeps(inv: (Address, Quote) -> bool, tb: Table, tokens: set<Address>, h: Handler,
                                    t: Address,
                                    answers: seq<Quote>, s: Store)
    requires Closed(tb, tokens) && h in tb.handlers && t in tokens && AnswersKeep(inv, h, t, answers)
    requires IsActive(h.startBlock, tb.block) && t in h.Tokens()
    requires TableKeeps(inv, tb, tokens) && CacheKeeps(inv, s.cache)
    ensures CacheKeeps(inv, Run(tb, tokens, h, t, answers, s).1.cache)
    ensures var q := Run(tb, tokens, h, t, answers, s).0; q.Some? ==> inv(t, q.value)
    decreases Keys(tb, tokens) - s.inFlight, 1, |Asks(h, t)| - |answers|
  {
    assert HandlerKeeps(inv, tb, h, t);
    if Verdict(tb.tokens, h, t, answers).More? {
      AsksStayInside(tb, tokens, h, t, |answers|);
      LookupKeeps(inv, tb, tokens, Asks(h, t)[|answers|], s);
      var (q, s') := Lookup(tb, tokens, Asks(h, t)[|answers|], s);
      RunKeeps(inv, tb, tokens, h, t, answers + [q], s');
    }
  }

  // ---------- No price without an anchor ----------

  /** No active handler of a token in `orphans` is a price anchor or looks anything outside `orphans` up. */
  ghost predicate NoAnchor(tb: Table, orphans: set<Address>) {
    forall h, t :: h in tb.handlers && t in orphans && IsActive(h.startBlock, tb.block) && t in h.Tokens() ==>
      && !h.kind.Stable?
      && (h.kind.Chainlink? ==> h.kind.answer == 0)
      && forall j :: 0 <= j < |Asks(h, t)| ==> Asks(h, t)[j].token in orphans
  }

  function Unpriced(orphans: set<Address>): (Address, Quote) -> bool {
    (t, q: Quote) => t in orphans ==> q.price == 0.0
  }

  lemma {:induction false} CoinsWorthNothing(coins: seq<Coin>, answers: seq<Quote>)
    requires |coins| == |answers| && forall q: Quote :: q in answers ==> q.price == 0.0
    ensures CoinValue(coins, answers) == 0.0
  {
    if coins == [] {
    } else {
      CoinsWorthNothing(coins[1..], answers[1..]);
      assert answers[0] in answers;
    }
  }

  lemma {:induction false} LegsWorthNothing(tokens: seq<TokenDef>, legs: seq<Leg>, answers: seq<Quote>)
    requires |legs| == |answers| && forall q: Quote :: q in answers ==> q.price == 0.0
    ensures LegValue(tokens, legs, answers) == 0.0
  {
    if legs == [] {
    } else {
      LegsWorthNothing(tokens, legs[1..], answers[1..]);
      assert answers[0] in answers;
    }
  }

  /** Every kind of handler but the two anchors answers `null` when all it learns is zero prices. */
  lemma UnanchoredHandlerIsSilent(tb: Table, h: Handler, t: Address, answers: seq<Quote>)
    requires |answers| <= |Asks(h, t)| && forall q: Quote :: q in answers ==> q.price == 0.0
    requires !h.kind.Stable? && (h.kind.Chainlink? ==> h.kind.answer == 0)
    requires Verdict(tb.tokens, h, t, answers).Done?
    ensures Verdict(tb.tokens, h, t, answers).quote == None
  {
    if answers == [] {
    } else {
      assert answers[0] in answers && answers[|answers| - 1] in answers;
    }
    if h.kind.Curve? && |answers| == |NonEmptyCoins(h.kind.coins)| {
      CoinsWorthNothing(NonEmptyCoins(h.kind.coins), answers);
    }
    if h.kind.FraxSwap? && |answers| == 2 {
      CoinsWorthNothing([h.kind.coin0, h.kind.coin1], answers);
    }
    if h.kind.Balancer? && h.kind.legs.Some? && |answers| == |h.kind.legs.value| {
      LegsWorthNothing(tb.tokens, h.kind.legs.value, answers);
    }
  }

  /** No price without an anchor: every lookup in an unanchored token set gives price zero. */
  lemma NoPriceWithoutAnchor(tb: Table, tokens: set<Address>, orphans: set<Address>, k: Key, s: Store)
    requires Closed(tb, tokens) && k in Keys(tb, tokens) && NoAnchor(tb, orphans)
    requires forall k' :: k' in s.cache && k'.token in orphans ==> s.cache[k'].price == 0.0
    ensures k.token in orphans ==> Lookup(tb, tokens, k, s).0.price == 0.0
    ensures var cache := Lookup(tb, tokens, k, s).1.cache;
            forall k' :: k' in cache && k'.token in orphans ==> cache[k'].price == 0.0
  {
    var inv := Unpriced(orphans);
    forall h, t | h in tb.handlers && t in tokens && IsActive(h.startBlock, tb.block) && t in h.Tokens()
      ensures HandlerKeeps(inv, tb, h, t)
    {
      if t in orphans {
        forall answers | AnswersKeep(inv, h, t, answers) && Verdict(tb.tokens, h, t, answers).Done?
          ensures Verdict(tb.tokens, h, t, answers).quote == None
        {
          forall q: Quote | q in answers ensures q.price == 0.0 {
            var j :| 0 <= j < |answers| && answers[j] == q;
            assert Asks(h, t)[j].token in orphans;
          }
          UnanchoredHandlerIsSilent(tb, h, t, answers);
        }
      }
    }
    assert CacheKeeps(inv, s.cache);
    LookupKeeps(inv, tb, tokens, k, s);
    assert CacheKeeps(inv, Lookup(tb, tokens, k, s).1.cache);
  }

  // ---------- No negative price ----------

  predicate NonNegativeState(h: Handler) {
    && (h.kind.Chainlink? ==> h.kind.answer >= 0)
    && (h.kind.Balancer? && h.kind.legs.Some? ==>
          forall i :: 0 <= i < |h.kind.legs.value| ==> h.kind.legs.value[i].balance >= 0)
  }

  function NonNegativePrice(): (Address, Quote) -> bool {
    (t, q: Quote) => q.price >= 0.0
  }

  lemma ProductNonNegative(x: real, y: real)
    requires x >= 0.0 && y >= 0.0
    ensures x * y >= 0.0
  {
  }

  lemma QuotientNonNegative(x: real, y: real)
    requires x >= 0.0 && y > 0.0
    ensures x / y >= 0.0
  {
  }

  lemma {:induction false} CoinsNonNegative(coins: seq<Coin>, answers: seq<Quote>)
    requires |coins| == |answers| && forall q: Quote :: q in answers ==> q.price >= 0.0
    ensures CoinValue(coins, answers) >= 0.0
  {
    if coins == [] {
    } else {
      CoinsNonNegative(coins[1..], answers[1..]);
      assert answers[0] in answers;
      ProductNonNegative(ToDecimal(coins[0].balance, coins[0].decimals), answers[0].price);
    }
  }

  lemma {:induction false} LegsNonNegative(tokens: seq<TokenDef>, legs: seq<Leg>, answers: seq<Quote>)
    requires |legs| == |answers| && forall q: Quote :: q in answers ==> q.price >= 0.0
    requires forall i :: 0 <= i < |legs| ==> legs[i].balance >= 0
    ensures LegValue(tokens, legs, answers) >= 0.0
  {
    if legs == [] {
    } else {
      LegsNonNegative(tokens, legs[1..], answers[1..]);
      assert answers[0] in answers;
      ProductNonNegative(ToDecimal(legs[0].balance, TokenDecimals(tokens, legs[0].token)), answers[0].price);
    }
  }

  lemma PoolShareNonNegative(value: real, supply: nat, decimals: nat)
    requires value >= 0.0
    ensures PoolShare(value, supply, decimals).Some? ==> PoolShare(value, supply, decimals).value.price >= 0.0
  {
    if value != 0.0 && supply != 0 {
      QuotientNonNegative(value, ToDecimal(supply, decimals));
    }
  }

  lemma LegQuoteNonNegative(tokens: seq<TokenDef>, weightDecimals: nat, leg: Leg, other: Leg, secondary: Quote)
    requires leg.balance >= 0 && other.balance >= 0 && secondary.price >= 0.0
    ensures var q := LegQuote(tokens, weightDecimals, leg, other, secondary); q.Some? ==> q.value.price >= 0.0
  {
    if LegQuote(tokens, weightDecimals, leg, other, secondary).Some? {
      var a := ToDecimal(leg.balance, TokenDecimals(tokens, leg.token)) / ToDecimal(leg.weight, weightDecimals);
      var b := ToDecimal(other.balance, TokenDecimals(tokens, other.token)) / ToDecimal(other.weight, weightDecimals);
      assert a * ToDecimal(leg.weight, weightDecimals) == ToDecimal(leg.balance, TokenDecimals(tokens, leg.token));
      QuotientNonNegative(ToDecimal(leg.balance, TokenDecimals(tokens, leg.token)),
                          ToDecimal(leg.weight, weightDecimals));
      QuotientNonNegative(ToDecimal(other.balance, TokenDecimals(tokens, other.token)),
                          ToDecimal(other.weight, weightDecimals));
      QuotientNonNegative(b, a);
      ProductNonNegative(b / a, secondary.price);
    }
  }

  lemma PairQuoteNonNegative(tokens: seq<TokenDef>, kind: Kind, t: Address, secondary: Quote)
    requires secondary.price >= 0.0
    requires kind.Univ2? && kind.reserves.Some?
    ensures var q := Univ2Quote(tokens, kind, t, secondary); q.Some? ==> q.value.price >= 0.0
  {
    if Univ2Quote(tokens, kind, t, secondary).Some? {
      var token0, token1 := Min(kind.a, kind.b), Max(kind.a, kind.b);
      var r0 := ToDecimal(kind.reserves.value.reserve0, TokenDecimals(tokens, token0));
      var r1 := ToDecimal(kind.reserves.value.reserve1, TokenDecimals(tokens, token1));
      QuotientNonNegative(r1, r0);
      QuotientNonNegative(r0, r1);
      ProductNonNegative(r1 / r0, secondary.price);
      ProductNonNegative(r0 / r1, secondary.price);
    }
  }

  lemma TickQuoteNonNegative(tokens: seq<TokenDef>, kind: Kind, t: Address, secondary: Quote)
    requires secondary.price >= 0.0
    requires (kind.Univ3? || kind.Kodiak?) && kind.tick.Some? && kind.tick.value.sqrtPriceX96 > 0
    ensures var q := TickQuote(tokens, kind, t, secondary); q.Some? ==> q.value.price >= 0.0
  {
    var d0, d1 := TokenDecimals(tokens, Min(kind.a, kind.b)), TokenDecimals(tokens, Max(kind.a, kind.b));
    var raw, isToken0 := RawPrice(kind.tick.value.sqrtPriceX96), t == Min(kind.a, kind.b);
    DirectionsReciprocal(raw, d0, d1);
    ProductNonNegative(Univ3Adjust(raw, d0, d1, isToken0), secondary.price);
  }

  lemma SharesNonNegative(tb: Table, h: Handler, t: Address, answers: seq<Quote>)
    requires NonNegativeState(h) && h.kind.Balancer? && t == h.kind.bpt
    requires |answers| <= |Asks(h, t)| && forall q: Quote :: q in answers ==> q.price >= 0.0
    requires Verdict(tb.tokens, h, t, answers).Done?
    ensures var q := Verdict(tb.tokens, h, t, answers).quote; q.Some? ==> q.value.price >= 0.0
  {
    var legs, supply := h.kind.legs, h.kind.bptSupply;
    if legs.Some? && |answers| == |legs.value| && supply.Some? {
      LegsNonNegative(tb.tokens, legs.value, answers);
      PoolShareNonNegative(LegValue(tb.tokens, legs.value, answers), supply.value, TokenDecimals(tb.tokens, t));
    }
  }

  lemma LegsQuoteNonNegative(tb: Table, h: Handler, t: Address, answers: seq<Quote>)
    requires NonNegativeState(h) && h.kind.Balancer? && t != h.kind.bpt
    requires |answers| <= |Asks(h, t)| && forall q: Quote :: q in answers ==> q.price >= 0.0
    requires Verdict(tb.tokens, h, t, answers).Done?
    ensures var q := Verdict(tb.tokens, h, t, answers).quote; q.Some? ==> q.value.price >= 0.0
  {
    var legs, last := h.kind.legs, |answers| - 1;
    if legs.Some? && answers != [] {
      assert answers[last] in answers;
      LegQuoteNonNegative(tb.tokens, h.kind.weightDecimals, legs.value[FindLeg(legs.value, t)],
                          OtherLegs(legs.value, t)[last], answers[last]);
    }
  }

  lemma NonNegativeHandler(tb: Table, h: Handler, t: Address, answers: seq<Quote>)
    requires NonNegativeState(h)
    requires |answers| <= |Asks(h, t)| && forall q: Quote :: q in answers ==> q.price >= 0.0
    requires Verdict(tb.tokens, h, t, answers).Done?
    ensures var q := Verdict(tb.tokens, h, t, answers).quote; q.Some? ==> q.value.price >= 0.0
  {
    if answers == [] {
    } else {
      assert answers[0] in answers && answers[|answers| - 1] in answers;
    }
    match h.kind
    case Gohm(_, _, index) =>
      if index.Some? && answers != [] { ProductNonNegative(answers[0].price, ToDecimal(index.value, 9)); }
    case Erc4626(_, _, assets, decimals) =>
      if assets.Some? && answers != [] { ProductNonNegative(answers[0].price, ToDecimal(assets.value, decimals)); }
    case Curve(_, coins, lpSupply) =>
      if |answers| == |NonEmptyCoins(coins)| {
        CoinsNonNegative(NonEmptyCoins(coins), answers);
        PoolShareNonNegative(CoinValue(NonEmptyCoins(coins), answers), lpSupply, 18);
      }
    case FraxSwap(_, coin0, coin1, lpSupply) =>
      if |answers| == 2 {
        CoinsNonNegative([coin0, coin1], answers);
        PoolShareNonNegative(CoinValue([coin0, coin1], answers), lpSupply, 18);
      }
    case Univ2(_, _, reserves) =>
      if reserves.Some? && answers != [] { PairQuoteNonNegative(tb.tokens, h.kind, t, answers[0]); }
    case Balancer(_, bpt, _, _, _) =>
      if t == bpt {
        SharesNonNegative(tb, h, t, answers);
      } else {
        LegsQuoteNonNegative(tb, h, t, answers);
      }
    case Univ3(_, _, tick) =>
      if tick.Some? && tick.value.sqrtPriceX96 > 0 && answers != [] {
        TickQuoteNonNegative(tb.tokens, h.kind, t, answers[0]);
      }
    case Kodiak(_, _, _, tick) =>
      if tick.Some? && tick.value.sqrtPriceX96 > 0 && answers != [] {
        TickQuoteNonNegative(tb.tokens, h.kind, t, answers[0]);
      }
    case _ =>
  }

  /** With nonnegative pool state and feed answers, no lookup ever gives a negative price. */
  lemma PricesNonNegative(tb: Table, tokens: set<Address>, k: Key, s: Store)
    requires Closed(tb, tokens) && k in Keys(tb, tokens)
    requires forall h :: h in tb.handlers ==> NonNegativeState(h)
    requires forall k' :: k' in s.cache ==> s.cache[k'].price >= 0.0
    ensures Lookup(tb, tokens, k, s).0.price >= 0.0
    ensures var cache := Lookup(tb, tokens, k, s).1.cache; forall k' :: k' in cache ==> cache[k'].price >= 0.0
  {
    var inv := NonNegativePrice();
    forall h, t | h in tb.handlers && t in tokens && IsActive(h.startBlock, tb.block) && t in h.Tokens()
      ensures HandlerKeeps(inv, tb, h, t)
    {
      forall answers | AnswersKeep(inv, h, t, answers) && Verdict(tb.tokens, h, t, answers).Done?
        ensures var q := Verdict(tb.tokens, h, t, answers).quote; q.Some? ==> inv(t, q.value)
      {
        NonNegativeHandler(tb, h, t, answers);
      }
    }
    assert CacheKeeps(inv, s.cache);
    LookupKeeps(inv, tb, tokens, k, s);
    assert CacheKeeps(inv, Lookup(tb, tokens, k, s).1.cache);
  }

  // ---------- Concentrated-liquidity spot prices ----------

  lemma Reciprocals(raw: real, f: real, g: real)
    requires raw > 0.0 && f > 0.0 && g > 0.0 && f * g == 1.0
    ensures g / raw == g * (1.0 / raw) > 0.0
    ensures raw * f == f * raw > 0.0
    ensures raw * f * (g / raw) == 1.0
  {
    var q := g / raw;
    assert q * raw == g;
    assert q > 0.0;
    assert (1.0 / raw) * raw == 1.0;
    assert (g * (1.0 / raw)) * raw == g;
    calc {
      raw * f * q;
      f * (q * raw);
      f * g;
    }
  }

  /**
   The Uniswap v3 and Kodiak decimal adjustments agree, are positive, and the two directions are
   reciprocal: the price of token0 in token1 times the price of token1 in token0 is one.
   */
  lemma DirectionsReciprocal(raw: real, d0: nat, d1: nat)
    requires raw > 0.0
    ensures forall b :: Univ3Adjust(raw, d0, d1, b) == KodiakAdjust(raw, d0, d1, b) > 0.0
    ensures Univ3Adjust(raw, d0, d1, true) * Univ3Adjust(raw, d0, d1, false) == 1.0
  {
    Reciprocals(raw, DecimalFactor(d0 - d1), DecimalFactor(d1 - d0));
  }
}
