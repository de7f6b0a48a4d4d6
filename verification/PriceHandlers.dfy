/**
 The price sources of one snapshot block (apps/indexer/src/pricing).

 A handler's `getPrice` looks other tokens up through a callback and then computes a quote. Here
 that conversation is first-order: `Asks` is the ordered list of keys the handler would look up, and
 `Verdict` says, from the answers received so far, whether it wants the next one or is done. Pool
 state, feed answers and supplies are the raw on-chain integers; prices are exact reals.
 */
module PriceHandlers {
  import opened Options

  // Addresses and pool ids, already lower-cased; the numeric order is the order of the hex strings.
  type Address = nat
  type Positive = n: nat | n > 0 witness 1

  datatype Key = Key(token: Address, pool: Option<Address>)
  datatype Quote = Quote(price: real, liquidity: real)

  const ZERO_RESULT := Quote(0.0, 0.0)
  const PRIORITY: real := 1000000000000000000000000000000.0
  const TWO_POW_192: real := 6277101735386680763835789423207666416102355444464034512896.0

  datatype Coin = Coin(token: Address, balance: nat, decimals: nat)
  datatype Reserves = Reserves(reserve0: nat, reserve1: nat)
  datatype Tick = Tick(sqrtPriceX96: nat, liquidity: nat)
  datatype Leg = Leg(token: Address, balance: int, weight: Positive)

  datatype Kind =
    | Stable(tokens: seq<Address>)
    | Chainlink(tokens: seq<Address>, answer: int, decimals: nat)
    | Remap(tokens: seq<Address>, target: Address)
    | Gohm(tokens: seq<Address>, ohmToken: Address, index: Option<nat>)
    | Erc4626(tokens: seq<Address>, underlying: Address, assetsPerShare: Option<nat>, underlyingDecimals: nat)
    | Curve(tokens: seq<Address>, coins: seq<Coin>, lpSupply: nat)
    | FraxSwap(tokens: seq<Address>, coin0: Coin, coin1: Coin, lpSupply: nat)
    | Univ2(a: Address, b: Address, reserves: Option<Reserves>)
    | Univ3(a: Address, b: Address, tick: Option<Tick>)
    | Balancer(tokens: seq<Address>, bpt: Address, legs: Option<seq<Leg>>, weightDecimals: nat, bptSupply: Option<nat>)
    | Kodiak(a: Address, b: Address, kodiakPool: Address, tick: Option<Tick>)

  datatype Handler = Handler(id: Address, startBlock: Option<nat>, kind: Kind)
  {
    function Tokens(): seq<Address> {
      if kind.Univ2? || kind.Univ3? || kind.Kodiak? then [kind.a, kind.b] else kind.tokens
    }

    function UnderlyingPool(): Address {
      if kind.Kodiak? then kind.kodiakPool else id
    }
  }

  datatype TokenDef = TokenDef(address: Address, decimals: nat, startBlock: Option<nat>)

  predicate IsActive(startBlock: Option<nat>, block: nat) {
    startBlock.None? || block >= startBlock.value
  }

  function FindToken(tokens: seq<TokenDef>, token: Address): Option<TokenDef> {
    if tokens == [] then None
    else if tokens[0].address == token then Some(tokens[0])
    else FindToken(tokens[1..], token)
  }

  function TokenDecimals(tokens: seq<TokenDef>, token: Address): nat {
    var definition := FindToken(tokens, token);
    if definition.Some? then definition.value.decimals else 18
  }

  function Pow10(n: nat): (r: real)
    ensures r >= 1.0
  {
    if n == 0 then 1.0 else 10.0 * Pow10(n - 1)
  }

  function ToDecimal(value: int, decimals: nat): (r: real)
    ensures r == 0.0 <==> value == 0
    ensures r >= 0.0 <==> value >= 0
  {
    value as real / Pow10(decimals)
  }

  function Min(a: Address, b: Address): Address { if a <= b then a else b }
  function Max(a: Address, b: Address): Address { if a <= b then b else a }

  /** The other token of a two-token pool: `token1` when the lookup is for `token0`, else `token0`. */
  function Secondary(kind: Kind, token: Address): Address
    requires kind.Univ2? || kind.Univ3? || kind.Kodiak?
  {
    var token0 := Min(kind.a, kind.b);
    if token == token0 then Max(kind.a, kind.b) else token0
  }

  function NonEmptyCoins(coins: seq<Coin>): (r: seq<Coin>) {
    if coins == [] then []
    else (if coins[0].balance == 0 then [] else [coins[0]]) + NonEmptyCoins(coins[1..])
  }

  function FindLeg(legs: seq<Leg>, token: Address): (i: nat)
    ensures i <= |legs|
    ensures i < |legs| ==> legs[i].token == token
  {
    if legs == [] then 0 else if legs[0].token == token then 0 else 1 + FindLeg(legs[1..], token)
  }

  /** The legs a Balancer spot price may be derived from: every leg but the looked-up one. */
  function OtherLegs(legs: seq<Leg>, token: Address): seq<Leg> {
    var i := FindLeg(legs, token);
    if i < |legs| then legs[..i] + legs[i + 1..] else []
  }

  function CoinKeys(coins: seq<Coin>, pool: Option<Address>): (r: seq<Key>)
    ensures |r| == |coins|
    ensures forall i :: 0 <= i < |r| ==> r[i] == Key(coins[i].token, pool)
  {
    seq(|coins|, i requires 0 <= i < |coins| => Key(coins[i].token, pool))
  }

  function LegKeys(legs: seq<Leg>, pool: Option<Address>): (r: seq<Key>)
    ensures |r| == |legs|
    ensures forall i :: 0 <= i < |r| ==> r[i] == Key(legs[i].token, pool)
  {
    seq(|legs|, i requires 0 <= i < |legs| => Key(legs[i].token, pool))
  }

  /** Every lookup the handler can make while pricing `token`, in order. */
  function Asks(h: Handler, token: Address): seq<Key> {
    match h.kind
    case Stable(_) => []
    case Chainlink(_, _, _) => []
    case Remap(_, target) => [Key(target, Some(h.id))]
    case Gohm(_, ohmToken, _) => [Key(ohmToken, Some(h.id))]
    case Erc4626(_, underlying, _, _) => [Key(underlying, Some(h.id))]
    case Curve(_, coins, _) => CoinKeys(NonEmptyCoins(coins), Some(h.id))
    case FraxSwap(_, coin0, coin1, _) => [Key(coin0.token, Some(h.id)), Key(coin1.token, Some(h.id))]
    case Univ2(_, _, _) => [Key(Secondary(h.kind, token), Some(h.id))]
    case Univ3(_, _, _) => [Key(Secondary(h.kind, token), Some(h.id))]
    case Kodiak(_, _, _, _) => [Key(Secondary(h.kind, token), Some(h.id))]
    case Balancer(_, bpt, legs, _, _) =>
      if legs.None? then []
      else if token == bpt then LegKeys(legs.value, None)
      else LegKeys(OtherLegs(legs.value, token), Some(h.id))
  }

  /** `More`: look the next key up. `Done`: `getPrice` returns, `None` being its `null`. */
  datatype Step = More | Done(quote: Option<Quote>)

  function CoinValue(coins: seq<Coin>, answers: seq<Quote>): real
    requires |coins| == |answers|
  {
    if coins == [] then 0.0
    else ToDecimal(coins[0].balance, coins[0].decimals) * answers[0].price + CoinValue(coins[1..], answers[1..])
  }

  function LegValue(tokens: seq<TokenDef>, legs: seq<Leg>, answers: seq<Quote>): real
    requires |legs| == |answers|
  {
    if legs == [] then 0.0
    else ToDecimal(legs[0].balance, TokenDecimals(tokens, legs[0].token)) * answers[0].price
         + LegValue(tokens, legs[1..], answers[1..])
  }

  function PoolShare(value: real, supply: nat, decimals: nat): Option<Quote> {
    if value == 0.0 || supply == 0 then None
    else Some(Quote(value / ToDecimal(supply, decimals), value))
  }

  function Univ2Quote(tokens: seq<TokenDef>, kind: Kind, token: Address, secondary: Quote): Option<Quote>
    requires kind.Univ2? && kind.reserves.Some?
  {
    var token0, token1 := Min(kind.a, kind.b), Max(kind.a, kind.b);
    var r0 := ToDecimal(kind.reserves.value.reserve0, TokenDecimals(tokens, token0));
    var r1 := ToDecimal(kind.reserves.value.reserve1, TokenDecimals(tokens, token1));
    if secondary.price == 0.0 || r0 == 0.0 || r1 == 0.0 then None
    else if token == token0 then Some(Quote(r1 / r0 * secondary.price, r1 * secondary.price))
    else Some(Quote(r0 / r1 * secondary.price, r0 * secondary.price))
  }

  /** `priceToken0InToken1`: token1 per token0 in raw units. */
  function RawPrice(sqrtPriceX96: nat): (r: real)
    ensures sqrtPriceX96 > 0 ==> r > 0.0
  {
    var s := sqrtPriceX96 as real;
    assert sqrtPriceX96 > 0 ==> s * s > 0.0;
    s * s / TWO_POW_192
  }

  function DecimalFactor(diff: int): (r: real)
    ensures r > 0.0
  {
    if diff < 0 then 1.0 / Pow10(-diff) else Pow10(diff)
  }

  /** `applyDecimalAdjustment` of the Uniswap v3 handler. */
  function Univ3Adjust(raw: real, decimals0: nat, decimals1: nat, lookupIsToken0: bool): real
    requires raw > 0.0
  {
    if lookupIsToken0 then raw * DecimalFactor(decimals0 - decimals1)
    else DecimalFactor(decimals1 - decimals0) / raw
  }

  /** `applyDecimalAdjustment` of the Kodiak handler. */
  function KodiakAdjust(raw: real, decimals0: nat, decimals1: nat, lookupIsToken0: bool): real
    requires raw > 0.0
  {
    if lookupIsToken0 then DecimalFactor(decimals0 - decimals1) * raw
    else DecimalFactor(decimals1 - decimals0) * (1.0 / raw)
  }

  function TickQuote(tokens: seq<TokenDef>, kind: Kind, token: Address, secondary: Quote): Option<Quote>
    requires (kind.Univ3? || kind.Kodiak?) && kind.tick.Some? && kind.tick.value.sqrtPriceX96 > 0
  {
    var token0, token1 := Min(kind.a, kind.b), Max(kind.a, kind.b);
    var d0, d1 := TokenDecimals(tokens, token0), TokenDecimals(tokens, token1);
    var raw := RawPrice(kind.tick.value.sqrtPriceX96);
    var adjusted := if kind.Univ3? then Univ3Adjust(raw, d0, d1, token == token0)
                    else KodiakAdjust(raw, d0, d1, token == token0);
    if secondary.price == 0.0 then None
    else Some(Quote(adjusted * secondary.price, kind.tick.value.liquidity as real))
  }

  /** The Balancer spot price of `leg` against one priced `other` leg, or `None` when the leg is skipped. */
  function LegQuote(tokens: seq<TokenDef>, weightDecimals: nat, leg: Leg, other: Leg, secondary: Quote): Option<Quote>
  {
    var lookupReserve := ToDecimal(leg.balance, TokenDecimals(tokens, leg.token));
    var otherReserve := ToDecimal(other.balance, TokenDecimals(tokens, other.token));
    if secondary.price == 0.0 || lookupReserve == 0.0 || otherReserve == 0.0 then None
    else
      var lookupWeight, otherWeight := ToDecimal(leg.weight, weightDecimals), ToDecimal(other.weight, weightDecimals);
      assert lookupReserve / lookupWeight != 0.0 by {
        assert (lookupReserve / lookupWeight) * lookupWeight == lookupReserve;
      }
      Some(Quote(otherReserve / otherWeight / (lookupReserve / lookupWeight) * secondary.price,
                 otherReserve * secondary.price / otherWeight))
  }

  /** The spot price from the answer to the `j`-th lookup of a Balancer handler. */
  function SpotQuote(tokens: seq<TokenDef>, h: Handler, token: Address, j: nat, answer: Quote): Option<Quote>
    requires h.kind.Balancer? && h.kind.legs.Some? && j < |OtherLegs(h.kind.legs.value, token)|
  {
    var legs := h.kind.legs.value;
    LegQuote(tokens, h.kind.weightDecimals, legs[FindLeg(legs, token)], OtherLegs(legs, token)[j], answer)
  }

  function BalancerVerdict(tokens: seq<TokenDef>, h: Handler, token: Address, answers: seq<Quote>): Step
    requires h.kind.Balancer? && |answers| <= |Asks(h, token)|
  {
    if h.kind.legs.None? then Done(None)
    else
      var legs := h.kind.legs.value;
      if token == h.kind.bpt then
        if |answers| < |legs| then More
        else if h.kind.bptSupply.None? then Done(None)
        else Done(PoolShare(LegValue(tokens, legs, answers), h.kind.bptSupply.value, TokenDecimals(tokens, token)))
      else
        var others := OtherLegs(legs, token);
        if answers != [] && SpotQuote(tokens, h, token, |answers| - 1, answers[|answers| - 1]).Some?
        then Done(SpotQuote(tokens, h, token, |answers| - 1, answers[|answers| - 1]))
        else if |answers| < |others| then More
        else Done(None)
  }

  /** What the handler does once `answers` have come back for the first keys of `Asks`. */
  function Verdict(tokens: seq<TokenDef>, h: Handler, token: Address, answers: seq<Quote>): (r: Step)
    requires |answers| <= |Asks(h, token)|
    ensures r.More? ==> |answers| < |Asks(h, token)|
  {
    match h.kind
    case Stable(_) => Done(Some(Quote(1.0, 0.0)))
    case Chainlink(_, answer, decimals) =>
      if answer == 0 then Done(None) else Done(Some(Quote(ToDecimal(answer, decimals), PRIORITY)))
    case Remap(_, _) =>
      if answers == [] then More
      else if answers[0].price == 0.0 then Done(None) else Done(Some(answers[0]))
    case Gohm(_, _, index) =>
      if index.None? || index.value == 0 then Done(None)
      else if answers == [] then More
      else if answers[0].price == 0.0 then Done(None)
      else Done(Some(Quote(answers[0].price * ToDecimal(index.value, 9), PRIORITY)))
    case Erc4626(_, _, assets, decimals) =>
      if assets.None? then Done(None)
      else if answers == [] then More
      else if answers[0].price == 0.0 then Done(None)
      else Done(Some(Quote(answers[0].price * ToDecimal(assets.value, decimals), PRIORITY)))
    case Curve(_, coins, lpSupply) =>
      if lpSupply == 0 then Done(None)
      else if |answers| < |NonEmptyCoins(coins)| then More
      else Done(PoolShare(CoinValue(NonEmptyCoins(coins), answers), lpSupply, 18))
    case FraxSwap(_, coin0, coin1, lpSupply) =>
      if lpSupply == 0 then Done(None)
      else if |answers| < 2 then More
      else Done(PoolShare(CoinValue([coin0, coin1], answers), lpSupply, 18))
    case Univ2(_, _, reserves) =>
      if reserves.None? then Done(None)
      else if answers == [] then More
      else Done(Univ2Quote(tokens, h.kind, token, answers[0]))
    case Balancer(_, _, _, _, _) => BalancerVerdict(tokens, h, token, answers)
    case _ =>
      if h.kind.tick.None? || h.kind.tick.value.sqrtPriceX96 == 0 then Done(None)
      else if answers == [] then More
      else Done(TickQuote(tokens, h.kind, token, answers[0]))
  }
}
