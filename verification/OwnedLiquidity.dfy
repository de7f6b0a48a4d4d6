/**
 Attribution of protocol-owned liquidity to wallets: the value rows of `pushOwnedLiquidityRecords` and
 the OHM rows of `pushOwnedLiquiditySupply` (apps/indexer/src/handlers/BlockHandlers.ts) over
 constant-product pools (apps/indexer/src/pricing/univ2.ts).
 */
module OwnedLiquidity {
  import opened Options

  type Address = nat

  datatype Leg = Leg(token: Address, reserve: real, price: real)

  /** `supply` is the total supply of the LP token, `balanceOf` what a wallet holds of it. */
  datatype Pool = Pool(active: bool, legs: seq<Leg>, supply: real, isLiability: bool, balanceOf: Address -> real)

  datatype Record = Record(wallet: Address, value: real, valueExcludingOhm: real)
  datatype Supply = Supply(wallet: Address, ohm: real)

  // ---------- What the rows must add up to ----------

  /** The value of some legs, excluded tokens left out. */
  function ValueOf(legs: seq<Leg>, excluded: set<Address>): real {
    if legs == [] then 0.0
    else
      var last := legs[|legs| - 1];
      ValueOf(legs[..|legs| - 1], excluded) + if last.token in excluded then 0.0 else last.reserve * last.price
  }

  /** What the wallets hold of the pool's LP token. */
  function Held(pool: Pool, wallets: seq<Address>): real {
    if wallets == [] then 0.0 else Held(pool, wallets[..|wallets| - 1]) + pool.balanceOf(wallets[|wallets| - 1])
  }

  function Signed(isLiability: bool, x: real): real {
    if isLiability then x * -1.0 else x
  }

  /** The part in something of the pool's that a holding stands for. */
  function PartAt(pool: Pool, held: real, whole: real): real {
    if pool.supply == 0.0 then 0.0 else whole * held / pool.supply
  }

  function Part(pool: Pool, wallets: seq<Address>, whole: real): real {
    PartAt(pool, Held(pool, wallets), whole)
  }

  /** What is recorded of some of the pool's value; a worthless pool is skipped. */
  function Recorded(pool: Pool, held: real, total: real, some: real): real {
    if !pool.active || total == 0.0 then 0.0 else Signed(pool.isLiability, PartAt(pool, held, some))
  }

  /** The wallets' part of the pool's value without the excluded tokens. */
  function ValuePart(pool: Pool, wallets: seq<Address>, excluded: set<Address>): real {
    Recorded(pool, Held(pool, wallets), ValueOf(pool.legs, {}), ValueOf(pool.legs, excluded))
  }

  function ValueParts(pools: seq<Pool>, wallets: seq<Address>, excluded: set<Address>): real {
    if pools == [] then 0.0
    else ValueParts(pools[..|pools| - 1], wallets, excluded) + ValuePart(pools[|pools| - 1], wallets, excluded)
  }

  /** The pool's reserve of a token, zero when it holds none. */
  function ReserveOf(legs: seq<Leg>, token: Address): real {
    if legs == [] then 0.0
    else
      var last := legs[|legs| - 1];
      if last.token == token then last.reserve else ReserveOf(legs[..|legs| - 1], token)
  }

  function Counted(pool: Pool, held: real, reserve: real): real {
    if !pool.active then 0.0 else PartAt(pool, held, reserve)
  }

  /** The wallets' part of the pool's OHM. */
  function OhmPart(pool: Pool, wallets: seq<Address>, ohm: Address): real {
    Counted(pool, Held(pool, wallets), ReserveOf(pool.legs, ohm))
  }

  function OhmParts(pools: seq<Pool>, wallets: seq<Address>, ohm: Address): real {
    if pools == [] then 0.0
    else OhmParts(pools[..|pools| - 1], wallets, ohm) + OhmPart(pools[|pools| - 1], wallets, ohm)
  }

  function SumValue(records: seq<Record>): real {
    if records == [] then 0.0 else SumValue(records[..|records| - 1]) + records[|records| - 1].value
  }

  function SumExcludingOhm(records: seq<Record>): real {
    if records == [] then 0.0 else SumExcludingOhm(records[..|records| - 1]) + records[|records| - 1].valueExcludingOhm
  }

  function SumOhm(supplies: seq<Supply>): real {
    if supplies == [] then 0.0 else SumOhm(supplies[..|supplies| - 1]) + supplies[|supplies| - 1].ohm
  }

  // ---------- Linear sums ----------

  /** Every wallet's balance put through `f`, summed. */
  function HeldThrough(pool: Pool, wallets: seq<Address>, f: real -> real): real {
    if wallets == [] then 0.0
    else HeldThrough(pool, wallets[..|wallets| - 1], f) + f(pool.balanceOf(wallets[|wallets| - 1]))
  }

  ghost predicate Linear(f: real -> real, rate: real) {
    forall x :: f(x) == x * rate
  }

  lemma Distributed(x: real, y: real, rate: real)
    ensures (x + y) * rate == x * rate + y * rate
  {
  }

  lemma {:induction false} LinearThrough(pool: Pool, wallets: seq<Address>, f: real -> real, rate: real)
    requires Linear(f, rate)
    ensures HeldThrough(pool, wallets, f) == Held(pool, wallets) * rate
  {
    if wallets == [] {
    } else {
      var k := |wallets| - 1;
      LinearThrough(pool, wallets[..k], f, rate);
      Distributed(Held(pool, wallets[..k]), pool.balanceOf(wallets[k]), rate);
    }
  }

  /** A record's value, from the wallet's balance. */
  function RecordValue(isLiability: bool, unitRate: real, balance: real): real {
    Signed(isLiability, balance * unitRate)
  }

  /** A record's value without OHM. */
  function RecordExcluding(isLiability: bool, unitRate: real, multiplier: real, balance: real): real {
    Signed(isLiability, balance * unitRate * multiplier)
  }

  /** A supply row's OHM. */
  function RowOhm(reserve: real, supply: real, multiplier: real, balance: real): real
    requires supply != 0.0
  {
    reserve * balance / supply * multiplier
  }

  function ValueAt(isLiability: bool, unitRate: real): real -> real {
    balance => RecordValue(isLiability, unitRate, balance)
  }

  function ExcludingAt(isLiability: bool, unitRate: real, multiplier: real): real -> real {
    balance => RecordExcluding(isLiability, unitRate, multiplier, balance)
  }

  function OhmAt(reserve: real, supply: real, multiplier: real): real -> real
    requires supply != 0.0
  {
    balance => RowOhm(reserve, supply, multiplier, balance)
  }

  lemma ValueAtLinear(isLiability: bool, unitRate: real)
    ensures Linear(ValueAt(isLiability, unitRate), Signed(isLiability, unitRate))
  {
    forall x ensures ValueAt(isLiability, unitRate)(x) == x * Signed(isLiability, unitRate) {
      assert ValueAt(isLiability, unitRate)(x) == RecordValue(isLiability, unitRate, x);
      SignedProduct(isLiability, x, unitRate);
    }
  }

  lemma ExcludingAtLinear(isLiability: bool, unitRate: real, multiplier: real)
    ensures Linear(ExcludingAt(isLiability, unitRate, multiplier), Signed(isLiability, unitRate * multiplier))
  {
    forall x ensures ExcludingAt(isLiability, unitRate, multiplier)(x)
        == x * Signed(isLiability, unitRate * multiplier) {
      assert ExcludingAt(isLiability, unitRate, multiplier)(x) == RecordExcluding(isLiability, unitRate, multiplier, x);
      SignedProduct(isLiability, x, unitRate * multiplier);
      assert x * unitRate * multiplier == x * (unitRate * multiplier);
    }
  }

  lemma SignedProduct(isLiability: bool, x: real, y: real)
    ensures x * Signed(isLiability, y) == Signed(isLiability, x * y)
  {
  }

  lemma OhmAtLinear(reserve: real, supply: real, multiplier: real)
    requires supply != 0.0
    ensures Linear(OhmAt(reserve, supply, multiplier), reserve / supply * multiplier)
  {
    forall x ensures OhmAt(reserve, supply, multiplier)(x) == x * (reserve / supply * multiplier) {
      assert OhmAt(reserve, supply, multiplier)(x) == RowOhm(reserve, supply, multiplier, x);
      Regrouped(reserve, x, supply, multiplier);
    }
  }

  lemma Regrouped(reserve: real, x: real, supply: real, multiplier: real)
    requires supply != 0.0
    ensures reserve * x / supply * multiplier == x * (reserve / supply * multiplier)
  {
    Quotient(reserve, x, supply);
    assert x * (reserve / supply) * multiplier == x * (reserve / supply * multiplier);
  }

  lemma Quotient(reserve: real, x: real, supply: real)
    requires supply != 0.0
    ensures reserve * x / supply == x * (reserve / supply)
  {
    var rate := reserve / supply;
    assert rate * supply == reserve;
    assert reserve * x == (x * rate) * supply;
  }

  // ---------- The push functions ----------

  /** `getTotalValue`. */
  method GetTotalValue(legs: seq<Leg>, excluded: set<Address>) returns (total: real)
    ensures total == ValueOf(legs, excluded)
  {
    total := 0.0;
    for n := 0 to |legs|
      invariant total == ValueOf(legs[..n], excluded)
    {
      assert legs[..n + 1][..n] == legs[..n];
      if legs[n].token in excluded {
        continue;
      }
      total := total + legs[n].reserve * legs[n].price;
    }
    assert legs[..|legs|] == legs;
  }

  /** `pushOwnedLiquidityRecords`: the rows add up to the wallets' parts of all pools, with and without OHM. */
  method PushOwnedLiquidityRecords(pools: seq<Pool>, wallets: seq<Address>, ohm: Address) returns (records: seq<Record>)
    ensures SumValue(records) == ValueParts(pools, wallets, {})
            && SumExcludingOhm(records) == ValueParts(pools, wallets, {ohm})
    ensures forall r :: r in records ==> r.wallet in wallets
  {
    records := [];
    for n := 0 to |pools|
      invariant SumValue(records) == ValueParts(pools[..n], wallets, {})
      invariant SumExcludingOhm(records) == ValueParts(pools[..n], wallets, {ohm})
      invariant forall r :: r in records ==> r.wallet in wallets
    {
      assert pools[..n + 1][..n] == pools[..n];
      records := PushPoolRecords(records, pools[n], wallets, ohm);
    }
    assert pools[..|pools|] == pools;
  }

  /** The body of the loop over the pools. */
  method PushPoolRecords(before: seq<Record>, pool: Pool, wallets: seq<Address>,
                         ohm: Address)
    returns (records: seq<Record>)
    ensures SumValue(records) == SumValue(before) + ValuePart(pool, wallets, {})
    ensures SumExcludingOhm(records) == SumExcludingOhm(before) + ValuePart(pool, wallets, {ohm})
    ensures forall r :: r in records ==> r in before || r.wallet in wallets
  {
    records := before;
    if !pool.active {
      return;
    }
    var total := GetTotalValue(pool.legs, {});
    if total == 0.0 {
      return;
    }
    var included := GetTotalValue(pool.legs, {ohm});
    if pool.supply == 0.0 {
      return;
    }
    records := PushWalletRecords(before, pool, wallets, total / pool.supply, included / total);
    ValueThrough(pool, wallets, total, included);
  }

  /** The loop over the wallets. */
  method PushWalletRecords(before: seq<Record>, pool: Pool, wallets: seq<Address>, unitRate: real, multiplier: real)
    returns (records: seq<Record>)
    ensures SumValue(records) == SumValue(before) + HeldThrough(pool, wallets, ValueAt(pool.isLiability, unitRate))
    ensures SumExcludingOhm(records)
            == SumExcludingOhm(before) + HeldThrough(pool, wallets, ExcludingAt(pool.isLiability, unitRate, multiplier))
    ensures forall r :: r in records ==> r in before || r.wallet in wallets
  {
    records := before;
    for n := 0 to |wallets|
      invariant SumValue(records) == SumValue(before)
                + HeldThrough(pool, wallets[..n], ValueAt(pool.isLiability, unitRate))
      invariant SumExcludingOhm(records)
                == SumExcludingOhm(before)
                    + HeldThrough(pool, wallets[..n], ExcludingAt(pool.isLiability, unitRate, multiplier))
      invariant forall r :: r in records ==> r in before || r.wallet in wallets
    {
      var balance := pool.balanceOf(wallets[n]);
      assert wallets[..n + 1][..n] == wallets[..n];
      NoBalance(pool.isLiability, unitRate, multiplier);
      if balance == 0.0 {
        continue;
      }
      var record := Record(wallets[n], RecordValue(pool.isLiability, unitRate, balance),
                           RecordExcluding(pool.isLiability, unitRate, multiplier, balance));
      assert (records + [record])[..|records|] == records;
      records := records + [record];
    }
    assert wallets[..|wallets|] == wallets;
  }

  lemma NoBalance(isLiability: bool, unitRate: real, multiplier: real)
    ensures ValueAt(isLiability, unitRate)(0.0) == 0.0 && ExcludingAt(isLiability, unitRate, multiplier)(0.0) == 0.0
  {
    assert ValueAt(isLiability, unitRate)(0.0) == RecordValue(isLiability, unitRate, 0.0);
    assert ExcludingAt(isLiability, unitRate, multiplier)(0.0)
        == RecordExcluding(isLiability, unitRate, multiplier, 0.0);
  }

  lemma ValueThrough(pool: Pool, wallets: seq<Address>, total: real, included: real)
    requires total != 0.0 && pool.supply != 0.0
    ensures HeldThrough(pool, wallets, ValueAt(pool.isLiability, total / pool.supply))
            == Signed(pool.isLiability, Part(pool, wallets, total))
    ensures HeldThrough(pool, wallets, ExcludingAt(pool.isLiability, total / pool.supply, included / total))
            == Signed(pool.isLiability, Part(pool, wallets, included))
  {
    var u, m := total / pool.supply, included / total;
    PartsProportional(pool, wallets, total, included, u, m);
    ThroughValue(pool, wallets, u, Part(pool, wallets, total));
    ThroughExcluding(pool, wallets, u, m, Part(pool, wallets, included));
  }

  lemma PartsProportional(pool: Pool, wallets: seq<Address>, total: real, included: real, u: real, m: real)
    requires total != 0.0 && pool.supply != 0.0 && u == total / pool.supply && m == included / total
    ensures Part(pool, wallets, total) == Held(pool, wallets) * u
    ensures Part(pool, wallets, included) == Held(pool, wallets) * (u * m)
  {
    Proportions(Held(pool, wallets), total, included, pool.supply, u, m);
  }

  lemma ThroughValue(pool: Pool, wallets: seq<Address>, u: real, part: real)
    requires part == Held(pool, wallets) * u
    ensures HeldThrough(pool, wallets, ValueAt(pool.isLiability, u)) == Signed(pool.isLiability, part)
  {
    ValueAtLinear(pool.isLiability, u);
    LinearThrough(pool, wallets, ValueAt(pool.isLiability, u), Signed(pool.isLiability, u));
    SignedProduct(pool.isLiability, Held(pool, wallets), u);
  }

  lemma ThroughExcluding(pool: Pool, wallets: seq<Address>, u: real, m: real, part: real)
    requires part == Held(pool, wallets) * (u * m)
    ensures HeldThrough(pool, wallets, ExcludingAt(pool.isLiability, u, m)) == Signed(pool.isLiability, part)
  {
    ExcludingAtLinear(pool.isLiability, u, m);
    LinearThrough(pool, wallets, ExcludingAt(pool.isLiability, u, m), Signed(pool.isLiability, u * m));
    SignedProduct(pool.isLiability, Held(pool, wallets), u * m);
  }

  lemma Proportions(s: real, total: real, included: real, supply: real, u: real, m: real)
    requires total != 0.0 && supply != 0.0 && u == total / supply && m == included / total
    ensures s * u == total * s / supply && s * (u * m) == included * s / supply
  {
    Quotient(total, s, supply);
    Quotient(included, s, supply);
    assert m * total == included && u * supply == total;
    assert (u * m) * supply == m * (u * supply);
    assert u * m == included / supply;
  }

  /**
   `pushOwnedLiquiditySupply`: the rows add up to the wallets' parts of all pools' OHM, times the multiplier
   that turns it into OHM where the chain's token is gOHM.
   */
  method PushOwnedLiquiditySupply(pools: seq<Pool>, wallets: seq<Address>, ohm: Address, multiplier: Option<real>)
    returns (supplies: seq<Supply>)
    ensures if multiplier.None? then supplies == []
            else SumOhm(supplies) == OhmParts(pools, wallets, ohm) * multiplier.value
  {
    supplies := [];
    if multiplier.None? {
      return;
    }
    for n := 0 to |pools|
      invariant SumOhm(supplies) == ScaledOhmParts(pools[..n], wallets, ohm, multiplier.value)
    {
      assert pools[..n + 1][..n] == pools[..n];
      supplies := PushPoolSupplies(supplies, pools[n], wallets, ohm, multiplier.value);
    }
    assert pools[..|pools|] == pools;
    ScaledTogether(pools, wallets, ohm, multiplier.value);
  }

  function ScaledOhmParts(pools: seq<Pool>, wallets: seq<Address>, ohm: Address, multiplier: real): real {
    if pools == [] then 0.0
    else
      ScaledOhmParts(pools[..|pools| - 1], wallets, ohm, multiplier)
          + ScaledOhmPart(pools[|pools| - 1], wallets, ohm, multiplier)
  }

  function ScaledOhmPart(pool: Pool, wallets: seq<Address>, ohm: Address, multiplier: real): real {
    OhmPart(pool, wallets, ohm) * multiplier
  }

  lemma {:induction false} ScaledTogether(pools: seq<Pool>, wallets: seq<Address>, ohm: Address, multiplier: real)
    ensures ScaledOhmParts(pools, wallets, ohm, multiplier) == OhmParts(pools, wallets, ohm) * multiplier
  {
    if pools == [] {
    } else {
      var k := |pools| - 1;
      ScaledTogether(pools[..k], wallets, ohm, multiplier);
      Distributed(OhmParts(pools[..k], wallets, ohm), OhmPart(pools[k], wallets, ohm), multiplier);
    }
  }

  /** The body of the loop over the pools. */
  method PushPoolSupplies(before: seq<Supply>, pool: Pool, wallets: seq<Address>, ohm: Address, multiplier: real)
    returns (supplies: seq<Supply>)
    ensures SumOhm(supplies) == SumOhm(before) + ScaledOhmPart(pool, wallets, ohm, multiplier)
  {
    supplies := before;
    if !pool.active || pool.supply == 0.0 {
      return;
    }
    var matches := Matches(pool.legs, ohm);
    if !matches {
      return;
    }
    var reserve := ReserveOf(pool.legs, ohm);
    supplies := PushWalletSupplies(before, pool, wallets, reserve, multiplier);
    OhmThrough(pool, wallets, reserve, multiplier);
  }

  /** Whether the pool trades a token; otherwise it has no reserve of it. */
  method Matches(legs: seq<Leg>, token: Address) returns (found: bool)
    ensures found <==> exists leg :: leg in legs && leg.token == token
    ensures !found ==> ReserveOf(legs, token) == 0.0
  {
    for n := 0 to |legs|
      invariant forall leg :: leg in legs[..n] ==> leg.token != token
      invariant ReserveOf(legs[..n], token) == 0.0
    {
      assert legs[..n + 1][..n] == legs[..n];
      if legs[n].token == token {
        return true;
      }
    }
    assert legs[..|legs|] == legs;
    return false;
  }

  /** The loop over the wallets. */
  method PushWalletSupplies(before: seq<Supply>, pool: Pool, wallets: seq<Address>, reserve: real, multiplier: real)
    returns (supplies: seq<Supply>)
    requires pool.supply != 0.0
    ensures SumOhm(supplies) == SumOhm(before) + HeldThrough(pool, wallets, OhmAt(reserve, pool.supply, multiplier))
  {
    supplies := before;
    for n := 0 to |wallets|
      invariant SumOhm(supplies) == SumOhm(before)
                + HeldThrough(pool, wallets[..n], OhmAt(reserve, pool.supply, multiplier))
    {
      assert wallets[..n + 1][..n] == wallets[..n];
      supplies := PushWalletSupply(supplies, pool, wallets[n], reserve, multiplier);
    }
    assert wallets[..|wallets|] == wallets;
  }

  /** The body of the loop over the wallets. */
  method PushWalletSupply(before: seq<Supply>, pool: Pool, wallet: Address, reserve: real, multiplier: real)
    returns (supplies: seq<Supply>)
    requires pool.supply != 0.0
    ensures SumOhm(supplies) == SumOhm(before) + OhmAt(reserve, pool.supply, multiplier)(pool.balanceOf(wallet))
  {
    supplies := before;
    var rawBalance := reserve * pool.balanceOf(wallet) / pool.supply;
    if rawBalance == 0.0 {
      return;
    }
    var balance := rawBalance * multiplier;
    if balance == 0.0 {
      return;
    }
    assert (supplies + [Supply(wallet, balance)])[..|supplies|] == supplies;
    supplies := supplies + [Supply(wallet, balance)];
  }

  lemma OhmThrough(pool: Pool, wallets: seq<Address>, reserve: real, multiplier: real)
    requires pool.supply != 0.0
    ensures HeldThrough(pool, wallets, OhmAt(reserve, pool.supply, multiplier))
            == Part(pool, wallets, reserve) * multiplier
  {
    PartRegrouped(pool, wallets, reserve, multiplier, reserve / pool.supply * multiplier);
    OhmAtLinear(reserve, pool.supply, multiplier);
    LinearThrough(pool, wallets, OhmAt(reserve, pool.supply, multiplier), reserve / pool.supply * multiplier);
  }

  lemma PartRegrouped(pool: Pool, wallets: seq<Address>, reserve: real, multiplier: real, rate: real)
    requires pool.supply != 0.0 && rate == reserve / pool.supply * multiplier
    ensures Held(pool, wallets) * rate == Part(pool, wallets, reserve) * multiplier
  {
    Regrouped(reserve, Held(pool, wallets), pool.supply, multiplier);
  }

  // ---------- Conservation ----------

  ghost predicate DistinctTokens(legs: seq<Leg>) {
    forall i, j :: 0 <= i < j < |legs| ==> legs[i].token != legs[j].token
  }

  function PriceOf(legs: seq<Leg>, token: Address): real {
    if legs == [] then 0.0
    else
      var last := legs[|legs| - 1];
      if last.token == token then last.price else PriceOf(legs[..|legs| - 1], token)
  }

  function AtPrice(amount: real, price: real): real {
    amount * price
  }

  function OhmValue(legs: seq<Leg>, ohm: Address): real {
    AtPrice(ReserveOf(legs, ohm), PriceOf(legs, ohm))
  }

  /** The wallets' OHM of a pool, at the price its pool was valued with. */
  function OhmWorth(pool: Pool, wallets: seq<Address>, ohm: Address): real {
    Signed(pool.isLiability, AtPrice(OhmPart(pool, wallets, ohm), PriceOf(pool.legs, ohm)))
  }

  /** The pool's whole value is its value without OHM plus its OHM reserve at the OHM price. */
  lemma {:induction false} OhmLegSplits(legs: seq<Leg>, ohm: Address)
    requires DistinctTokens(legs)
    ensures ValueOf(legs, {}) == ValueOf(legs, {ohm}) + OhmValue(legs, ohm)
  {
    if legs == [] {
    } else {
      var k := |legs| - 1;
      if legs[k].token == ohm {
        WithoutOhm(legs[..k], ohm);
      } else {
        OhmLegSplits(legs[..k], ohm);
      }
    }
  }

  lemma {:induction false} WithoutOhm(legs: seq<Leg>, ohm: Address)
    requires forall i :: 0 <= i < |legs| ==> legs[i].token != ohm
    ensures ValueOf(legs, {}) == ValueOf(legs, {ohm}) && ReserveOf(legs, ohm) == 0.0
  {
    if legs == [] {
    } else {
      WithoutOhm(legs[..|legs| - 1], ohm);
    }
  }

  /** Of one pool: what is recorded is what is recorded without OHM plus the wallets' OHM at its price. */
  lemma PoolConserves(pool: Pool, wallets: seq<Address>, ohm: Address)
    requires DistinctTokens(pool.legs) && forall leg :: leg in pool.legs ==> leg.reserve * leg.price >= 0.0
    ensures ValuePart(pool, wallets, {})
            == ValuePart(pool, wallets, {ohm}) + OhmWorth(pool, wallets, ohm)
  {
    OhmLegSplits(pool.legs, ohm);
    ValueNonNegative(pool.legs, {ohm});
    OhmValueNonNegative(pool.legs, ohm);
    ConservesAt(pool, Held(pool, wallets), ValueOf(pool.legs, {}), ValueOf(pool.legs, {ohm}), ReserveOf(pool.legs, ohm),
                PriceOf(pool.legs, ohm));
  }

  lemma ConservesAt(pool: Pool, held: real, total: real, included: real, reserve: real, price: real)
    requires total == included + AtPrice(reserve, price) && included >= 0.0 && AtPrice(reserve, price) >= 0.0
    ensures Recorded(pool, held, total, total)
            == Recorded(pool, held, total, included)
                + Signed(pool.isLiability, AtPrice(Counted(pool, held, reserve), price))
  {
    if pool.active && pool.supply != 0.0 {
      PartsAdd(held, pool.supply, total, included, reserve, price, PartAt(pool, held, total),
          PartAt(pool, held, included),
               PartAt(pool, held, reserve));
    }
  }

  lemma {:induction false} ValueNonNegative(legs: seq<Leg>, excluded: set<Address>)
    requires forall leg :: leg in legs ==> leg.reserve * leg.price >= 0.0
    ensures ValueOf(legs, excluded) >= 0.0
  {
    if legs == [] {
    } else {
      assert legs[|legs| - 1] in legs;
      ValueNonNegative(legs[..|legs| - 1], excluded);
    }
  }

  lemma {:induction false} OhmValueNonNegative(legs: seq<Leg>, ohm: Address)
    requires forall leg :: leg in legs ==> leg.reserve * leg.price >= 0.0
    ensures OhmValue(legs, ohm) >= 0.0
  {
    if legs == [] {
    } else {
      assert legs[|legs| - 1] in legs;
      OhmValueNonNegative(legs[..|legs| - 1], ohm);
    }
  }

  lemma PartsAdd(s: real, supply: real, total: real, included: real, reserve: real, price: real,
                 totalPart: real, includedPart: real, ohmPart: real)
    requires supply != 0.0 && total == included + reserve * price
    requires totalPart == total * s / supply && includedPart == included * s / supply && ohmPart == reserve * s / supply
    ensures totalPart == includedPart + ohmPart * price && (reserve * price == 0.0 ==> ohmPart * price == 0.0)
  {
    var share := s / supply;
    Shares(s, supply, total, share);
    Shares(s, supply, included, share);
    Shares(s, supply, reserve, share);
    SharesAdd(included, reserve, price, share);
  }

  lemma Shares(s: real, supply: real, x: real, share: real)
    requires supply != 0.0 && share == s / supply
    ensures x * s / supply == x * share
  {
    Quotient(s, x, supply);
    assert x * s == s * x;
  }

  lemma SharesAdd(included: real, reserve: real, price: real, share: real)
    ensures (included + reserve * price) * share == included * share + reserve * share * price
    ensures reserve * price == 0.0 ==> reserve * share * price == 0.0
  {
    assert reserve * share * price == (reserve * price) * share;
  }

  function OhmValues(pools: seq<Pool>, wallets: seq<Address>, ohm: Address): real {
    if pools == [] then 0.0
    else OhmValues(pools[..|pools| - 1], wallets, ohm) + OhmWorth(pools[|pools| - 1], wallets, ohm)
  }

  /**
   Attribution conserves: over any pools and wallets, the record values that are pushed sum to the values
   without OHM plus the OHM that is pushed, at its price.
   */
  lemma {:induction false} AttributionConserves(pools: seq<Pool>, wallets: seq<Address>, ohm: Address)
    requires forall pool :: pool in pools ==> DistinctTokens(pool.legs)
    requires forall pool, leg :: pool in pools && leg in pool.legs ==> leg.reserve * leg.price >= 0.0
    ensures ValueParts(pools, wallets, {}) == ValueParts(pools, wallets, {ohm}) + OhmValues(pools, wallets, ohm)
  {
    if pools == [] {
    } else {
      var k := |pools| - 1;
      assert pools[k] in pools && forall pool :: pool in pools[..k] ==> pool in pools;
      AttributionConserves(pools[..k], wallets, ohm);
      PoolConserves(pools[k], wallets, ohm);
    }
  }

  /**
   No more than the pool has is ever attributed, if and only if the wallets hold no more than the supply or
   the pool has nothing.
   */
  lemma NeverMoreThanThePool(pool: Pool, wallets: seq<Address>, whole: real)
    requires whole >= 0.0 && pool.supply > 0.0
    ensures Part(pool, wallets, whole) <= whole <==> Held(pool, wallets) <= pool.supply || whole == 0.0
  {
    PartUndone(pool, Held(pool, wallets), whole);
    AtMostWhole(whole, Held(pool, wallets), pool.supply, Part(pool, wallets, whole));
  }

  lemma PartUndone(pool: Pool, held: real, whole: real)
    requires pool.supply != 0.0
    ensures PartAt(pool, held, whole) * pool.supply == whole * held
  {
  }

  lemma AtMostWhole(whole: real, s: real, supply: real, attributed: real)
    requires whole >= 0.0 && supply > 0.0 && attributed * supply == whole * s
    ensures attributed <= whole <==> s <= supply || whole == 0.0
  {
    if s <= supply {
      Times(s, supply, whole);
      Undo(attributed, whole, supply);
    } else if whole == 0.0 {
      Undo(attributed, whole, supply);
    } else if attributed <= whole {
      Times(attributed, whole, supply);
      Undo(s, supply, whole);
    }
  }

  lemma Times(x: real, y: real, z: real)
    requires x <= y && z >= 0.0
    ensures z * x <= z * y
  {
  }

  lemma Undo(x: real, y: real, z: real)
    requires x * z <= y * z && z > 0.0
    ensures x <= y
  {
  }
}
