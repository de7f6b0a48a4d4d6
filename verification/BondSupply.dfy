/**
 OHM bond supply of the Gnosis auctions (apps/indexer/src/handlers/GnosisAuctions.ts): fully vested
 deposits are scaled down to what the bond manager still holds.
 */
module BondSupply {
  import opened Options

  /** `bid` and `close` are absent while the auction is open. */
  datatype Auction = Auction(marketId: nat, bid: Option<real>, close: Option<nat>, term: nat, payout: real)

  datatype RowKind = Preminted | VestingDeposits | VestingTokens | Deposits
  datatype Source = Teller | BondManager
  datatype Row = Row(marketId: nat, source: Source, kind: RowKind, amount: real)

  predicate Closed(a: Auction) {
    a.bid.Some? && a.close.Some?
  }

  predicate IsVesting(a: Auction, timestamp: nat) {
    Closed(a) && timestamp < a.close.value + a.term
  }

  predicate IsVested(a: Auction, timestamp: nat) {
    Closed(a) && timestamp >= a.close.value + a.term
  }

  function VestingBids(auctions: seq<Auction>, timestamp: nat): real {
    if auctions == [] then 0.0
    else
      var last := auctions[|auctions| - 1];
      VestingBids(auctions[..|auctions| - 1], timestamp) + if IsVesting(last, timestamp) then last.bid.value else 0.0
  }

  function VestedBids(auctions: seq<Auction>, timestamp: nat): real {
    if auctions == [] then 0.0
    else
      var last := auctions[|auctions| - 1];
      VestedBids(auctions[..|auctions| - 1], timestamp) + if IsVested(last, timestamp) then last.bid.value else 0.0
  }

  /** What the teller holds: the payouts of open and vesting auctions. */
  function TellerPayouts(auctions: seq<Auction>, timestamp: nat): real {
    if auctions == [] then 0.0
    else
      var last := auctions[|auctions| - 1];
      TellerPayouts(auctions[..|auctions| - 1], timestamp)
      + if last.bid.None? || IsVesting(last, timestamp) then last.payout else 0.0
  }

  function SumAt(rows: seq<Row>, source: Source): real {
    if rows == [] then 0.0
    else
      var last := rows[|rows| - 1];
      SumAt(rows[..|rows| - 1], source) + AmountAt(last, source)
  }

  function AmountAt(row: Row, source: Source): real {
    if row.source == source then row.amount else 0.0
  }

  lemma SumAtAppend(rows: seq<Row>, row: Row, source: Source)
    ensures SumAt(rows + [row], source) == SumAt(rows, source) + AmountAt(row, source)
  {
    assert (rows + [row])[..|rows|] == rows;
  }

  function Least(a: real, b: real): real {
    if a > b then b else a
  }

  /** The bids of the fully vested auctions, each put through `share`, summed. */
  function VestedThrough(auctions: seq<Auction>, timestamp: nat, share: real -> real): real {
    if auctions == [] then 0.0
    else
      var last := auctions[|auctions| - 1];
      VestedThrough(auctions[..|auctions| - 1], timestamp, share)
      + if IsVested(last, timestamp) then share(last.bid.value) else 0.0
  }

  /** BigNumber's division: exact, or rounded to its decimal places. */
  type Division = (real, real) -> real

  function Exactly(): Division {
    (x, y) => if y == 0.0 then 0.0 else x / y
  }

  /** What a fully vested bid becomes. */
  function ProRata(divide: Division, capped: real, total: real): real -> real {
    bid => Share(divide, capped, total, bid)
  }

  function Share(divide: Division, capped: real, total: real, bid: real): real {
    divide(bid * capped, total)
  }

  ghost predicate Linear(share: real -> real, rate: real) {
    forall x :: share(x) == x * rate
  }

  lemma Distributed(x: real, y: real, rate: real)
    ensures (x + y) * rate == x * rate + y * rate
  {
  }

  lemma {:induction false} LinearThrough(auctions: seq<Auction>, timestamp: nat, share: real -> real, rate: real)
    requires Linear(share, rate)
    ensures VestedThrough(auctions, timestamp, share) == VestedBids(auctions, timestamp) * rate
  {
    if auctions == [] {
    } else {
      var k := |auctions| - 1;
      LinearThrough(auctions[..k], timestamp, share, rate);
      if IsVested(auctions[k], timestamp) {
        Distributed(VestedBids(auctions[..k], timestamp), auctions[k].bid.value, rate);
      }
    }
  }

  lemma RateOf(bid: real, capped: real, total: real)
    requires total != 0.0
    ensures bid * capped / total == bid * (capped / total)
  {
    var rate := capped / total;
    assert rate * total == capped;
    assert bid * capped == (bid * rate) * total;
  }

  lemma ProRataLinear(capped: real, total: real)
    requires total != 0.0
    ensures Linear(ProRata(Exactly(), capped, total), capped / total)
  {
    forall x ensures ProRata(Exactly(), capped, total)(x) == x * (capped / total) {
      RateOf(x, capped, total);
    }
  }

  /** All exact shares together are the whole capped amount. */
  lemma SharesAreWhole(auctions: seq<Auction>, timestamp: nat, capped: real)
    requires VestedBids(auctions, timestamp) != 0.0
    ensures VestedThrough(auctions, timestamp, ProRata(Exactly(), capped, VestedBids(auctions, timestamp))) == capped
  {
    var total := VestedBids(auctions, timestamp);
    ProRataLinear(capped, total);
    LinearThrough(auctions, timestamp, ProRata(Exactly(), capped, total), capped / total);
  }

  /** What one auction adds at the bond manager. */
  function Deposit(a: Auction, timestamp: nat, share: real -> real, total: real): real {
    if IsVesting(a, timestamp) then a.bid.value
    else if IsVested(a, timestamp) && total != 0.0 then share(a.bid.value) else 0.0
  }

  function AllDeposits(auctions: seq<Auction>, timestamp: nat, share: real -> real, total: real): real {
    if auctions == [] then 0.0
    else
      var last := auctions[|auctions| - 1];
      AllDeposits(auctions[..|auctions| - 1], timestamp, share, total) + Deposit(last, timestamp, share, total)
  }

  lemma {:induction false} DepositsSplit(auctions: seq<Auction>, timestamp: nat, share: real -> real, total: real)
    ensures AllDeposits(auctions, timestamp, share, total) == VestingBids(auctions, timestamp)
              + if total == 0.0 then 0.0 else VestedThrough(auctions, timestamp, share)
  {
    if auctions == [] {
    } else {
      DepositsSplit(auctions[..|auctions| - 1], timestamp, share, total);
    }
  }

  /** What the bond manager's rows sum to when divisions are exact. */
  function Attributed(auctions: seq<Auction>, balance: real, timestamp: nat): real {
    var vesting, vested := VestingBids(auctions, timestamp), VestedBids(auctions, timestamp);
    vesting + if vested == 0.0 then 0.0 else Least(vested, balance - vesting)
  }

  /** A sum misses what is attributed by no more than an error `e` for each vested auction. */
  predicate AttributedWithin(sum: real, auctions: seq<Auction>, balance: real, timestamp: nat, e: real) {
    Near(sum, Attributed(auctions, balance, timestamp), VestedCount(auctions, timestamp) as real * e)
  }

  /**
   `pushGnosisAuctionSupply` for an active bond manager. The bond manager's rows sum to what is attributed,
   missed by no more than the errors of one division for each vested auction.
   */
  method PushGnosisAuctionSupply(auctions: seq<Auction>, balance: real, timestamp: nat,
                                 divide: Division)
    returns (supplies: seq<Row>)
    ensures Promised(SumAt(supplies, BondManager), auctions, balance, timestamp, divide)
    ensures SumAt(supplies, Teller) == TellerPayouts(auctions, timestamp)
  {
    var totalBurnable, unallocated := 0.0, balance;
    for n := 0 to |auctions|
      invariant totalBurnable == VestedBids(auctions[..n], timestamp)
      invariant unallocated == balance - VestingBids(auctions[..n], timestamp)
    {
      var auction := auctions[n];
      assert auctions[..n + 1][..n] == auctions[..n];
      if auction.bid.None? || auction.close.None? {
        continue;
      }
      if timestamp < auction.close.value + auction.term {
        unallocated := unallocated - auction.bid.value;
      } else {
        totalBurnable := totalBurnable + auction.bid.value;
      }
    }
    assert auctions[..|auctions|] == auctions;
    var capped := if unallocated > totalBurnable then totalBurnable else unallocated;
    supplies := PushAuctions(auctions, timestamp, ProRata(divide, capped, totalBurnable), totalBurnable);
    forall e | DividesWithin(divide, e)
      ensures AttributedWithin(SumAt(supplies, BondManager), auctions, balance, timestamp, e)
    {
      SumAttributedWithin(auctions, balance, timestamp, divide, e, capped, SumAt(supplies, BondManager));
    }
  }

  /** The second loop. */
  method PushAuctions(auctions: seq<Auction>, timestamp: nat, share: real -> real,
                      totalBurnable: real)
    returns (supplies: seq<Row>)
    ensures SumAt(supplies, BondManager) == VestingBids(auctions, timestamp)
              + if totalBurnable == 0.0 then 0.0 else VestedThrough(auctions, timestamp, share)
    ensures SumAt(supplies, Teller) == TellerPayouts(auctions, timestamp)
  {
    supplies := [];
    for n := 0 to |auctions|
      invariant SumAt(supplies, BondManager) == AllDeposits(auctions[..n], timestamp, share, totalBurnable)
      invariant SumAt(supplies, Teller) == TellerPayouts(auctions[..n], timestamp)
    {
      assert auctions[..n + 1][..n] == auctions[..n];
      supplies := PushAuction(supplies, auctions[n], timestamp, share, totalBurnable);
    }
    assert auctions[..|auctions|] == auctions;
    DepositsSplit(auctions, timestamp, share, totalBurnable);
  }

  /** The rows of one auction: the body of the second loop. */
  method PushAuction(before: seq<Row>, auction: Auction, timestamp: nat, share: real -> real, totalBurnable: real)
    returns (supplies: seq<Row>)
    ensures SumAt(supplies, BondManager)
            == SumAt(before, BondManager) + Deposit(auction, timestamp, share, totalBurnable)
    ensures SumAt(supplies, Teller) == SumAt(before, Teller)
      + if auction.bid.None? || IsVesting(auction, timestamp) then auction.payout else 0.0
  {
    supplies := before;
    if auction.bid.None? {
      supplies := Push(supplies, Row(auction.marketId, Teller, Preminted, auction.payout));
      return;
    }
    if auction.close.None? {
      return;
    }
    if timestamp < auction.close.value + auction.term {
      supplies := Push(supplies, Row(auction.marketId, BondManager, VestingDeposits, auction.bid.value));
      supplies := Push(supplies, Row(auction.marketId, Teller, VestingTokens, auction.payout));
      return;
    }
    if totalBurnable == 0.0 {
      return;
    }
    var adjusted := share(auction.bid.value);
    if adjusted == 0.0 {
      return;
    }
    supplies := Push(supplies, Row(auction.marketId, BondManager, Deposits, adjusted));
  }

  method Push(rows: seq<Row>, row: Row) returns (longer: seq<Row>)
    ensures longer == rows + [row]
    ensures forall source :: SumAt(longer, source) == SumAt(rows, source) + AmountAt(row, source)
  {
    longer := rows + [row];
    forall source ensures SumAt(longer, source) == SumAt(rows, source) + AmountAt(row, source) {
      SumAtAppend(rows, row, source);
    }
  }

  /**
   Conservation: what is attributed is the smaller of the bond manager's balance and all closed bids, if and
   only if some bid total has vested or the vesting deposits do not exceed the balance.
   */
  lemma BondConservationExact(auctions: seq<Auction>, balance: real, timestamp: nat)
    ensures Attributed(auctions, balance, timestamp)
            == Least(balance, VestingBids(auctions, timestamp) + VestedBids(auctions, timestamp))
            <==> VestedBids(auctions, timestamp) != 0.0 || VestingBids(auctions, timestamp) <= balance
  {
  }

  // ---------- Divisions ----------

  predicate Near(x: real, y: real, e: real) {
    y - e <= x <= y + e
  }

  predicate DividesNear(divide: Division, e: real, x: real, y: real) {
    y != 0.0 ==> Near(divide(x, y), x / y, e)
  }

  /** Every quotient is within `e` of the exact one. */
  ghost predicate DividesWithin(divide: Division, e: real) {
    forall x, y :: DividesNear(divide, e, x, y)
  }

  lemma ExactDivision()
    ensures DividesWithin(Exactly(), 0.0)
  {
  }

  /** What `PushGnosisAuctionSupply` promises of the sum of the bond manager's rows. */
  ghost predicate Promised(sum: real, auctions: seq<Auction>, balance: real, timestamp: nat, divide: Division) {
    forall e :: DividesWithin(divide, e) ==> AttributedWithin(sum, auctions, balance, timestamp, e)
  }

  /** With exact divisions the bond manager's rows sum to exactly what is attributed. */
  lemma ExactRows(sum: real, auctions: seq<Auction>, balance: real, timestamp: nat)
    requires Promised(sum, auctions, balance, timestamp, Exactly())
    ensures sum == Attributed(auctions, balance, timestamp)
  {
    ExactDivision();
    assert AttributedWithin(sum, auctions, balance, timestamp, 0.0);
  }

  const SCALE: real := 100000000000000000000.0

  /** Rounded to 20 decimal places, halves away from zero. */
  function Round20(x: real): real {
    if x >= 0.0 then HalfUp(x) else -HalfUp(-x)
  }

  function HalfUp(x: real): real {
    (x * SCALE + 0.5).Floor as real / SCALE
  }

  lemma HalfUpError(x: real)
    ensures Near(HalfUp(x), x, 0.5 / SCALE)
  {
    var y := x * SCALE + 0.5;
    var f := y.Floor as real;
    assert f <= y < f + 1.0;
    assert HalfUp(x) * SCALE == f && x * SCALE == y - 0.5;
    assert (HalfUp(x) - x) * SCALE == f - y + 0.5;
  }

  lemma Round20Error(x: real)
    ensures Near(Round20(x), x, 0.5 / SCALE)
  {
    HalfUpError(if x >= 0.0 then x else -x);
  }

  function Rounded(): Division {
    (x, y) => if y == 0.0 then 0.0 else Round20(x / y)
  }

  /** Divisions rounded to 20 places miss at most half a unit of the last place. */
  lemma RoundedDivision()
    ensures DividesWithin(Rounded(), 0.5 / SCALE)
  {
    var divide, e := Rounded(), 0.5 / SCALE;
    forall x, y ensures DividesNear(divide, e, x, y) {
      if y != 0.0 {
        Round20Error(x / y);
      }
    }
  }

  /** With divisions rounded to 20 places the rows miss it by at most n/2 last places for n vested auctions. */
  lemma RoundedRows(sum: real, auctions: seq<Auction>, balance: real, timestamp: nat)
    requires Promised(sum, auctions, balance, timestamp, Rounded())
    ensures Near(sum, Attributed(auctions, balance, timestamp),
                 VestedCount(auctions, timestamp) as real * (0.5 / SCALE))
  {
    var e := 0.5 / SCALE;
    RoundedDivision();
    assert AttributedWithin(sum, auctions, balance, timestamp, e);
  }

  function VestedCount(auctions: seq<Auction>, timestamp: nat): nat {
    if auctions == [] then 0
    else
      var last := auctions[|auctions| - 1];
      VestedCount(auctions[..|auctions| - 1], timestamp) + if IsVested(last, timestamp) then 1 else 0
  }

  /** The errors of the vested auctions, added up. */
  function Slack(auctions: seq<Auction>, timestamp: nat, e: real): real {
    if auctions == [] then 0.0
    else
      var last := auctions[|auctions| - 1];
      Slack(auctions[..|auctions| - 1], timestamp, e) + if IsVested(last, timestamp) then e else 0.0
  }

  lemma {:induction false} SlackIsCount(auctions: seq<Auction>, timestamp: nat, e: real)
    ensures Slack(auctions, timestamp, e) == VestedCount(auctions, timestamp) as real * e
  {
    if auctions == [] {
    } else {
      var k := |auctions| - 1;
      SlackIsCount(auctions[..k], timestamp, e);
      OneMore(VestedCount(auctions[..k], timestamp), e);
    }
  }

  lemma OneMore(n: nat, e: real)
    ensures (n + 1) as real * e == n as real * e + e
  {
  }

  predicate Close(f: real -> real, g: real -> real, e: real, x: real) {
    Near(f(x), g(x), e)
  }

  ghost predicate Within(f: real -> real, g: real -> real, e: real) {
    forall x :: Close(f, g, e, x)
  }

  /** Shares that are each within `e` of the exact ones sum to within `n * e`. */
  lemma {:induction false} ErrorsAddUp(auctions: seq<Auction>, timestamp: nat, f: real -> real, g: real -> real,
                                       e: real)
    requires Within(f, g, e)
    ensures Near(VestedThrough(auctions, timestamp, f), VestedThrough(auctions, timestamp, g),
            Slack(auctions, timestamp, e))
  {
    if auctions == [] {
    } else {
      var k := |auctions| - 1;
      ErrorsAddUp(auctions[..k], timestamp, f, g, e);
      if IsVested(auctions[k], timestamp) {
        assert Close(f, g, e, auctions[k].bid.value);
      }
    }
  }

  lemma SharesWithin(divide: Division, e: real, capped: real, total: real)
    requires DividesWithin(divide, e) && total != 0.0
    ensures Within(ProRata(divide, capped, total), ProRata(Exactly(), capped, total), e)
  {
    var f, g := ProRata(divide, capped, total), ProRata(Exactly(), capped, total);
    forall bid ensures Close(f, g, e, bid) {
      assert DividesNear(divide, e, bid * capped, total);
      assert f(bid) == Share(divide, capped, total, bid) && g(bid) == Share(Exactly(), capped, total, bid);
    }
  }

  lemma {:induction false} SlackNonNegative(auctions: seq<Auction>, timestamp: nat, e: real)
    requires e >= 0.0
    ensures Slack(auctions, timestamp, e) >= 0.0
  {
    if auctions == [] {
    } else {
      SlackNonNegative(auctions[..|auctions| - 1], timestamp, e);
    }
  }

  /** The bond manager's rows, whatever the division. */
  lemma SumAttributedWithin(auctions: seq<Auction>, balance: real, timestamp: nat, divide: Division, e: real,
                            capped: real, sum: real)
    requires DividesWithin(divide, e)
    requires capped == Least(VestedBids(auctions, timestamp), balance - VestingBids(auctions, timestamp))
    requires var total := VestedBids(auctions, timestamp);
             sum == VestingBids(auctions, timestamp)
               + if total == 0.0 then 0.0 else VestedThrough(auctions, timestamp, ProRata(divide, capped, total))
    ensures AttributedWithin(sum, auctions, balance, timestamp, e)
  {
    var total := VestedBids(auctions, timestamp);
    assert e >= 0.0 by {
      assert DividesNear(divide, e, 0.0, 1.0);
    }
    SlackIsCount(auctions, timestamp, e);
    SlackNonNegative(auctions, timestamp, e);
    if total != 0.0 {
      SharesWithin(divide, e, capped, total);
      ErrorsAddUp(auctions, timestamp, ProRata(divide, capped, total), ProRata(Exactly(), capped, total), e);
      SharesAreWhole(auctions, timestamp, capped);
    }
  }
}
