/**
 The cross-chain daily rollup (apps/indexer/src/snapshot/global.ts and `updateGlobalMetricSnapshot` in
 apps/indexer/src/handlers/BlockHandlers.ts): every chain's snapshot writes its own daily row and then
 rebuilds the one global row of that date from all chains' rows.
 */
module GlobalRollup {
  import opened Options

  // ---------- One chain's aggregate ----------

  datatype SupplyType = TotalSupply | Treasury | Offset | BondsPreminted | BondsVestingDeposits | BondsVestingTokens
                      | BondsDeposits | Liquidity | Blv | Lending

  datatype SupplyRow = SupplyRow(kind: SupplyType, balance: real, supplyBalance: real)
  datatype Bucket = Bucket(balance: real, supplyBalance: real)

  /** `atBuyback`: held by the buyback contract at or after its inclusion block. */
  datatype RecordRow = RecordRow(value: real, valueExcludingOhm: real, isOhm: bool, atBuyback: bool, isLiquid: bool)

  datatype Values = Values(totalSupply: real, circulating: real, floating: real, backed: real, marketValue: real,
                           liquidBacking: real)

  const NOTHING := Values(0.0, 0.0, 0.0, 0.0, 0.0, 0.0)

  function Plus(a: Values, b: Values): Values {
    Values(a.totalSupply + b.totalSupply, a.circulating + b.circulating, a.floating + b.floating, a.backed + b.backed,
           a.marketValue + b.marketValue, a.liquidBacking + b.liquidBacking)
  }

  const CIRCULATING := {TotalSupply, Treasury, Offset, BondsPreminted, BondsVestingDeposits, BondsDeposits}

  /** The signed supply rows whose type is in `kinds`, summed in one pass. */
  function SupplyIn(supplies: seq<SupplyRow>, kinds: set<SupplyType>): real {
    if supplies == [] then 0.0
    else
      var last := supplies[|supplies| - 1];
      SupplyIn(supplies[..|supplies| - 1], kinds) + if last.kind in kinds then last.supplyBalance else 0.0
  }

  function BalanceIn(supplies: seq<SupplyRow>, kind: SupplyType): real {
    if supplies == [] then 0.0
    else
      var last := supplies[|supplies| - 1];
      BalanceIn(supplies[..|supplies| - 1], kind) + if last.kind == kind then last.balance else 0.0
  }

  function MarketValue(records: seq<RecordRow>): real {
    if records == [] then 0.0
    else
      var last := records[|records| - 1];
      MarketValue(records[..|records| - 1]) + if last.isOhm && !last.atBuyback then 0.0 else last.value
  }

  function LiquidBacking(records: seq<RecordRow>): real {
    if records == [] then 0.0
    else
      var last := records[|records| - 1];
      LiquidBacking(records[..|records| - 1]) + if !last.isOhm && last.isLiquid then last.valueExcludingOhm else 0.0
  }

  /** The aggregate each chain promises: one pass over the rows for each field. */
  function Aggregate(preBlvInclusion: bool, records: seq<RecordRow>, supplies: seq<SupplyRow>): Values {
    var circulating := CIRCULATING + if preBlvInclusion then {Blv} else {};
    Values(SupplyIn(supplies, {TotalSupply}), SupplyIn(supplies, circulating),
           SupplyIn(supplies, circulating + {Liquidity}),
           SupplyIn(supplies, CIRCULATING + {Liquidity, Blv, Lending}), MarketValue(records), LiquidBacking(records))
  }

  function SupplyOf(buckets: map<SupplyType, Bucket>, kind: SupplyType): real {
    if kind in buckets then buckets[kind].supplyBalance else 0.0
  }

  /** `computePerChainAggregate`: bucketing the rows by type and adding buckets up gives the one-pass sums. */
  method ComputePerChainAggregate(preBlvInclusion: bool, records: seq<RecordRow>, supplies: seq<SupplyRow>)
    returns (r: Values, buckets: map<SupplyType, Bucket>)
    ensures r == Aggregate(preBlvInclusion, records, supplies)
    ensures forall kind :: kind in buckets <==> exists s :: s in supplies && s.kind == kind
    ensures forall kind :: kind in buckets ==>
            buckets[kind] == Bucket(BalanceIn(supplies, kind), SupplyIn(supplies, {kind}))
  {
    var marketValue, liquidBacking := 0.0, 0.0;
    for n := 0 to |records|
      invariant marketValue == MarketValue(records[..n]) && liquidBacking == LiquidBacking(records[..n])
    {
      var record := records[n];
      assert records[..n + 1][..n] == records[..n];
      if record.isOhm {
        if record.atBuyback {
          marketValue := marketValue + record.value;
        }
        continue;
      }
      marketValue := marketValue + record.value;
      if record.isLiquid {
        liquidBacking := liquidBacking + record.valueExcludingOhm;
      }
    }
    assert records[..|records|] == records && supplies[..|supplies|] == supplies;
    buckets := BucketByType(supplies);
    var circulating := SupplyOf(buckets, TotalSupply) + SupplyOf(buckets, Treasury) + SupplyOf(buckets, Offset)
                       + SupplyOf(buckets, BondsPreminted) + SupplyOf(buckets, BondsVestingDeposits)
                       + SupplyOf(buckets, BondsDeposits);
    var withBlv := if preBlvInclusion then circulating + SupplyOf(buckets, Blv) else circulating;
    var floating := withBlv + SupplyOf(buckets, Liquidity);
    var backed := circulating + SupplyOf(buckets, Liquidity) + SupplyOf(buckets, Blv) + SupplyOf(buckets, Lending);
    CategoriesAddUp(supplies, preBlvInclusion);
    r := Values(SupplyOf(buckets, TotalSupply), withBlv, floating, backed, marketValue, liquidBacking);
  }

  method BucketByType(supplies: seq<SupplyRow>) returns (buckets: map<SupplyType, Bucket>)
    ensures forall kind :: kind in buckets <==> exists s :: s in supplies && s.kind == kind
    ensures forall kind :: kind in buckets ==>
            buckets[kind] == Bucket(BalanceIn(supplies, kind), SupplyIn(supplies, {kind}))
    ensures forall kind :: SupplyOf(buckets, kind) == SupplyIn(supplies, {kind})
  {
    buckets := map[];
    for n := 0 to |supplies|
      invariant forall kind :: kind in buckets <==> exists s :: s in supplies[..n] && s.kind == kind
      invariant forall kind :: kind in buckets ==>
                buckets[kind] == Bucket(BalanceIn(supplies[..n], kind), SupplyIn(supplies[..n], {kind}))
      invariant forall kind :: kind !in buckets ==>
                BalanceIn(supplies[..n], kind) == SupplyIn(supplies[..n], {kind}) == 0.0
    {
      var supply := supplies[n];
      assert supplies[..n + 1][..n] == supplies[..n] && supplies[..n + 1] == supplies[..n] + [supply];
      var bucket := if supply.kind in buckets then buckets[supply.kind] else Bucket(0.0, 0.0);
      var next := Bucket(bucket.balance + supply.balance, bucket.supplyBalance + supply.supplyBalance);
      buckets := buckets[supply.kind := next];
    }
    assert supplies[..|supplies|] == supplies;
  }

  lemma {:induction false} CategoriesAddUp(supplies: seq<SupplyRow>, preBlvInclusion: bool)
    ensures var r := Aggregate(preBlvInclusion, [], supplies);
            var circulating := SupplyIn(supplies, {TotalSupply}) + SupplyIn(supplies, {Treasury})
              + SupplyIn(supplies, {Offset}) + SupplyIn(supplies, {BondsPreminted})
              + SupplyIn(supplies, {BondsVestingDeposits}) + SupplyIn(supplies, {BondsDeposits});
            && r.circulating == circulating + (if preBlvInclusion then SupplyIn(supplies, {Blv}) else 0.0)
            && r.floating == r.circulating + SupplyIn(supplies, {Liquidity})
            && r.backed == circulating + SupplyIn(supplies, {Liquidity}) + SupplyIn(supplies, {Blv})
                + SupplyIn(supplies, {Lending})
  {
    if supplies == [] {
    } else {
      CategoriesAddUp(supplies[..|supplies| - 1], preBlvInclusion);
    }
  }

  // ---------- The global row ----------

  type ChainId = nat
  type Date = nat

  const ETHEREUM: ChainId := 1
  const ARBITRUM: ChainId := 42161

  datatype ChainRow = ChainRow(chainId: ChainId, values: Values)

  datatype Ratios = Ratios(marketCap: real, gOhmBacked: real, perFloating: real, perBacked: real, perGOhmBacked: real)

  function Divide(a: real, b: real): real {
    if b == 0.0 then 0.0 else a / b
  }

  /** `computeDerivedRatios`. */
  function DerivedRatios(v: Values, price: real, index: real): Ratios {
    var gOhmBacked := if v.backed == 0.0 || index == 0.0 then 0.0 else v.backed / index;
    Ratios(price * v.circulating, gOhmBacked, Divide(v.liquidBacking, v.floating), Divide(v.liquidBacking, v.backed),
           Divide(v.liquidBacking, gOhmBacked))
  }

  /**
   The backing ratios undo their divisions wherever the supply is nonzero and are zero otherwise, and a gOHM is
   backed by as much as the OHM it stands for: the backing per OHM times the index.
   */
  lemma RatiosMean(v: Values, price: real, index: real)
    ensures var r := DerivedRatios(v, price, index);
            && (if v.floating == 0.0 then r.perFloating == 0.0 else r.perFloating * v.floating == v.liquidBacking)
            && (if v.backed == 0.0 then r.perBacked == 0.0 else r.perBacked * v.backed == v.liquidBacking)
            && (if v.backed == 0.0 || index == 0.0 then r.perGOhmBacked == 0.0
                else r.gOhmBacked * index == v.backed && r.perGOhmBacked == r.perBacked * index)
  {
    if v.backed != 0.0 && index != 0.0 {
      PerIndex(v.liquidBacking, v.backed, index, v.backed / index);
    }
  }

  lemma PerIndex(x: real, backed: real, index: real, g: real)
    requires backed != 0.0 && index != 0.0 && g == backed / index
    ensures g != 0.0 && x / g == x / backed * index
  {
    assert g * index == backed;
    var r := x / backed;
    assert r * backed == x;
    assert (r * index) * g == x;
  }

  /** The fields only Ethereum can compute. */
  datatype Canonical = Canonical(ohmPrice: real, sOhmCirculating: real, ohmApy: real)

  const NO_CANONICAL := Canonical(0.0, 0.0, 0.0)

  datatype Global = Global(values: Values, chainsIndexed: seq<ChainId>, complete: bool,
                           canonical: Canonical, ohmIndex: real,
                           gOhmPrice: real, sOhmTotalValueLocked: real, ratios: Ratios)

  type CategoryId = (Date, ChainId, SupplyType)

  datatype Store = Store(rows: map<(Date, ChainId), Values>, globals: map<Date, Global>)

  /**
   One chain's snapshot: its aggregate and supply categories, what it would compute for the canonical
   fields, the rebase index it reads, and the daily rows the store returns for the date after the chain's
   own write.
   */
  datatype Snapshot = Snapshot(chainId: ChainId, date: Date, values: Values, buckets: map<SupplyType, Bucket>,
                               canonical: Canonical, index: real, readBack: seq<ChainRow>)

  function Ids(rows: seq<ChainRow>): seq<ChainId> {
    if rows == [] then [] else Ids(rows[..|rows| - 1]) + [rows[|rows| - 1].chainId]
  }

  /** `aggregateAcrossChains`, the additive fields. */
  function SumRows(rows: seq<ChainRow>): Values {
    if rows == [] then NOTHING else Plus(SumRows(rows[..|rows| - 1]), rows[|rows| - 1].values)
  }

  const ALL_CHAINS: seq<ChainId> := [42161, 1, 250, 137, 8453, 80094]

  /** The chains that are not indexed, in order. */
  function Missing(chains: seq<ChainId>, indexed: seq<ChainId>): (r: seq<ChainId>)
    ensures forall c :: c in r <==> c in chains && c !in indexed
  {
    if chains == [] then []
    else
      var last := chains[|chains| - 1];
      Missing(chains[..|chains| - 1], indexed) + if last in indexed then [] else [last]
  }

  /** The sums of one supply category over the chains that have it. */
  function MergedAt(categories: seq<map<SupplyType, Bucket>>, kind: SupplyType): Option<Bucket> {
    if categories == [] then None
    else MergedWith(MergedAt(categories[..|categories| - 1], kind), categories[|categories| - 1], kind)
  }

  function MergedWith(sums: Option<Bucket>, chain: map<SupplyType, Bucket>, kind: SupplyType): Option<Bucket> {
    if kind !in chain then sums
    else
      var existing := if sums.Some? then sums.value else Bucket(0.0, 0.0);
      Some(Bucket(existing.balance + chain[kind].balance, existing.supplyBalance + chain[kind].supplyBalance))
  }

  ghost predicate HoldsMerged(merged: map<SupplyType, Bucket>, categories: seq<map<SupplyType, Bucket>>) {
    forall kind :: MergedAt(categories, kind) == if kind in merged then Some(merged[kind]) else None
  }

  /** The inner loop of `aggregateAcrossChains`: one chain's categories added to the sums. */
  method MergeChain(before: map<SupplyType, Bucket>, chain: map<SupplyType, Bucket>)
    returns (merged: map<SupplyType, Bucket>)
    ensures forall kind :: MergedWith(if kind in before then Some(before[kind]) else None, chain, kind)
              == if kind in merged then Some(merged[kind]) else None
  {
    merged := before;
    var rest := chain.Keys;
    while rest != {}
      invariant rest <= chain.Keys
      invariant forall kind :: kind in rest ==> (kind in merged <==> kind in before)
      invariant forall kind :: kind in rest && kind in before ==> merged[kind] == before[kind]
      invariant forall kind :: kind !in rest ==>
                  MergedWith(if kind in before then Some(before[kind]) else None, chain, kind)
                  == if kind in merged then Some(merged[kind]) else None
      decreases rest
    {
      var kind :| kind in rest;
      rest := rest - {kind};
      var existing := if kind in merged then merged[kind] else Bucket(0.0, 0.0);
      var next := Bucket(existing.balance + chain[kind].balance, existing.supplyBalance + chain[kind].supplyBalance);
      merged := merged[kind := next];
    }
  }

  /** `aggregateAcrossChains`; `categories` are the supply categories of the rows' chains. */
  method AggregateAcrossChains(rows: seq<ChainRow>, categories: seq<map<SupplyType, Bucket>>)
    returns (sum: Values, chainsIndexed: seq<ChainId>, chainsMissing: seq<ChainId>, merged: map<SupplyType, Bucket>)
    requires |rows| == |categories|
    ensures sum == SumRows(rows) && chainsIndexed == Ids(rows) && chainsMissing == Missing(ALL_CHAINS, chainsIndexed)
    ensures HoldsMerged(merged, categories)
  {
    sum, chainsIndexed, merged := NOTHING, [], map[];
    for n := 0 to |rows|
      invariant sum == SumRows(rows[..n]) && chainsIndexed == Ids(rows[..n]) && HoldsMerged(merged, categories[..n])
    {
      assert rows[..n + 1][..n] == rows[..n] && categories[..n + 1][..n] == categories[..n];
      sum := Plus(sum, rows[n].values);
      chainsIndexed := chainsIndexed + [rows[n].chainId];
      merged := MergeChain(merged, categories[n]);
    }
    assert rows[..|rows|] == rows && categories[..|rows|] == categories;
    chainsMissing := Missing(ALL_CHAINS, chainsIndexed);
  }

  /** The rows to aggregate: read back, with the writer's own row replaced, or added when it is missing. */
  function Replaced(readBack: seq<ChainRow>, own: ChainRow): seq<ChainRow> {
    if readBack == [] then []
    else
      var last := readBack[|readBack| - 1];
      Replaced(readBack[..|readBack| - 1], own) + [if last.chainId == own.chainId then own else last]
  }

  function Rebuilt(s: Snapshot): seq<ChainRow> {
    var own := ChainRow(s.chainId, s.values);
    var rows := Replaced(s.readBack, own);
    if s.chainId in Ids(rows) then rows else rows + [own]
  }

  function WithDerived(values: Values, ids: seq<ChainId>, canonical: Canonical, index: real): Global {
    Global(values, ids, ARBITRUM in ids && ETHEREUM in ids, canonical, index, canonical.ohmPrice * index,
           canonical.sOhmCirculating * canonical.ohmPrice, DerivedRatios(values, canonical.ohmPrice, index))
  }

  /** One row for each of the chain's categories of the day, replaced or added. */
  function WithCategories(categories: map<CategoryId, Bucket>, date: Date, c: ChainId, buckets: map<SupplyType, Bucket>)
    : (r: map<CategoryId, Bucket>)
    ensures forall id :: id in r <==> id in categories || (id.0 == date && id.1 == c && id.2 in buckets)
    ensures forall id :: id in r ==>
              r[id] == if id.0 == date && id.1 == c && id.2 in buckets then buckets[id.2] else categories[id]
  {
    map id | id in categories.Keys + (set kind | kind in buckets :: (date, c, kind)) ::
      if id.0 == date && id.1 == c && id.2 in buckets then buckets[id.2] else categories[id]
  }

  /** `updateGlobalMetricSnapshot`. */
  function Update(store: Store, s: Snapshot): Store {
    var rows := Rebuilt(s);
    var existing := if s.date in store.globals then store.globals[s.date].canonical else NO_CANONICAL;
    var canonical := if s.chainId == ETHEREUM then s.canonical else existing;
    var values := SumRows(rows);
    Store(store.rows[(s.date, s.chainId) := s.values],
          store.globals[s.date := WithDerived(values, Ids(rows), canonical, s.index)])
  }

  class RollupStore {
    var rows: map<(Date, ChainId), Values>
    var globals: map<Date, Global>
    var missing: map<Date, seq<ChainId>>
    var categories: map<CategoryId, Bucket>

    function State(): Store
      reads this
    {
      Store(rows, globals)
    }

    constructor ()
      ensures State() == Store(map[], map[]) && missing == map[] && categories == map[]
    {
      rows, globals, missing, categories := map[], map[], map[], map[];
    }

    /** The loop that writes the category rows. */
    method WriteCategories(date: Date, c: ChainId, buckets: map<SupplyType, Bucket>)
      modifies this`categories
      ensures categories == WithCategories(old(categories), date, c, buckets)
    {
      var rest := buckets.Keys;
      while rest != {}
        invariant rest <= buckets.Keys
        invariant forall id :: id in categories <==>
                    id in old(categories) || (id.0 == date && id.1 == c && id.2 in buckets && id.2 !in rest)
        invariant forall id :: id in categories ==>
                    categories[id]
                    == if id.0 == date && id.1 == c && id.2 in buckets && id.2 !in rest then buckets[id.2]
                       else old(categories)[id]
        decreases rest
      {
        var kind :| kind in rest;
        rest := rest - {kind};
        categories := categories[(date, c, kind) := buckets[kind]];
      }
    }

    method UpdateGlobalMetricSnapshot(s: Snapshot)
      modifies this
      ensures State() == Update(old(State()), s)
      ensures missing == old(missing)[s.date := Missing(ALL_CHAINS, Ids(Rebuilt(s)))]
      ensures categories == WithCategories(old(categories), s.date, s.chainId, s.buckets)
    {
      rows := rows[(s.date, s.chainId) := s.values];
      var own := ChainRow(s.chainId, s.values);
      var aggregates: seq<ChainRow> := [];
      for n := 0 to |s.readBack|
        invariant aggregates == Replaced(s.readBack[..n], own) && rows == old(rows)[(s.date, s.chainId) := s.values]
        invariant globals == old(globals) && missing == old(missing) && categories == old(categories)
      {
        assert s.readBack[..n + 1][..n] == s.readBack[..n];
        aggregates := aggregates + [if s.readBack[n].chainId == own.chainId then own else s.readBack[n]];
      }
      assert s.readBack[..|s.readBack|] == s.readBack;
      if s.chainId !in Ids(aggregates) {
        aggregates := aggregates + [own];
      }
      assert aggregates == Rebuilt(s);
      var categoriesOf := seq(|aggregates|, n requires 0 <= n < |aggregates| =>
        if aggregates[n].chainId == s.chainId then s.buckets else map[]);
      var values, chainsIndexed, chainsMissing, merged := AggregateAcrossChains(aggregates, categoriesOf);
      var canonical := NO_CANONICAL;
      if s.chainId == ETHEREUM {
        canonical := s.canonical;
      } else if s.date in globals {
        canonical := globals[s.date].canonical;
      }
      var global := WithDerived(values, chainsIndexed, canonical, s.index);
      globals := globals[s.date := global];
      missing := missing[s.date := chainsMissing];
      WriteCategories(s.date, s.chainId, s.buckets);
    }
  }

  // ---------- Histories of snapshots ----------

  ghost predicate Distinct(ids: seq<ChainId>) {
    forall i, j :: 0 <= i < j < |ids| ==> ids[i] != ids[j]
  }

  /**
   The read-back holds each chain's row of the date once and exactly, except the writer's own row, which
   may be fresh, stale or missing.
   */
  ghost predicate ReadsBack(store: Store, s: Snapshot) {
    && Distinct(Ids(s.readBack))
    && (forall row :: row in s.readBack && row.chainId != s.chainId ==>
          (s.date, row.chainId) in store.rows && store.rows[(s.date, row.chainId)] == row.values)
    && (forall c :: c != s.chainId && (s.date, c) in store.rows ==> ChainRow(c, store.rows[(s.date, c)]) in s.readBack)
  }

  function After(history: seq<Snapshot>): Store {
    if history == [] then Store(map[], map[]) else Update(After(history[..|history| - 1]), history[|history| - 1])
  }

  ghost predicate ValidHistory(history: seq<Snapshot>) {
    history != [] ==>
      var before := history[..|history| - 1];
      ValidHistory(before) && ReadsBack(After(before), history[|history| - 1])
  }

  /** The last aggregate a chain wrote for a date. */
  function Latest(history: seq<Snapshot>, date: Date, c: ChainId): Option<Values> {
    if history == [] then None
    else
      var last := history[|history| - 1];
      if last.date == date && last.chainId == c then Some(last.values) else Latest(history[..|history| - 1], date, c)
  }

  /** The canonical fields of the last Ethereum snapshot of a date, or zeros. */
  function LastCanonical(history: seq<Snapshot>, date: Date): Canonical {
    if history == [] then NO_CANONICAL
    else
      var last := history[|history| - 1];
      if last.date == date && last.chainId == ETHEREUM then last.canonical
      else LastCanonical(history[..|history| - 1], date)
  }

  /** The latest rows of the listed chains, summed. */
  function SumLatest(history: seq<Snapshot>, date: Date, ids: seq<ChainId>): Values {
    if ids == [] then NOTHING
    else
      var latest := Latest(history, date, ids[|ids| - 1]);
      Plus(SumLatest(history, date, ids[..|ids| - 1]), if latest.Some? then latest.value else NOTHING)
  }

  /** `ids` lists every chain with a row for the date once. */
  ghost predicate Lists(history: seq<Snapshot>, date: Date, ids: seq<ChainId>) {
    Distinct(ids) && forall c :: c in ids <==> Latest(history, date, c).Some?
  }

  lemma {:induction false} RowsAreLatest(history: seq<Snapshot>, date: Date, c: ChainId)
    ensures (date, c) in After(history).rows <==> Latest(history, date, c).Some?
    ensures (date, c) in After(history).rows ==> After(history).rows[(date, c)] == Latest(history, date, c).value
  {
    if history == [] {
    } else {
      RowsAreLatest(history[..|history| - 1], date, c);
    }
  }

  lemma {:induction false} ReplacedIds(readBack: seq<ChainRow>, own: ChainRow)
    ensures Ids(Replaced(readBack, own)) == Ids(readBack)
  {
    if readBack == [] {
    } else {
      var k := |readBack| - 1;
      ReplacedIds(readBack[..k], own);
      var rest, last := Replaced(readBack[..k], own), if readBack[k].chainId == own.chainId then own else readBack[k];
      assert (rest + [last])[..|rest|] == rest;
    }
  }

  lemma {:induction false} IdsAt(rows: seq<ChainRow>)
    ensures |Ids(rows)| == |rows| && forall n :: 0 <= n < |rows| ==> Ids(rows)[n] == rows[n].chainId
  {
    if rows == [] {
    } else {
      IdsAt(rows[..|rows| - 1]);
    }
  }

  /** Summing rows that are each chain's latest is summing the latest rows. */
  lemma {:induction false} SumOfLatest(history: seq<Snapshot>, date: Date, rows: seq<ChainRow>)
    requires forall row :: row in rows ==> Latest(history, date, row.chainId) == Some(row.values)
    ensures SumRows(rows) == SumLatest(history, date, Ids(rows))
  {
    if rows == [] {
    } else {
      var k := |rows| - 1;
      SumOfLatest(history, date, rows[..k]);
      assert rows[k] in rows && Ids(rows) == Ids(rows[..k]) + [rows[k].chainId];
      IdsAt(rows[..k]);
      assert Ids(rows)[..k] == Ids(rows[..k]);
    }
  }

  lemma {:induction false} ReplacedMembers(readBack: seq<ChainRow>, own: ChainRow)
    ensures forall row :: row in Replaced(readBack, own) ==>
            row == own || (row in readBack && row.chainId != own.chainId)
    ensures forall row :: row in readBack && row.chainId != own.chainId ==> row in Replaced(readBack, own)
    ensures own.chainId in Ids(Replaced(readBack, own)) ==> own in Replaced(readBack, own)
  {
    if readBack == [] {
    } else {
      var k := |readBack| - 1;
      assert readBack == readBack[..k] + [readBack[k]];
      ReplacedMembers(readBack[..k], own);
      var rest, last := Replaced(readBack[..k], own), if readBack[k].chainId == own.chainId then own else readBack[k];
      assert (rest + [last])[..|rest|] == rest;
    }
  }

  /** Rebuilding keeps the other chains' rows, holds the writer's own fresh row and lists each chain once. */
  lemma RebuiltMembers(s: Snapshot)
    requires Distinct(Ids(s.readBack))
    ensures var own := ChainRow(s.chainId, s.values);
            forall row :: row in Rebuilt(s) <==> row == own || (row in s.readBack && row.chainId != s.chainId)
    ensures Distinct(Ids(Rebuilt(s)))
  {
    var own := ChainRow(s.chainId, s.values);
    var replaced := Replaced(s.readBack, own);
    ReplacedMembers(s.readBack, own);
    ReplacedIds(s.readBack, own);
    if s.chainId !in Ids(replaced) {
      assert (replaced + [own])[..|replaced|] == replaced;
    }
  }

  lemma IdsMembers(rows: seq<ChainRow>, c: ChainId)
    ensures c in Ids(rows) <==> exists row :: row in rows && row.chainId == c
  {
    IdsAt(rows);
    if c in Ids(rows) {
      var n :| 0 <= n < |rows| && Ids(rows)[n] == c;
      assert rows[n] in rows;
    }
    forall row | row in rows && row.chainId == c ensures c in Ids(rows) {
      var n :| 0 <= n < |rows| && rows[n] == row;
      assert Ids(rows)[n] == c;
    }
  }

  lemma LatestAfter(history: seq<Snapshot>, s: Snapshot, date: Date, c: ChainId)
    ensures Latest(history + [s], date, c)
            == if s.date == date && s.chainId == c then Some(s.values) else Latest(history, date, c)
    ensures LastCanonical(history + [s], date)
            == if s.date == date && s.chainId == ETHEREUM then s.canonical else LastCanonical(history, date)
    ensures After(history + [s]) == Update(After(history), s)
  {
    assert (history + [s])[..|history|] == history;
  }

  /** The rebuilt rows are exactly the latest rows of all chains, the writer's included. */
  lemma RebuiltRows(history: seq<Snapshot>, s: Snapshot)
    requires ReadsBack(After(history), s)
    ensures Lists(history + [s], s.date, Ids(Rebuilt(s)))
    ensures SumRows(Rebuilt(s)) == SumLatest(history + [s], s.date, Ids(Rebuilt(s)))
  {
    var own, rows, longer := ChainRow(s.chainId, s.values), Rebuilt(s), history + [s];
    RebuiltMembers(s);
    forall row | row in rows ensures Latest(longer, s.date, row.chainId) == Some(row.values) {
      RowsAreLatest(history, s.date, row.chainId);
      LatestAfter(history, s, s.date, row.chainId);
    }
    forall c ensures c in Ids(rows) <==> Latest(longer, s.date, c).Some? {
      RowsAreLatest(history, s.date, c);
      LatestAfter(history, s, s.date, c);
      IdsMembers(rows, c);
      assert own in rows;
      if c != s.chainId && (s.date, c) in After(history).rows {
        assert ChainRow(c, After(history).rows[(s.date, c)]) in rows;
      }
    }
    SumOfLatest(longer, s.date, rows);
  }

  /** The additive fields are the sum over all chains with a row, the canonical ones the last Ethereum write or zero. */
  ghost predicate SourcesConsistent(history: seq<Snapshot>, date: Date, g: Global) {
    && Lists(history, date, g.chainsIndexed)
    && g.values == SumLatest(history, date, g.chainsIndexed)
    && (g.complete <==> Latest(history, date, ARBITRUM).Some? && Latest(history, date, ETHEREUM).Some?)
    && g.canonical == LastCanonical(history, date)
  }

  /** The derived fields follow from the row's own additive, canonical and index fields. */
  predicate DerivedConsistent(g: Global) {
    && g.gOhmPrice == g.canonical.ohmPrice * g.ohmIndex
    && g.sOhmTotalValueLocked == g.canonical.sOhmCirculating * g.canonical.ohmPrice
    && g.ratios == DerivedRatios(g.values, g.canonical.ohmPrice, g.ohmIndex)
  }

  lemma {:induction false} SumLatestOtherDate(history: seq<Snapshot>, s: Snapshot, date: Date, ids: seq<ChainId>)
    requires s.date != date
    ensures SumLatest(history + [s], date, ids) == SumLatest(history, date, ids)
  {
    if ids == [] {
    } else {
      SumLatestOtherDate(history, s, date, ids[..|ids| - 1]);
      assert (history + [s])[..|history|] == history;
    }
  }

  lemma {:induction false} NoWrites(history: seq<Snapshot>, date: Date)
    requires date !in After(history).globals
    ensures LastCanonical(history, date) == NO_CANONICAL
  {
    if history == [] {
    } else {
      NoWrites(history[..|history| - 1], date);
    }
  }

  /** A snapshot leaves its own date's global row consistent. */
  lemma WrittenDate(before: seq<Snapshot>, s: Snapshot)
    requires ReadsBack(After(before), s)
    requires s.date in After(before).globals ==>
             After(before).globals[s.date].canonical == LastCanonical(before, s.date)
    ensures SourcesConsistent(before + [s], s.date, After(before + [s]).globals[s.date])
  {
    RebuiltRows(before, s);
    LatestAfter(before, s, s.date, ETHEREUM);
    if s.date !in After(before).globals {
      NoWrites(before, s.date);
    }
  }

  /** A snapshot of another date leaves a consistent global row consistent. */
  lemma OtherDate(before: seq<Snapshot>, s: Snapshot, date: Date, g: Global)
    requires s.date != date && SourcesConsistent(before, date, g)
    ensures SourcesConsistent(before + [s], date, g)
  {
    SumLatestOtherDate(before, s, date, g.chainsIndexed);
    forall c ensures Latest(before + [s], date, c) == Latest(before, date, c) {
      LatestAfter(before, s, date, c);
    }
    LatestAfter(before, s, date, ETHEREUM);
  }

  lemma DerivedOf(values: Values, ids: seq<ChainId>, canonical: Canonical, index: real)
    ensures DerivedConsistent(WithDerived(values, ids, canonical, index))
  {
  }

  lemma {:induction false} DerivedInvariant(history: seq<Snapshot>, date: Date)
    requires date in After(history).globals
    ensures DerivedConsistent(After(history).globals[date])
  {
    var n := |history| - 1;
    var s := history[n];
    if date != s.date {
      DerivedInvariant(history[..n], date);
    } else {
      var g := After(history).globals[date];
      DerivedOf(g.values, g.chainsIndexed, g.canonical, s.index);
    }
  }

  ghost predicate SourcesAt(history: seq<Snapshot>, date: Date) {
    date in After(history).globals ==> SourcesConsistent(history, date, After(history).globals[date])
  }

  lemma SourcesStep(before: seq<Snapshot>, s: Snapshot, date: Date)
    requires ReadsBack(After(before), s) && SourcesAt(before, date)
    ensures SourcesAt(before + [s], date)
  {
    LatestAfter(before, s, date, ETHEREUM);
    if s.date == date {
      WrittenDate(before, s);
    } else if date in After(before).globals {
      OtherDate(before, s, date, After(before).globals[date]);
    }
  }

  lemma LastStep(history: seq<Snapshot>, before: seq<Snapshot>, s: Snapshot, date: Date)
    requires history == before + [s] && ReadsBack(After(before), s) && SourcesAt(before, date)
    ensures SourcesAt(history, date)
  {
    SourcesStep(before, s, date);
  }

  lemma {:induction false} SourcesInvariant(history: seq<Snapshot>, date: Date)
    requires ValidHistory(history)
    ensures SourcesAt(history, date)
  {
    if history == [] {
    } else {
      var before, s := history[..|history| - 1], history[|history| - 1];
      SourcesInvariant(before, date);
      LastStep(history, before, s, date);
    }
  }

  /**
   After any interleaving of chain snapshots, every date's global row has additive fields equal to the
   sum of the latest per-chain rows, canonical fields equal to the last Ethereum write or zero, and
   derived fields consistent with both, however the writers' own rows were read back.
   */
  lemma RollupInvariant(history: seq<Snapshot>, date: Date)
    requires ValidHistory(history) && date in After(history).globals
    ensures SourcesConsistent(history, date, After(history).globals[date])
            && DerivedConsistent(After(history).globals[date])
  {
    SourcesInvariant(history, date);
    DerivedInvariant(history, date);
  }

  /** The missing chains are those of all chains that have written nothing for the date. */
  lemma MissingChains(history: seq<Snapshot>, date: Date, c: ChainId)
    requires ValidHistory(history) && date in After(history).globals
    ensures c in Missing(ALL_CHAINS, After(history).globals[date].chainsIndexed)
            <==> c in ALL_CHAINS && Latest(history, date, c).None?
  {
    SourcesInvariant(history, date);
  }

  function LatestOr(history: seq<Snapshot>, date: Date, c: ChainId): Values {
    var latest := Latest(history, date, c);
    if latest.Some? then latest.value else NOTHING
  }

  lemma SumLatestAppend(history: seq<Snapshot>, date: Date, ids: seq<ChainId>, c: ChainId)
    ensures SumLatest(history, date, ids + [c]) == Plus(SumLatest(history, date, ids), LatestOr(history, date, c))
  {
    assert (ids + [c])[..|ids|] == ids;
  }

  lemma PlusSwap(a: Values, b: Values, c: Values)
    ensures Plus(Plus(a, b), c) == Plus(Plus(a, c), b)
  {
  }

  /** `ids` with its last occurrence of `c` taken out. */
  function Without(ids: seq<ChainId>, c: ChainId): seq<ChainId> {
    if ids == [] then []
    else
      var front, last := ids[..|ids| - 1], ids[|ids| - 1];
      if last == c then front else Without(front, c) + [last]
  }

  lemma {:induction false} WithoutMembers(ids: seq<ChainId>, c: ChainId)
    requires Distinct(ids)
    ensures Distinct(Without(ids, c)) && forall d :: d in Without(ids, c) <==> d in ids && d != c
    ensures c in ids ==> |Without(ids, c)| == |ids| - 1
  {
    if ids == [] {
    } else {
      var k := |ids| - 1;
      assert ids == ids[..k] + [ids[k]];
      WithoutMembers(ids[..k], c);
      assert ids[k] !in ids[..k];
    }
  }

  lemma {:induction false} SumWithout(history: seq<Snapshot>, date: Date, ids: seq<ChainId>, c: ChainId)
    requires c in ids
    ensures SumLatest(history, date, ids) == Plus(SumLatest(history, date, Without(ids, c)), LatestOr(history, date, c))
  {
    var front, last := ids[..|ids| - 1], ids[|ids| - 1];
    if last != c {
      SumWithout(history, date, front, c);
      SumWithoutLast(history, date, front, last, c);
    }
  }

  lemma SumWithoutLast(history: seq<Snapshot>, date: Date, front: seq<ChainId>, last: ChainId, c: ChainId)
    requires SumLatest(history, date, front)
             == Plus(SumLatest(history, date, Without(front, c)), LatestOr(history, date, c))
    ensures Plus(SumLatest(history, date, front), LatestOr(history, date, last))
            == Plus(SumLatest(history, date, Without(front, c) + [last]), LatestOr(history, date, c))
  {
    SumLatestAppend(history, date, Without(front, c), last);
    PlusSwap(SumLatest(history, date, Without(front, c)), LatestOr(history, date, c), LatestOr(history, date, last));
  }

  /** The sum does not depend on the order in which the chains are listed. */
  lemma {:induction false} SumLatestAnyOrder(history: seq<Snapshot>, date: Date, a: seq<ChainId>, b: seq<ChainId>)
    requires Distinct(a) && Distinct(b) && forall c :: c in a <==> c in b
    ensures SumLatest(history, date, a) == SumLatest(history, date, b)
    decreases |a| + |b|
  {
    if a != [] || b != [] {
      var c := if a != [] then a[|a| - 1] else b[|b| - 1];
      assert c in a || c in b;
      WithoutMembers(a, c);
      WithoutMembers(b, c);
      SumLatestAnyOrder(history, date, Without(a, c), Without(b, c));
      SumWithout(history, date, a, c);
      SumWithout(history, date, b, c);
    }
  }

  // ---------- Category rows ----------

  /** The category rows after a history of snapshots. */
  function AllCategories(history: seq<Snapshot>): map<CategoryId, Bucket> {
    if history == [] then map[]
    else
      var last := history[|history| - 1];
      WithCategories(AllCategories(history[..|history| - 1]), last.date, last.chainId, last.buckets)
  }

  /** The category as the chain's last snapshot of the date that had it left it. */
  function LatestCategory(history: seq<Snapshot>, date: Date, c: ChainId, kind: SupplyType): Option<Bucket> {
    if history == [] then None
    else
      var last := history[|history| - 1];
      if last.date == date && last.chainId == c && kind in last.buckets then Some(last.buckets[kind])
      else LatestCategory(history[..|history| - 1], date, c, kind)
  }

  /** Some snapshot of the chain and date had the category. */
  predicate HadCategory(history: seq<Snapshot>, date: Date, c: ChainId, kind: SupplyType) {
    exists s :: s in history && s.date == date && s.chainId == c && kind in s.buckets
  }

  lemma HadBefore(history: seq<Snapshot>, date: Date, c: ChainId, kind: SupplyType)
    requires history != []
    ensures var last := history[|history| - 1];
            HadCategory(history, date, c, kind)
            <==> (last.date == date && last.chainId == c && kind in last.buckets)
                 || HadCategory(history[..|history| - 1], date, c, kind)
  {
    assert history == history[..|history| - 1] + [history[|history| - 1]];
  }

  /** A stored category row is the chain's last write of it. */
  lemma {:induction false} CategoriesAreLatest(history: seq<Snapshot>, date: Date, c: ChainId, kind: SupplyType)
    ensures (date, c, kind) in AllCategories(history) <==> HadCategory(history, date, c, kind)
    ensures LatestCategory(history, date, c, kind).Some? <==> HadCategory(history, date, c, kind)
    ensures (date, c, kind) in AllCategories(history) ==>
              Some(AllCategories(history)[(date, c, kind)]) == LatestCategory(history, date, c, kind)
  {
    if history == [] {
    } else {
      HadBefore(history, date, c, kind);
      CategoriesAreLatest(history[..|history| - 1], date, c, kind);
    }
  }

  /** The supply categories of the chain's last snapshot of the date. */
  function LatestBuckets(history: seq<Snapshot>, date: Date, c: ChainId): map<SupplyType, Bucket> {
    if history == [] then map[]
    else
      var last := history[|history| - 1];
      if last.date == date && last.chainId == c then last.buckets else LatestBuckets(history[..|history| - 1], date, c)
  }

  lemma {:induction false} LatestBucketsLatest(history: seq<Snapshot>, date: Date, c: ChainId, kind: SupplyType)
    requires kind in LatestBuckets(history, date, c)
    ensures LatestCategory(history, date, c, kind) == Some(LatestBuckets(history, date, c)[kind])
  {
    var last := history[|history| - 1];
    if last.date == date && last.chainId == c {
    } else {
      LatestBucketsLatest(history[..|history| - 1], date, c, kind);
    }
  }

  /**
   The rows of a chain and date are the categories of its last snapshot if and only if no category it had
   earlier that day has disappeared: a disappeared one is never cleared.
   */
  lemma CategoriesCurrentExact(history: seq<Snapshot>, date: Date, c: ChainId)
    ensures (forall kind :: (date, c, kind) in AllCategories(history) <==> kind in LatestBuckets(history, date, c))
            <==> forall kind :: HadCategory(history, date, c, kind) ==> kind in LatestBuckets(history, date, c)
    ensures forall kind :: kind in LatestBuckets(history, date, c) ==>
              (date, c, kind) in AllCategories(history)
              && AllCategories(history)[(date, c, kind)] == LatestBuckets(history, date, c)[kind]
  {
    forall kind
      ensures (date, c, kind) in AllCategories(history) <==> HadCategory(history, date, c, kind)
      ensures kind in LatestBuckets(history, date, c) ==>
                (date, c, kind) in AllCategories(history)
                && AllCategories(history)[(date, c, kind)] == LatestBuckets(history, date, c)[kind]
    {
      CategoriesAreLatest(history, date, c, kind);
      if kind in LatestBuckets(history, date, c) {
        LatestBucketsLatest(history, date, c, kind);
      }
    }
  }
}
