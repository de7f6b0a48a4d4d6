# Verification of the treasury indexer, publisher, API and client

This project models the four parts of the repository that carry state or hard arithmetic, and proves what
each of them keeps over all inputs, runs and interleavings.

1. **Pricing** (`PriceHandlers`, `PriceRouter`, `PricingCache`, `PriceTermination`, `PriceFailures`,
   `PriceProperties`, `PriceParity`, `PriceOrder`). `derivePrice` searches the liquidity handlers of a token
   depth-first; handlers look other tokens up through a callback, and `cachedPricingLookup` memoises every key and
   answers zero for a key that is already on the stack. `PriceHandlers` transcribes the handlers of `apps/indexer/src/pricing/` in
   eleven kinds (the source's `univ3-quoter` shares `Univ3`) as the list of keys a handler asks for (`Asks`) and
   what it does with the answers (`Verdict`). `PriceRouter` holds the memoised recursion (`Lookup`, `Derive`,
   `Scan`, `Run`) beside the recursion without a cache (`Plain`). `PriceFailures` adds outside calls that throw at
   any moment, and `PricingCache` the mutable cache whose methods are proved equal to that. Termination on cyclic
   pools comes from the keys not in flight; `PriceTermination` says exactly when the recursion terminates without
   the cache.
2. **Publishing and reading** (`Calendar`, `DatedRows`, `Publisher`, `PublisherRun`, `PublisherGaps`,
   `PublisherHistories`, `PublisherLock`, `PublisherInterleaving`, `ArtifactStore`, `MetricsApi`, `MetricsRoutes`).
   A run turns source rows into month shards, replaces the manifest last, and then deletes the shards of other
   deployments. A history is any sequence of runs that succeed, skip, or crash after any number of store
   operations. The lock is a separate machine in which any number of runs interleave at every conditional write;
   `PublisherInterleaving` puts both together and derives sequential histories from runs that keep to their leases.
   `MetricsRoutes` holds the routes the client pages through.
3. **Event ledgers** (`Erc20Ledger`, `TokenBackfill`, `ClampedAccumulators`, `BalancerPools`). Folds over filtered
   events are compared with the full on-chain history they stand for.
4. **Snapshot arithmetic** (`GlobalRollup`, `BondSupply`, `OwnedLiquidity`, `ConcentratedLiquidity`), over exact
   reals, and over rounded divisions where a bound is stated.

Every class method is proved against a specification of its new state in terms of the old; the lemmas are about those
specifications. Names follow the source.

## Where the code does not do what its callers might expect

Each of these is a theorem. Where a guard separates the good inputs from the bad ones, it is stated as an if and
only if over all inputs.

- Without `withPricingCache` a lookup terminates exactly when all chains of lookups that live handlers really make
  are finite (`PriceTermination.TerminatesExactly`); a ring of three pools is never priced, at any recursion depth
  (`PriceTermination.RingNeverTerminates`). Inside `withPricingCache` every lookup terminates.
- The comment at apps/indexer/src/pricing/index.ts:222-226 says that the zero a cycle contributes is just ignored. It
  is not: a value computed above a cut stays cached, so on a cyclic table the price of a key depends on what was
  looked up before it (`PriceOrder.LookupOrderMatters`). Keys on which the plain recursion terminates are never
  affected, whatever cycles the rest of the table has (`PriceTermination.SnapshotPricesShallowKeys`).
- `monthKeysForRange` returns the months of a range only from year 100 on, because `Date.UTC` moves years below 100
  to the twentieth century (`Calendar.MonthKeysExact`).
- Date overrides can publish a manifest with missing months. For every combination of overrides, on a known
  deployment or at a handover, `PublisherGaps.NoGapExactly` says from the run's dates and the previous manifest's
  when they do.
- Date overrides can also overwrite a whole month's shard with part of it; a written shard is right exactly if the
  range cuts off none of its rows (`PublisherHistories.FreshShardExact`), and
  `PublisherHistories.CompletedRunShardsExact` says when a whole run leaves all published shards right.
- Deleting the lock without an entity tag is harmful exactly if it hits the lock of another run that holds it
  within its lease. Without such a delete mutual exclusion lasts in every interleaving, however late the other
  deletes come (`PublisherLock.LeaseMutualExclusion`); after any such delete the next run to start holds the lock
  within the same unexpired lease (`PublisherLock.HarmfulDeleteBreaksExclusion`). It does happen
  (`PublisherLock.BlindReleaseBreaksExclusion`).
- A lock that a crashed run has left behind is never taken over, even after its lease, while the store returns no
  entity tag with it: apps/metrics-publisher/src/publisher.ts:521-524 then puts the new lock only if there is none
  (`PublisherLock.UninterruptedAcquire`).
- The comment at apps/indexer/src/handlers/Lender.ts:27-28 means to keep deployments that arrived before `AMOAdded`;
  they are dropped, so five OHM minted to a lender before it is added are never stored
  (`ClampedAccumulators.EarlyDeploymentLost`). `ClampedAccumulators.RegisteredLendersExact` says exactly when the
  stored amount is what all deployments would have led to.
- A supply category that disappears within a day is never cleared (`GlobalRollup.CategoriesCurrentExact`).
- A tracked wallet's nonzero transfer to itself loses its debit row in the update log, though the balance is right
  (`Erc20Ledger.LogExplainsTreasuryExact`, `Erc20Ledger.LogExplainsLpExact`).
- With no wallets on a chain the LP filter drops mints and burns too, so the supply stays zero
  (`Erc20Ledger.LpSupplyExact`).
- A pair that the backfill does not seed exactly once has the true balance only if it started at zero
  (`TokenBackfill.BackfillExact`).
- A Balancer seed taken in a block with later pool events counts those events twice, unless they cancel out
  (`BalancerPools.TrackedFromSeedExact`).
- While nothing has vested, bond rows sum to all vesting deposits, even beyond the bond manager's balance
  (`BondSupply.BondConservationExact`).

## Model

| member | source | states |
|---|---|---|
| `PriceRouter.BestIsLastGreatest` | apps/indexer/src/pricing/index.ts:127-131 | a derivation returns the last of the quotes with greatest liquidity, and that index is unique |
| `PriceRouter.MentionedTokensClosed` | apps/indexer/src/pricing/index.ts:121-125 | the tokens to be priced plus all tokens that handlers and pool states name are closed under lookups, so every configuration has a finite key set |
| `PriceRouter.Lookup` | apps/indexer/src/pricing/index.ts:212-252 | a lookup terminates on any cyclic pool graph (the keys not in flight shrink) and leaves the in-flight set as it found it |
| `PriceRouter.Scan` | apps/indexer/src/pricing/index.ts:101-130 | the handler loop terminates within a lookup and restores the in-flight set |
| `PriceRouter.Run` | apps/indexer/src/pricing/types.ts:18-31 | a handler's sequence of callbacks terminates within a lookup and restores the in-flight set |
| `PriceRouter.PlainMono` | apps/indexer/src/pricing/index.ts:84-132 | the recursion without a cache has one value: a deeper cut-off changes nothing once it terminates |
| `PriceRouter.NoCycleBeneath` | apps/indexer/src/pricing/index.ts:222-236 | the cycle fallback never answers for a key whose plain recursion terminates |
| `PriceRouter.MemoAgrees` | apps/indexer/src/pricing/index.ts:212-252 | from any agreeing cache and any stack, the memoised lookup returns the plain value wherever plain recursion terminates, even when the rest of the graph is cyclic, and leaves an agreeing cache |
| `PriceRouter.ScanAgrees` | apps/indexer/src/pricing/index.ts:101-130 | the same for the handler loop from any handler on |
| `PriceRouter.RunAgrees` | apps/indexer/src/pricing/index.ts:121-126 | the same for one handler from any received answers on |
| `PriceTermination.GoesOn` | apps/indexer/src/pricing/index.ts:121-126 | a live handler goes on to look its keys up until all are answered or a Balancer spot price is settled |
| `PriceTermination.TerminatesExactly` | apps/indexer/src/pricing/index.ts:217-218 | without the cache the recursion from a key terminates within depth n if and only if all chains of lookups that live handlers really make from it are shorter than n, in every table |
| `PriceTermination.WellFoundedIsShallow` | apps/indexer/src/pricing/index.ts:101-126 | it terminates on every key whose live lookup graph, told from configuration and pool state, is well-founded |
| `PriceTermination.TerminatesExactlyWhenWellFounded` | apps/indexer/src/pricing/balancer.ts:77-104 | where Balancer pools have two tokens or lack reserves, it terminates if and only if the live graph is well-founded |
| `PriceRouter.SnapshotAgrees` | apps/indexer/src/pricing/index.ts:58-67 | after any lookups of a snapshot its cache agrees with plain recursion |
| `PriceTermination.SnapshotPricesShallowKeys` | apps/indexer/src/pricing/index.ts:84-132 | after any lookups of a snapshot, a key on which plain recursion terminates gets exactly its plain price |
| `PriceRouter.LookupConsistent` | apps/indexer/src/pricing/index.ts:234-251 | a lookup derives only keys never derived before, keeps cached values and caches its own result |
| `PriceRouter.DerivationsBounded` | apps/indexer/src/pricing/index.ts:238-251 | over a snapshot no key is derived twice, so at most tokens × (handlers + 1) derivations start |
| `PricingCache.PricingCacheStore.GetPrice` | apps/indexer/src/pricing/index.ts:212-252 | the cache-mutating lookup returns or rejects as `Attempt` does and leaves its cache and in-flight set, a rejected key uncached; when it returns, these are those of `Lookup` |
| `PricingCache.PricingCacheStore.DerivePrice` | apps/indexer/src/pricing/index.ts:84-132 | the loop that keeps a running `selected` quote, and stops when a handler throws, gives the result and store of `AttemptDerive` |
| `PricingCache.PricingCacheStore.HandlerPrice` | apps/indexer/src/pricing/index.ts:121-126 | the callback loop of a handler, left when a call throws, gives the quote and store of `AttemptRun` |
| `PriceFailures.SuccessIsLookup` | apps/indexer/src/pricing/index.ts:238-251 | whatever outside calls throw and when, a lookup that is not rejected gives the value and the cache of the lookup without failures |
| `PriceFailures.AttemptKeeps` | apps/indexer/src/pricing/index.ts:242-250 | whatever throws, no cached quote is lost or changed, no key is cached and in flight at once, and the key looked up ends up cached exactly on success |
| `PriceFailures.AttemptAgrees` | apps/indexer/src/pricing/index.ts:242-250 | a rejected lookup too, within any stack, leaves a cache that agrees with plain recursion |
| `PriceFailures.OutagesNeverMisprice` | apps/indexer/src/pricing/index.ts:242-249 | after any lookups under any outages, a key on which plain recursion terminates gets its plain price or is rejected |
| `PriceFailures.OverThenAnswered` | apps/indexer/src/pricing/index.ts:238-251 | once no outside call throws any more, no lookup is rejected |
| `PriceFailures.RetryRecovers` | apps/indexer/src/pricing/index.ts:242-249 | once the outages are over, a retry gives every key on which plain recursion terminates its plain price, however many lookups were rejected before |
| `PriceProperties.LookupKeeps` | apps/indexer/src/pricing/index.ts:212-252 | any property of quotes that handlers keep holds of every lookup and every cached quote, for any cycles and cache contents |
| `PriceProperties.UnanchoredHandlerIsSilent` | apps/indexer/src/pricing/univ2.ts:39-45 | every handler kind but the anchors answers null when all the prices it learns are zero |
| `PriceProperties.NoPriceWithoutAnchor` | apps/indexer/src/pricing/index.ts:101-131 | a token set without an active stable handler or nonzero feed answer, closed under lookups, is priced zero for any cycles, pool states and consistent cache |
| `PriceProperties.NonNegativeHandler` | apps/indexer/src/pricing/balancer.ts:46-127 | from nonnegative state and prices every handler kind quotes a nonnegative price |
| `PriceProperties.PricesNonNegative` | apps/indexer/src/pricing/index.ts:101-131 | with nonnegative state and feed answers no lookup gives a negative price |
| `PriceProperties.DirectionsReciprocal` | apps/indexer/src/pricing/kodiak.ts:25-44 | the Uniswap v3 and Kodiak adjustments agree, and the prices of the two directions multiply to one |
| `PriceTermination.FirstLookupStuck` | apps/indexer/src/pricing/index.ts:121-126 | a key whose first lookup never terminates never terminates itself |
| `PriceTermination.RingNeverTerminates` | apps/indexer/src/pricing/index.ts:217-218 | without the cache a ring of three pools with known reserves exceeds every recursion depth |
| `PriceOrder.OhmLookup` | apps/indexer/src/pricing/index.ts:101-131 | of the cyclic table: OHM costs what HONEY's lookup beneath it gives, or a dollar when that is cut |
| `PriceOrder.LookupOrderMatters` | apps/indexer/src/pricing/index.ts:222-251 | on a concrete cyclic table one key of one snapshot is priced five dollars when looked up first and one dollar after another key |
| `PriceParity.PairValueParity` | apps/indexer/src/pricing/univ2.ts:36-56 | a quote exists exactly when both reserves and the other price are nonzero; at it both sides of the pool are worth the liquidity |
| `PriceParity.PairRoundTrip` | apps/indexer/src/pricing/univ2.ts:47-49 | pricing one token through a pair and the other one back returns the price put in |
| `PriceParity.AdjustedPriceScales` | apps/indexer/src/pricing/univ3.ts:21-35 | the adjusted price is the raw one times 10^decimals0 / 10^decimals1, whichever is larger |
| `PriceParity.WeightedValueParity` | apps/indexer/src/pricing/balancer.ts:77-103 | a quote exists exactly when both reserves and the other price are nonzero; at it each leg holds its weight's share of the liquidity |
| `PriceParity.LegsAreWorthTheirWeights` | apps/indexer/src/pricing/balancer.ts:116-126 | legs that hold their weights' shares of a value are together worth their total weight's share |
| `PriceParity.LiquidityIsWholePool` | apps/indexer/src/pricing/balancer.ts:96-101 | with weights summing to one, all legs of a pool, priced by its own quotes against one leg of known price, are together worth the liquidity each of those quotes reports |
| `PriceParity.SharesAreWorthThePool` | apps/indexer/src/pricing/curve.ts:45-51 | an LP quote exists exactly when pool value and supply are nonzero; all shares at it are worth the pool |
| `PriceHandlers.ToDecimal` | apps/indexer/src/snapshot/math.ts:61-63 | scaling keeps the sign and is zero only for zero |
| `Calendar.MonthUnique` | packages/metrics-artifacts/src/date-ranges.ts:52-65 | a day lies in exactly one month |
| `Calendar.ParseFormat` | packages/metrics-artifacts/src/date-ranges.ts:11-24 | parsing undoes formatting on every day of years 0 to 9999 |
| `Calendar.ParseAcceptsRealDates` | packages/metrics-artifacts/src/date-ranges.ts:11-20 | exactly the texts of real dates parse, and formatting undoes parsing |
| `Calendar.StringOrderIsChronological` | apps/metrics-publisher/src/publisher.ts:633-639 | string order and equality of dates are those of days |
| `Calendar.MonthPrefix` | apps/metrics-publisher/src/publisher.ts:264-267 | a date starts with a month key exactly when it lies in that month |
| `Calendar.MonthKeysForRange` | packages/metrics-artifacts/src/date-ranges.ts:52-65 | fails exactly on unparsable dates and otherwise gives the contiguous increasing month keys between the UTC months |
| `Calendar.KeysBetween` | packages/metrics-artifacts/src/date-ranges.ts:55-64 | the cursor loop gives one key per month, in order, without gaps |
| `Calendar.MonthKeysExact` | packages/metrics-artifacts/src/date-ranges.ts:55-56 | the keys are the months of the range if and only if it starts in year 100 or later |
| `Calendar.MonthsPartition` | packages/metrics-artifacts/src/date-ranges.ts:52-65 | each day of a range lies in exactly one of its months |
| `Calendar.SplitRange` | apps/client/src/client.ts:264-289 | succeeds exactly for a positive limit and an ordered pair of dates, returns the chunks, and the API accepts each |
| `Calendar.SplitDays` | apps/client/src/client.ts:279-288 | the cursor loop gives exactly the chunks |
| `Calendar.ChunksTile` | apps/client/src/client.ts:279-288 | chunks are consecutive, nonempty, within the limit, and cover the range exactly |
| `Calendar.ChunksAccepted` | packages/metrics-artifacts/src/date-ranges.ts:26-50 | each chunk passes the API's range check with the same limit |
| `DatedRows.WindowWindow` | apps/metrics-api/src/server.ts:266-268 | selecting rows by two ranges selects by their intersection |
| `DatedRows.WindowSplit` | apps/metrics-api/src/server.ts:281-287 | adjacent ranges of date-ordered rows concatenate to the whole, none lost, repeated or moved |
| `DatedRows.WindowCutExact` | apps/metrics-publisher/src/publisher.ts:264-267 | cutting rows down to a range changes nothing if and only if it cuts no row off |
| `Publisher.HasMissingDailyMetrics` | apps/metrics-publisher/src/publisher.ts:487-498 | true exactly when some day of the range has no metric row |
| `Publisher.WrittenKey` | apps/metrics-publisher/src/publisher.ts:257-276 | a run writes exactly the schemas and its own three shards of each month of the range |
| `Publisher.AfterPuts` | apps/metrics-publisher/src/publisher.ts:251-276 | after any number of uploads the manifest is untouched and each object is the old one or the uploaded month |
| `Publisher.AfterDeletes` | apps/metrics-publisher/src/publisher.ts:422-433 | deleting removes exactly the listed keys and changes nothing else |
| `Publisher.AfterManifest` | apps/metrics-publisher/src/publisher.ts:278-302 | when the manifest is out, everything it was built from has been uploaded |
| `Publisher.CleanupKeeps` | apps/metrics-publisher/src/publisher.ts:422-433 | deleting stale shards keeps all uploads and the manifest |
| `Publisher.Stages` | apps/metrics-publisher/src/publisher.ts:247-303 | at every step a run either leaves the old manifest in force or has everything its new manifest needs |
| `PublisherRun.ArtifactBucket.PublishMetricsArtifacts` | apps/metrics-publisher/src/publisher.ts:182-303 | a run publishes exactly when the plan does, its cleanup lists the stale keys, and it leaves the planned store |
| `PublisherRun.ArtifactBucket.WriteAll` | apps/metrics-publisher/src/publisher.ts:247-303 | uploads, then the manifest, then the cleanup, as planned |
| `PublisherRun.ArtifactBucket.UploadShards` | apps/metrics-publisher/src/publisher.ts:249-276 | the month loop performs the planned uploads and accumulates their artifact table on the old manifest's |
| `PublisherRun.ArtifactBucket.WriteArtifact` | apps/metrics-publisher/src/publisher.ts:251-255 | one upload writes the object and its table entry |
| `PublisherRun.ArtifactBucket.StaleListing` | apps/metrics-publisher/src/publisher.ts:426-428 | finds exactly the stored shards of other deployments |
| `PublisherRun.ArtifactBucket.DeleteAll` | apps/metrics-publisher/src/publisher.ts:429-431 | deletes the stale keys one by one |
| `PublisherRun.PrunedTable` | apps/metrics-publisher/src/publisher.ts:286-299 | pruning the accumulated table gives the planned manifest's artifacts |
| `PublisherRun.TableEntries` | apps/metrics-publisher/src/publisher.ts:249-254 | the table holds the old entries and one matching entry per upload |
| `PublisherHistories.DefaultRange` | apps/metrics-publisher/src/publisher.ts:383-409 | a default-date run starts at the public start or at a month start no later than the first unpublished month |
| `PublisherGaps.Listed` | apps/metrics-publisher/src/publisher.ts:278-299 | the new manifest lists a shard of one of its months exactly if the run writes it or the same deployment had it |
| `PublisherGaps.NewMonths` | apps/metrics-publisher/src/publisher.ts:278-285 | the first and last month of the new manifest, from the run's dates, the public start, the newest complete date and the previous manifest's dates |
| `PublisherGaps.NoGapExactly` | apps/metrics-publisher/src/publisher.ts:383-409 | for every combination of date overrides and any deployment, the new manifest has no missing month if and only if the run's dates, told before the run from its input and the previous manifest, leave no gap |
| `PublisherGaps.DefaultLeavesNoGap` | apps/metrics-publisher/src/publisher.ts:399-402 | a run without overrides that publishes leaves no gap |
| `PublisherHistories.NewManifestGood` | apps/metrics-publisher/src/publisher.ts:286-301 | the new manifest is complete, its own and backed by existing keys if and only if the dates leave no gap |
| `PublisherHistories.StepKeepsGood` | apps/metrics-publisher/src/publisher.ts:247-303 | every step of a run whose dates leave no gap keeps the manifest complete, its own and backed by existing keys |
| `PublisherHistories.ManifestAlwaysGood` | apps/metrics-publisher/src/publisher.ts:134-318 | after any history of skipped, crashed and completed runs that leave no gap, those without overrides among them, with changing deployments, the manifest lists all three shards of every month from earliest to latest, no other deployment's or month's, and only existing keys |
| `PublisherHistories.CompletedRunGoodExactly` | apps/metrics-publisher/src/publisher.ts:278-303 | a completed run keeps the manifest good if and only if its dates leave no gap |
| `PublisherHistories.RunToTheEnd` | apps/metrics-publisher/src/publisher.ts:301-303 | a completed run leaves its manifest and no stale shard |
| `PublisherHistories.CompletedRun` | apps/metrics-publisher/src/publisher.ts:301-303 | a completed run removes exactly the other deployments' shards, and the manifest's hashes match all it wrote |
| `PublisherHistories.FreshShardExact` | apps/metrics-publisher/src/publisher.ts:264-276 | a shard as any run writes it holds the final rows of its month's published days if and only if the range cuts none of them off |
| `PublisherHistories.CompletedRunShardsExact` | apps/metrics-publisher/src/publisher.ts:247-303 | whatever dates it overrides, a completed run over final rows leaves all published shards correct if and only if its dates leave no gap, its first publication does not start late, its range cuts no final row off a shard it writes, and a shard it does not write already holds what is newly published of its month |
| `PublisherHistories.DefaultCutsNoMonth` | apps/metrics-publisher/src/publisher.ts:399-402 | a run without overrides cuts no month short |
| `PublisherHistories.WrittenShardTrue` | apps/metrics-publisher/src/publisher.ts:264-276 | a run that cuts no month short writes correct shards, for the manifest before it and its own |
| `PublisherHistories.OldShardTrue` | apps/metrics-publisher/src/publisher.ts:399-402 | a shard of a fully passed month stays correct when the published dates extend |
| `PublisherHistories.ShardsAlwaysTrue` | apps/metrics-publisher/src/publisher.ts:247-303 | at every step of every history over a source that does not rewrite complete days, overrides included where they leave no gap and cut no month short, the published shards hold the final rows of their months |
| `PublisherHistories.ReadyRunPublishes` | apps/metrics-publisher/src/publisher.ts:182-245 | a default-date run over data that reach the public start, are fresh at a handover and miss no day is never skipped |
| `PublisherHistories.ReadyRunCatchesUp` | apps/metrics-publisher/src/publisher.ts:182-303 | after any history, crashes included, such a run left alone publishes every date from the public start to the newest complete one |
| `PublisherLock.AlwaysValid` | apps/metrics-publisher/src/publisher.ts:505-558 | the lock invariant holds after every interleaving in which no blind delete hits the lock of another run that holds it within its lease |
| `PublisherLock.LeaseMutualExclusion` | apps/metrics-publisher/src/publisher.ts:505-558 | with or without entity tags, in every interleaving without such a harmful delete, when two runs hold the lock at once the lease of the one that wrote first has expired on the true clock |
| `PublisherLock.OnlyOwnLockRemoved` | apps/metrics-publisher/src/publisher.ts:549-558 | after such an interleaving a step replaces only an expired lock and, unless it is a blind delete, removes only its own run's |
| `PublisherLock.BlindDeleteExact` | apps/metrics-publisher/src/publisher.ts:555-557 | a blind delete keeps the lock invariant if and only if it does not find the lock of another run that holds it within its lease |
| `PublisherLock.HarmfulDeleteBreaksExclusion` | apps/metrics-publisher/src/publisher.ts:555-557 | after every interleaving and every such delete, the next run to start holds the lock while the lease of its holder is unexpired |
| `PublisherLock.UninterruptedAcquire` | apps/metrics-publisher/src/publisher.ts:505-534 | a run left alone acquires the lock exactly when it is absent, or expired and read with an entity tag |
| `PublisherLock.BlindReleaseBreaksExclusion` | apps/metrics-publisher/src/publisher.ts:555-557 | without an entity tag a release lets two runs hold unexpired leases at once |
| `PublisherInterleaving.LockAlwaysValid` | apps/metrics-publisher/src/publisher.ts:155-161 | the lock invariant holds in every interleaving of runs that keep to their leases, whatever they do with the store |
| `PublisherInterleaving.OneWriter` | apps/metrics-publisher/src/publisher.ts:505-534 | two runs are never both within their lease |
| `PublisherInterleaving.PlanFromManifest` | apps/metrics-publisher/src/publisher.ts:155-191 | what a run is going to write depends on its input and the manifest it has read before the lock, not on the stored objects |
| `PublisherInterleaving.ActsSequentially` | apps/metrics-publisher/src/publisher.ts:134-318 | interleaved runs that plan and write within their leases, from a manifest that is still the stored one, leave at every step the store of runs made one after another, of which only the last may be unfinished |
| `PublisherInterleaving.LockedManifestAlwaysGood` | apps/metrics-publisher/src/publisher.ts:134-318 | so in every such interleaving of runs that leave no gap the manifest is complete, its own and backed by existing keys |
| `PublisherInterleaving.LockedShardsAlwaysTrue` | apps/metrics-publisher/src/publisher.ts:134-318 | and over a source that does not rewrite complete days the published shards hold the final rows of their months |
| `ArtifactStore.PrefixNamesDeployment` | apps/metrics-publisher/src/publisher.ts:605-616 | a deployment's key prefix matches no key of another deployment, even when one id is a prefix of the other |
| `ArtifactStore.CleanupSparesOnlyOwnShards` | apps/metrics-publisher/src/publisher.ts:422-433 | of the data shards the text comparison selects exactly those of other deployments |
| `ArtifactStore.DataKeyInjective` | apps/metrics-publisher/src/publisher.ts:261-262 | different deployments, kinds or months have different keys |
| `ArtifactStore.InsertedIncreasing` | apps/metrics-publisher/src/artifact-store.ts:76-78 | keeping a listing sorted as strings adds exactly the new key |
| `ArtifactStore.MemoryArtifactStore.PutJson` | apps/metrics-publisher/src/artifact-store.ts:53-56 | writes the object and logs the key, nothing else |
| `ArtifactStore.MemoryArtifactStore.PutJsonIfAbsent` | apps/metrics-publisher/src/artifact-store.ts:58-64 | writes exactly when the key is absent |
| `ArtifactStore.MemoryArtifactStore.PutJsonIfMatch` | apps/metrics-publisher/src/artifact-store.ts:66-73 | writes exactly when the stored object has the entity tag |
| `ArtifactStore.MemoryArtifactStore.ListKeys` | apps/metrics-publisher/src/artifact-store.ts:75-79 | lists exactly the keys with the prefix, in strictly increasing string order |
| `ArtifactStore.MemoryArtifactStore.DeleteJson` | apps/metrics-publisher/src/artifact-store.ts:81-84 | removes the key and logs it |
| `ArtifactStore.MemoryArtifactStore.DeleteJsonIfMatch` | apps/metrics-publisher/src/artifact-store.ts:86-94 | removes exactly when the stored object has the entity tag |
| `ArtifactStore.MemoryArtifactStore.CleanupHistoricalDeploymentArtifacts` | apps/metrics-publisher/src/publisher.ts:422-433 | removes exactly the deployment keys outside the current prefix, keeps all other objects, and returns what it removed |
| `MetricsApi.ReadArtifactRows` | apps/metrics-api/src/server.ts:270-294 | the month loop gives the in-range rows of each month's artifact, in order, missing artifacts as none |
| `MetricsApi.MonthReads` | apps/metrics-api/src/server.ts:317-336 | the read finds the manifest deployment's own shard and returns the final rows of that month in the range |
| `MetricsApi.ReadsFrom` | apps/metrics-api/src/server.ts:280-293 | reading a published range returns exactly the final source rows of the range, in order |
| `MetricsRoutes.ByDateIsLast` | apps/metrics-api/src/server.ts:308-310 | the map of metrics holds a date exactly if some row has it, and then the last such row |
| `MetricsRoutes.SelectedMembers` | apps/metrics-api/src/server.ts:311-314 | a record is served exactly if its day has a metric that names its chain and nonzero block |
| `MetricsRoutes.SelectedWindow` | apps/metrics-api/src/server.ts:311-314 | selecting commutes with taking a range of dates, order kept |
| `MetricsRoutes.SelectedLocally` | apps/metrics-api/src/server.ts:304-314 | selecting among a range's records by the range's metrics is selecting among all of them |
| `MetricsRoutes.SelectedRead` | apps/metrics-api/src/server.ts:296-315 | a request of a records route returns exactly the final records of its dates that their day's metric selects |
| `MetricsRoutes.WindowPages` | apps/client/src/client.ts:212-220 | row pages over chunks of any size concatenate to the rows of the whole range |
| `MetricsRoutes.PublishReadPaginateRecords` | apps/client/src/client.ts:201-221 | after every steady history, and at each step, paginating a records route over any published range gives exactly the source's records that their day's metric selects: none lost, none repeated, in order |
| `MetricsRoutes.EntryMeans` | apps/metrics-api/src/server.ts:401-414 | an entry has a metric exactly on the days that have one, and it is the last of the day with its completeness recomputed |
| `MetricsRoutes.EntryAttaches` | apps/metrics-api/src/server.ts:353-356 | attached are exactly the asset and supply records of the day that its metric selects |
| `MetricsRoutes.EntryInCut` | apps/metrics-api/src/server.ts:391-414 | a day's entry depends only on the rows of that day |
| `MetricsRoutes.DailyRead` | apps/metrics-api/src/server.ts:378-415 | a request of the metrics route returns one entry for each of its days, in order, made from the final rows |
| `MetricsRoutes.EntryPages` | apps/client/src/client.ts:212-220 | entry pages over chunks of any size concatenate to the entries of the whole range |
| `MetricsRoutes.PublishReadPaginateMetrics` | apps/client/src/client.ts:201-221 | after every steady history, and at each step, paginating the metrics route over any published range, with or without records, gives one entry per day, in order, made from the final rows |
| `MetricsApi.LegacyRangeIsIntersection` | apps/metrics-api/src/server.ts:483-507 | a legacy request fails exactly when unordered or too long, and otherwise covers exactly the requested published days |
| `Erc20Ledger.SupplyIsSumOfBalances` | apps/indexer/src/handlers/Erc20Transfers.ts:103-141 | of the on-chain reference: the total supply is the sum of all balances |
| `Erc20Ledger.BurnCovered` | apps/indexer/src/handlers/Erc20Transfers.ts:119-120 | of the on-chain reference: no balance is negative or exceeds the supply |
| `Erc20Ledger.TreasuryLedgerExact` | apps/indexer/src/handlers/Erc20Transfers.ts:151-185 | the filtered events alone give every tracked wallet its true balance |
| `Erc20Ledger.LpStep` | apps/indexer/src/handlers/Erc20Transfers.ts:279-313 | one handled event changes supplies and tracked balances by their on-chain deltas |
| `Erc20Ledger.LpSupplyExact` | apps/indexer/src/handlers/Erc20Transfers.ts:266-313 | from genesis the tracked supply is the true one if and only if there are wallets or the supply is zero |
| `Erc20Ledger.ClampNeverFires` | apps/indexer/src/handlers/Erc20Transfers.ts:119-120 | along a valid history from genesis the supply clamp never fires |
| `Erc20Ledger.LpLedgerExact` | apps/indexer/src/handlers/Erc20Transfers.ts:266-313 | each tracked wallet but the zero address has its true balance |
| `Erc20Ledger.LogExplainsTreasuryExact` | apps/indexer/src/handlers/Erc20Transfers.ts:157-185 | of the treasury handler: an event's update rows explain every tracked balance change if and only if it is not a tracked wallet's nonzero transfer to itself |
| `Erc20Ledger.LogExplainsLpExact` | apps/indexer/src/handlers/Erc20Transfers.ts:279-313 | of the LP and OHM handler: the same, for all tracked wallets but the zero address |
| `Erc20Ledger.LogExplainsSupplyExact` | apps/indexer/src/handlers/Erc20Transfers.ts:124-132 | its supply row explains the supply change if and only if the clamp does not fire and it is not a nonzero transfer from the zero address to itself |
| `Erc20Ledger.Indexer.ApplyTransferToWalletBalance` | apps/indexer/src/handlers/Erc20Transfers.ts:37-78 | changes one balance and writes one update row under its id |
| `Erc20Ledger.Indexer.ApplyMintBurnToSupply` | apps/indexer/src/handlers/Erc20Transfers.ts:103-141 | changes one supply, clamped at zero, and writes one supply update row under its id |
| `Erc20Ledger.Indexer.HandleTreasuryTransfer` | apps/indexer/src/handlers/Erc20Transfers.ts:157-185 | the handler's new state is the ledger step |
| `Erc20Ledger.Indexer.HandleLpTransfer` | apps/indexer/src/handlers/Erc20Transfers.ts:279-313 | the handler's new state is the ledger step |
| `Erc20Ledger.Indexer.IndexLpHistory` | apps/indexer/src/handlers/Erc20Transfers.ts:315-320 | filtering and handling a history gives the ledger of that history |
| `TokenBackfill.Backfill.SeedToken` | apps/indexer/src/handlers/BackfillTokenBalances.ts:94-141 | the wallet loop leaves the balances and update rows of its specification and counts seeded and skipped pairs |
| `TokenBackfill.SeedPairsAdds` | apps/indexer/src/handlers/BackfillTokenBalances.ts:110-116 | each wallet's seed is added once for each time the wallet is listed and nothing else changes |
| `TokenBackfill.SeedPairsLogged` | apps/indexer/src/handlers/BackfillTokenBalances.ts:118-128 | exactly the seeded pairs get an update row, with the seed and the balance it led to |
| `TokenBackfill.Backfill.SeedTokens` | apps/indexer/src/handlers/BackfillTokenBalances.ts:82-142 | the token loop adds to each pair its seed times the number of times it is seeded, and counts as the source does |
| `TokenBackfill.Backfill.RunBackfill` | apps/indexer/src/handlers/BackfillTokenBalances.ts:51-158 | fails without effect exactly on a chain without configuration or before its start block, and otherwise seeds and writes the sentinel with its counts |
| `TokenBackfill.Backfill.OnBlock` | apps/indexer/src/handlers/BackfillTokenBalances.ts:186-190 | the block handler seeds the first time and never again |
| `TokenBackfill.HandledBalance` | apps/indexer/src/handlers/Erc20Transfers.ts:151-320 | whichever handler and filter its token is registered under, an event changes a tracked balance by its on-chain delta |
| `TokenBackfill.RunIsTracked` | apps/indexer/src/handlers/BackfillTokenBalances.ts:110-116 | handlers and backfill together leave the tracked balance at every point of the window |
| `TokenBackfill.BackfillCommutes` | apps/indexer/src/handlers/BackfillTokenBalances.ts:110-116 | wherever the backfill lands and however often its handler fires, the balance is window events plus seeds |
| `TokenBackfill.BackfillExact` | apps/indexer/src/handlers/BackfillTokenBalances.ts:70-142 | after it has fired a balance is the on-chain one if and only if the pair was seeded exactly once or started at zero |
| `TokenBackfill.SeededOnce` | apps/indexer/src/handlers/BackfillTokenBalances.ts:83-94 | without duplicates a pair is seeded once when its token is not native and existed before the window, else never |
| `ClampedAccumulators.StoredClosedForm` | apps/indexer/src/handlers/Staking.ts:45-57 | the stored value is the raw sum less the least prefix sum |
| `ClampedAccumulators.StoredExact` | apps/indexer/src/handlers/Staking.ts:72-84 | it is at least the raw sum, and equal exactly when no prefix went negative |
| `ClampedAccumulators.EachStoresItsOwn` | apps/indexer/src/handlers/Staking.ts:45-57 | interleaved changes of other accumulators do not matter |
| `ClampedAccumulators.RegisteredLenders` | apps/indexer/src/handlers/Erc20Transfers.ts:92-100 | a lender is stored exactly from its first `AMOAdded` or `AMORemoved` on, with its deployments since then, each cut at zero |
| `ClampedAccumulators.StoredAfter` | apps/indexer/src/handlers/Staking.ts:45-57 | more changes lead to the stored value plus their sum, or to what they alone lead to, whichever is greater |
| `ClampedAccumulators.RegisteredLendersExact` | apps/indexer/src/handlers/Erc20Transfers.ts:92-100 | a registered lender stores what all its deployments would have led to if and only if those dropped before its registration would have been used up by the deepest fall since |
| `ClampedAccumulators.EarlyDeploymentLost` | apps/indexer/src/handlers/Lender.ts:14-33 | five OHM minted to a lender that is added afterwards are never stored |
| `ClampedAccumulators.Accumulators.ApplyStakingDelta` | apps/indexer/src/handlers/Staking.ts:45-57 | the handler's new state is the clamped step |
| `ClampedAccumulators.Accumulators.ApplyDeployedOhmDelta` | apps/indexer/src/handlers/Erc20Transfers.ts:92-100 | the handler's new state is the clamped step of a registered lender |
| `ClampedAccumulators.Accumulators.OnAmoAdded` | apps/indexer/src/handlers/Lender.ts:14-33 | registers a lender as active and keeps what it has deployed |
| `ClampedAccumulators.Accumulators.OnAmoRemoved` | apps/indexer/src/handlers/Lender.ts:35-53 | marks a lender as inactive and keeps what it has deployed |
| `BalancerPools.PoolIndexer.OnTokensRegistered` | apps/indexer/src/handlers/BalancerPools.ts:105-128 | starts a pool at zero balances and writes its update row, unless the pool is known |
| `BalancerPools.PoolIndexer.OnPoolBalanceChanged` | apps/indexer/src/handlers/BalancerPools.ts:140-174 | applies the deltas less fees by token position, or keeps the seed of an unknown pool, and writes the update row |
| `BalancerPools.PoolIndexer.OnSwap` | apps/indexer/src/handlers/BalancerPools.ts:186-215 | moves the two amounts by token position, or keeps the seed of an unknown pool, and writes the update row; a swap of a foreign token changes and writes nothing |
| `BalancerPools.PoolIndexer.SetBoth` | apps/indexer/src/handlers/BalancerPools.ts:15-33 | sets the latest state and one immutable row of it under the event's block and log index |
| `BalancerPools.HandledAt` | apps/indexer/src/handlers/BalancerPools.ts:155-163 | a handled event changes each tracked balance by its on-chain effect |
| `BalancerPools.TrackedWithDrift` | apps/indexer/src/handlers/BalancerPools.ts:57-88 | at every later moment the tracked balance is the on-chain one plus a drift fixed by the start |
| `BalancerPools.TrackedFromRegistration` | apps/indexer/src/handlers/BalancerPools.ts:105-128 | from registration the tracked balances are the on-chain ones after every event |
| `BalancerPools.TrackedFromSeedExact` | apps/indexer/src/handlers/BalancerPools.ts:150-153 | from a seed they are if and only if the later events of the seeding block cancel out, so always when it holds one event |
| `GlobalRollup.ComputePerChainAggregate` | apps/indexer/src/snapshot/global.ts:61-148 | bucketing rows by type and adding buckets up gives the one-pass sum of every field, and the buckets are the per-type sums |
| `GlobalRollup.BucketByType` | apps/indexer/src/snapshot/global.ts:92-103 | a bucket exists exactly for each occurring type and holds its sums |
| `GlobalRollup.CategoriesAddUp` | apps/indexer/src/snapshot/global.ts:105-132 | circulating, floating and backed supply are the sums of their types' buckets |
| `GlobalRollup.AggregateAcrossChains` | apps/indexer/src/snapshot/global.ts:182-213 | the loop sums every additive field over the rows, merges their supply categories into the per-category sums, and lists their chains and the missing ones |
| `GlobalRollup.MergeChain` | apps/indexer/src/snapshot/global.ts:201-206 | one chain's categories are added to the sums, a category without a sum starts at zero, and all others stay |
| `GlobalRollup.RatiosMean` | apps/indexer/src/snapshot/global.ts:241-267 | the backing ratios undo their divisions or are zero, and the backing per gOHM is that per OHM times the index |
| `GlobalRollup.RollupStore.UpdateGlobalMetricSnapshot` | apps/indexer/src/handlers/BlockHandlers.ts:287-463 | one snapshot's writes are the rollup step, the missing chains and the chain's category rows |
| `GlobalRollup.RollupStore.WriteCategories` | apps/indexer/src/handlers/BlockHandlers.ts:451-463 | the loop writes exactly one row for each of the chain's categories of the day |
| `GlobalRollup.RowsAreLatest` | apps/indexer/src/handlers/BlockHandlers.ts:290-306 | the stored row of a chain and date is the chain's last write |
| `GlobalRollup.RebuiltMembers` | apps/indexer/src/handlers/BlockHandlers.ts:315-336 | rebuilding keeps the other chains' rows, holds the writer's own fresh one, and lists each chain once |
| `GlobalRollup.RebuiltRows` | apps/indexer/src/handlers/BlockHandlers.ts:312-338 | the rebuilt rows are exactly all chains' latest, whether the writer's own was read back fresh, stale or not at all |
| `GlobalRollup.SourcesInvariant` | apps/indexer/src/handlers/BlockHandlers.ts:338-409 | after any interleaving the additive fields are the sums of the latest rows and the canonical ones the last Ethereum write or zero |
| `GlobalRollup.DerivedInvariant` | apps/indexer/src/handlers/BlockHandlers.ts:411-442 | after any interleaving the derived fields follow from the row's own fields |
| `GlobalRollup.RollupInvariant` | apps/indexer/src/handlers/BlockHandlers.ts:277-442 | both together, for every date |
| `GlobalRollup.MissingChains` | apps/indexer/src/snapshot/global.ts:209-213 | the missing chains of a date are those that have written nothing for it |
| `GlobalRollup.CategoriesAreLatest` | apps/indexer/src/handlers/BlockHandlers.ts:451-463 | a category row exists exactly if some snapshot of its chain and date had the category, and is the last such write |
| `GlobalRollup.CategoriesCurrentExact` | apps/indexer/src/handlers/BlockHandlers.ts:451-463 | the rows of a chain and date are its last snapshot's categories if and only if none has disappeared during the day |
| `GlobalRollup.SumLatestAnyOrder` | apps/indexer/src/snapshot/global.ts:194-200 | the sum over chains does not depend on their order |
| `BondSupply.PushGnosisAuctionSupply` | apps/indexer/src/handlers/GnosisAuctions.ts:32-176 | whatever the division, the bond manager's rows sum to what is attributed within one division's error for each vested auction, and the teller's to the payouts of open and vesting auctions |
| `BondSupply.PushAuctions` | apps/indexer/src/handlers/GnosisAuctions.ts:87-175 | the second pass pushes the vesting deposits and the vested shares |
| `BondSupply.PushAuction` | apps/indexer/src/handlers/GnosisAuctions.ts:88-174 | one auction adds its deposit at the bond manager and its payout at the teller |
| `BondSupply.SharesAreWhole` | apps/indexer/src/handlers/GnosisAuctions.ts:155-158 | the pro-rata shares sum to the capped balance |
| `BondSupply.BondConservationExact` | apps/indexer/src/handlers/GnosisAuctions.ts:68-85 | what is attributed is the smaller of the balance and all closed bids if and only if some bids have vested or the vesting ones fit the balance |
| `BondSupply.ExactRows` | apps/indexer/src/handlers/GnosisAuctions.ts:155-174 | with exact divisions the bond manager's rows sum to exactly what is attributed |
| `BondSupply.RoundedDivision` | apps/indexer/src/handlers/GnosisAuctions.ts:157 | a division rounded to 20 places misses the exact one by at most 10^-20/2 |
| `BondSupply.RoundedRows` | apps/indexer/src/handlers/GnosisAuctions.ts:155-174 | with such divisions the rows of n vested auctions miss it by at most n/2 × 10^-20 |
| `BondSupply.SumAttributedWithin` | apps/indexer/src/handlers/GnosisAuctions.ts:83-174 | shares from divisions within e of the exact ones make rows within n × e of what is attributed |
| `BondSupply.ErrorsAddUp` | apps/indexer/src/handlers/GnosisAuctions.ts:155-174 | shares each within e of the exact ones sum to within n × e |
| `OwnedLiquidity.GetTotalValue` | apps/indexer/src/pricing/univ2.ts:74-80 | the loop sums reserve times price over the tokens not excluded |
| `OwnedLiquidity.PushOwnedLiquidityRecords` | apps/indexer/src/handlers/BlockHandlers.ts:557-621 | over any pools and wallets, record values sum to each live pool's value × LP balances / supply, negative for a liability, and the values without OHM likewise |
| `OwnedLiquidity.PushPoolRecords` | apps/indexer/src/handlers/BlockHandlers.ts:566-619 | one pool adds its part; an inactive, worthless or unsupplied one adds nothing |
| `OwnedLiquidity.PushOwnedLiquiditySupply` | apps/indexer/src/handlers/BlockHandlers.ts:802-851 | OHM rows sum to the pools' OHM reserves × LP balances / supply × the OHM-equivalent multiplier; no multiplier, no rows |
| `OwnedLiquidity.OhmLegSplits` | apps/indexer/src/pricing/univ2.ts:74-80 | the pool's value is its value without OHM plus its OHM reserve at the OHM price |
| `OwnedLiquidity.PoolConserves` | apps/indexer/src/snapshot/records.ts:22-27 | what is recorded of a pool is what is recorded without OHM plus the wallets' OHM at its price |
| `OwnedLiquidity.AttributionConserves` | apps/indexer/src/snapshot/records.ts:22-27 | over any pools and wallets the sums the two push functions reach differ by exactly the OHM pushed, at its price |
| `OwnedLiquidity.NeverMoreThanThePool` | apps/indexer/src/pricing/univ2.ts:94-125 | no more than the pool is attributed if and only if the wallets hold at most the supply or the pool is empty |
| `ConcentratedLiquidity.AmountsClosedForm` | apps/indexer/src/snapshot/math.ts:96-120 | with the price held inside the range, token0 is L(1/p − 1/upper) and token1 L(p − lower) |
| `ConcentratedLiquidity.AdjacentRangesAdd` | apps/indexer/src/snapshot/math.ts:96-120 | the amounts over [a, b] and [b, c] sum to those over [a, c] at every price |
| `ConcentratedLiquidity.AmountsMonotone` | apps/indexer/src/snapshot/math.ts:108-115 | as the price rises token0 never rises and token1 never falls |
| `ConcentratedLiquidity.BranchesAgreeAtBoundaries` | apps/indexer/src/snapshot/math.ts:108-115 | at both boundaries the branches give the same amounts |
| `ConcentratedLiquidity.FlooredRangesAdd` | apps/indexer/src/snapshot/math.ts:116-119 | after flooring adjacent ranges add up to within one unit of each token |

## Left out

- Prices: what an error says and how often the snapshot is retried are left out; a rejection passes through every lookup, as no handler catches it. Pool state, feed answers and effect results are arbitrary inputs that stay fixed within a snapshot.
- Prices: lookups of one snapshot run one after another, so in flight means on the stack; concurrent awaiting of one cached promise is not modelled.
- Prices: addresses are numbers in the order of their lower-case text, so case folding and `normalizeCacheValue` disappear; the `totalValue` and `unitPrice` cache keys are left out.
- PriceHandlers.Verdict: a handler's loop over lookups is modelled as the keys it asks for and what it does with the answers so far; Balancer weights are positive and one per token, where the source would divide by zero or throw.
- BigNumber rounding is left out except in `RoundedDivision`; `computeApy` with its lossy power is an arbitrary canonical value.
- ConcentratedLiquidity.AmountsClosedForm: exact reals in place of floating point, and square-root prices in place of ticks.
- Store client, store reads (map lookups), HTTP routing, GraphQL text, OpenAPI, environment reading and process start-up are plumbing.
- Hashes and JSON text are injective: an artifact entry holds the hashed rows, an entity tag the object; byte lengths and the manifest's schema version, generation time and indexing progress are left out.
- A manifest without `indexerDeploymentId`, and a manifest passed in by the caller, are not modelled; the key patterns of `dataArtifactMonth` are matched on structured keys, which `ArtifactStore.DataKeyInjective` justifies.
- PublisherHistories.ManifestAlwaysGood: runs do not overlap; `PublisherInterleaving.ActsSequentially` derives this for runs that plan and write within their leases from a manifest that is still the stored one. The manifest is read before the lock is taken and nothing fences a write after the lease has expired, so without these two nothing is claimed.
- PublisherHistories.ShardsAlwaysTrue: asks that complete days are never rewritten by the source and that the complete date does not move back for one deployment; that cutting no month short is needed is shown of each written shard by `FreshShardExact` and of whole completed runs by `CompletedRunShardsExact`, not of crashed ones. Dates are day numbers, with month keys as in `MonthKeysExact`.
- PublisherHistories.CompletedRun: hashes are claimed for completed runs only; after a crash an overwritten shard may stand under an old hash.
- PublisherLock.LeaseMutualExclusion: all runs read one true clock at their start.
- PublisherInterleaving.ActsSequentially: a run's cleanup listing is taken when it plans; while only it writes, listing later finds the same stale keys.
- MetricsRoutes.PublishReadPaginateRecords: all pages are read from one store state; a read that spans a publication is not modelled.
- MetricsRoutes.EntryMeans: `buildDailyMetric`, which sorts the attached records into the metric's record fields, and the figures of an empty metric are left out.
- Erc20Ledger.LpSupplyExact: supply claims start at token genesis, since supplies are never seeded; ERC-4626, wrapped native and staking-vault handlers would add only easy cases.
- TokenBackfill.BackfillExact: the seeds are the true balances at the block before the window.
- BalancerPools.TrackedFromSeedExact: the seed reads end-of-block balances of the pool's own tokens; other pools do not interact.
- GlobalRollup.RollupInvariant: a snapshot without any row, which writes nothing, is left out; supply types without a category name do not occur.
- BondSupply.PushGnosisAuctionSupply: for an active bond manager; names, addresses and ids of rows are left out.
- OwnedLiquidity.PushOwnedLiquidityRecords: rows that share an id, and balances read on chain instead of from the ledger, are left out.
- OwnedLiquidity.AttributionConserves: over one wallet list for both functions and with the multiplier one.
