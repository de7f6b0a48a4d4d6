/**
 The recursive price router (apps/indexer/src/pricing/index.ts): `derivePrice` searches the handlers
 depth-first and `cachedPricingLookup` memoises it. One snapshot is modelled, run sequentially, so a
 key is in flight exactly while its derivation is on the call stack.
 */
module PriceRouter {
  import opened Options
  import opened PriceHandlers

  datatype Table = Table(tokens: seq<TokenDef>, handlers: seq<Handler>, block: nat)

  function FindHandler(handlers: seq<Handler>, id: Address): Option<Handler> {
    if handlers == [] then None
    else if handlers[0].id == id then Some(handlers[0])
    else FindHandler(handlers[1..], id)
  }

  predicate SameTokenSet(left: Handler, right: Handler) {
    multiset(left.Tokens()) == multiset(right.Tokens())
  }

  /** Whether `derivePrice` asks handler `h` for a quote: the `continue` guards of its loop. */
  predicate Considered(tb: Table, h: Handler, k: Key) {
    var current := if k.pool.None? then None else FindHandler(tb.handlers, k.pool.value);
    && IsActive(h.startBlock, tb.block)
    && k.token in h.Tokens()
    && k.pool != Some(h.id)
    && !(current.Some? && SameTokenSet(h, current.value) && h.UnderlyingPool() != current.value.UnderlyingPool())
  }

  predicate TokenInactive(tb: Table, token: Address) {
    var definition := FindToken(tb.tokens, token);
    definition.Some? && !IsActive(definition.value.startBlock, tb.block)
  }

  /** The loop's selection step: an earlier quote survives only with strictly greater liquidity. */
  function Select(selected: Option<Quote>, result: Quote): Quote {
    if selected.Some? && selected.value.liquidity > result.liquidity then selected.value else result
  }

  /** The last quote among those of greatest liquidity, or the zero result when there is none. */
  function Best(quotes: seq<Quote>): Quote {
    if quotes == [] then ZERO_RESULT
    else if |quotes| == 1 then quotes[0]
    else Select(Some(Best(quotes[..|quotes| - 1])), quotes[|quotes| - 1])
  }

  predicate LastGreatest(quotes: seq<Quote>, i: nat) {
    && i < |quotes|
    && (forall j :: 0 <= j < |quotes| ==> quotes[j].liquidity <= quotes[i].liquidity)
    && (forall j :: i < j < |quotes| ==> quotes[j].liquidity < quotes[i].liquidity)
  }

  /** Each derivation picks the last quote among those of greatest liquidity, and no other. */
  lemma {:induction false} BestIsLastGreatest(quotes: seq<Quote>) returns (i: nat)
    requires quotes != []
    ensures LastGreatest(quotes, i) && Best(quotes) == quotes[i]
    ensures forall j: nat :: LastGreatest(quotes, j) ==> j == i
  {
    var n := |quotes| - 1;
    if n == 0 {
      i := 0;
    } else {
      i := BestIsLastGreatest(quotes[..n]);
      if !(quotes[i].liquidity > quotes[n].liquidity) {
        i := n;
      }
    }
  }

  // ---------- The lookup graph ----------

  /** `tokens` is closed: no handler pricing one of them looks a token outside up. */
  ghost predicate Closed(tb: Table, tokens: set<Address>) {
    forall h, t, j :: h in tb.handlers && t in tokens && 0 <= j < |Asks(h, t)| ==> Asks(h, t)[j].token in tokens
  }

  ghost function Pools(tb: Table): set<Option<Address>> {
    {None} + set h | h in tb.handlers :: Some(h.id)
  }

  ghost function Keys(tb: Table, tokens: set<Address>): set<Key> {
    set t, p | t in tokens && p in Pools(tb) :: Key(t, p)
  }

  /** The tokens a handler's configuration and pool state name. */
  function Mentioned(h: Handler): set<Address> {
    match h.kind
    case Remap(_, target) => {target}
    case Gohm(_, ohmToken, _) => {ohmToken}
    case Erc4626(_, underlying, _, _) => {underlying}
    case Curve(_, coins, _) => set c | c in coins :: c.token
    case FraxSwap(_, coin0, coin1, _) => {coin0.token, coin1.token}
    case Balancer(_, _, legs, _, _) => if legs.Some? then set l | l in legs.value :: l.token else {}
    case Stable(_) => {}
    case Chainlink(_, _, _) => {}
    case _ => {h.kind.a, h.kind.b}
  }

  lemma {:induction false} NonEmptyCoinsAreCoins(coins: seq<Coin>)
    ensures forall c :: c in NonEmptyCoins(coins) ==> c in coins
  {
    if coins == [] {
    } else {
      NonEmptyCoinsAreCoins(coins[1..]);
    }
  }

  lemma AsksAreMentioned(h: Handler, t: Address, j: nat)
    requires j < |Asks(h, t)|
    ensures Asks(h, t)[j].token in Mentioned(h)
  {
    if h.kind.Curve? {
      CoinsAreMentioned(h, t, j);
    } else if h.kind.Balancer? {
      LegsAreMentioned(h, t, j);
    }
  }

  lemma CoinsAreMentioned(h: Handler, t: Address, j: nat)
    requires h.kind.Curve? && j < |Asks(h, t)|
    ensures Asks(h, t)[j].token in Mentioned(h)
  {
    NonEmptyCoinsAreCoins(h.kind.coins);
    assert NonEmptyCoins(h.kind.coins)[j] in NonEmptyCoins(h.kind.coins);
  }

  lemma LegsAreMentioned(h: Handler, t: Address, j: nat)
    requires h.kind.Balancer? && j < |Asks(h, t)|
    ensures Asks(h, t)[j].token in Mentioned(h)
  {
    var leg := if t == h.kind.bpt then h.kind.legs.value[j] else OtherLegs(h.kind.legs.value, t)[j];
    assert leg in h.kind.legs.value && Asks(h, t)[j].token == leg.token;
  }

  /** Every table has a finite closed token set around any tokens to be priced: those and all mentioned ones. */
  lemma MentionedTokensClosed(tb: Table, priced: set<Address>)
    ensures Closed(tb, priced + set h, t | h in tb.handlers && t in Mentioned(h) :: t)
  {
    forall h, t, j | h in tb.handlers && 0 <= j < |Asks(h, t)| ensures Asks(h, t)[j].token in Mentioned(h) {
      AsksAreMentioned(h, t, j);
    }
  }

  lemma AsksStayInside(tb: Table, tokens: set<Address>, h: Handler, t: Address, j: nat)
    requires Closed(tb, tokens) && h in tb.handlers && t in tokens && j < |Asks(h, t)|
    ensures Asks(h, t)[j] in Keys(tb, tokens)
  {
    assert Asks(h, t)[j].token in tokens;
    assert Asks(h, t)[j].pool in Pools(tb);
  }

  // ---------- Memoised recursion ----------

  /** The pricing cache store. `derived` logs the keys in the order their derivations started. */
  datatype Store = Store(cache: map<Key, Quote>, inFlight: set<Key>, derived: seq<Key>)

  const EMPTY_STORE := Store(map[], {}, [])

  /** `cachedPricingLookup` around `derivePrice`. Each call shrinks the set of keys not in flight. */
  ghost function Lookup(tb: Table, tokens: set<Address>, k: Key, s: Store): (r: (Quote, Store))
    requires Closed(tb, tokens) && k in Keys(tb, tokens)
    ensures r.1.inFlight == s.inFlight
    decreases Keys(tb, tokens) - s.inFlight, 0
  {
    if k in s.inFlight then (ZERO_RESULT, s)
    else if k in s.cache then (s.cache[k], s)
    else
      var (q, s') := Derive(tb, tokens, k, Store(s.cache, s.inFlight + {k}, s.derived + [k]));
      (q, s'.(cache := s'.cache[k := q], inFlight := s'.inFlight - {k}))
  }

  ghost function Derive(tb: Table, tokens: set<Address>, k: Key, s: Store): (r: (Quote, Store))
    requires Closed(tb, tokens) && k in Keys(tb, tokens)
    ensures r.1.inFlight == s.inFlight
    decreases Keys(tb, tokens) - s.inFlight, 3
  {
    if TokenInactive(tb, k.token) then (ZERO_RESULT, s)
    else
      var (quotes, s') := Scan(tb, tokens, k, 0, s);
      (Best(quotes), s')
  }

  /** The quotes of the handlers from index `i` on. */
  ghost function Scan(tb: Table, tokens: set<Address>, k: Key, i: nat, s: Store): (r: (seq<Quote>, Store))
    requires Closed(tb, tokens) && k in Keys(tb, tokens) && i <= |tb.handlers|
    ensures r.1.inFlight == s.inFlight
    decreases Keys(tb, tokens) - s.inFlight, 2, |tb.handlers| - i
  {
    if i == |tb.handlers| then ([], s)
    else if !Considered(tb, tb.handlers[i], k) then Scan(tb, tokens, k, i + 1, s)
    else
      var (q, s') := Run(tb, tokens, tb.handlers[i], k.token, [], s);
      var (rest, s'') := Scan(tb, tokens, k, i + 1, s');
      (if q.Some? then [q.value] + rest else rest, s'')
  }

  /** One handler's `getPrice`, resumed after `answers`. */
  ghost function Run(tb: Table, tokens: set<Address>, h: Handler, t: Address, answers: seq<Quote>, s: Store)
    : (r: (Option<Quote>, Store))
    requires Closed(tb, tokens) && h in tb.handlers && t in tokens && |answers| <= |Asks(h, t)|
    ensures r.1.inFlight == s.inFlight
    decreases Keys(tb, tokens) - s.inFlight, 1, |Asks(h, t)| - |answers|
  {
    match Verdict(tb.tokens, h, t, answers)
    case Done(q) => (q, s)
    case More =>
      AsksStayInside(tb, tokens, h, t, |answers|);
      var (q, s') := Lookup(tb, tokens, Asks(h, t)[|answers|], s);
      Run(tb, tokens, h, t, answers + [q], s')
  }

  // ---------- Plain recursion ----------

  /**
   `getPrice` outside `withPricingCache`: plain recursion, cut off at depth `n`. `None` means that
   the recursion goes deeper than `n`; it terminates on `k` exactly when some depth suffices.
   */
  function Plain(tb: Table, k: Key, n: nat): Option<Quote>
    decreases n, 0
  {
    if n == 0 then None
    else if TokenInactive(tb, k.token) then Some(ZERO_RESULT)
    else
      var quotes := PlainScan(tb, k, 0, n - 1);
      if quotes.None? then None else Some(Best(quotes.value))
  }

  function PlainScan(tb: Table, k: Key, i: nat, n: nat): Option<seq<Quote>>
    requires i <= |tb.handlers|
    decreases n, 2, |tb.handlers| - i
  {
    if i == |tb.handlers| then Some([])
    else if !Considered(tb, tb.handlers[i], k) then PlainScan(tb, k, i + 1, n)
    else
      var q := PlainRun(tb, tb.handlers[i], k.token, [], n);
      if q.None? then None
      else
        var rest := PlainScan(tb, k, i + 1, n);
        if rest.None? then None
        else Some(if q.value.Some? then [q.value.value] + rest.value else rest.value)
  }

  function PlainRun(tb: Table, h: Handler, t: Address, answers: seq<Quote>, n: nat): Option<Option<Quote>>
    requires |answers| <= |Asks(h, t)|
    decreases n, 1, |Asks(h, t)| - |answers|
  {
    match Verdict(tb.tokens, h, t, answers)
    case Done(q) => Some(q)
    case More =>
      var q := Plain(tb, Asks(h, t)[|answers|], n);
      if q.None? then None else PlainRun(tb, h, t, answers + [q.value], n)
  }

  // ---------- The memo agrees with plain recursion ----------

  lemma {:induction false} PlainMono(tb: Table, k: Key, n: nat)
    requires Plain(tb, k, n).Some?
    ensures Plain(tb, k, n + 1) == Plain(tb, k, n)
    decreases n, 0
  {
    if !TokenInactive(tb, k.token) {
      PlainScanMono(tb, k, 0, n - 1);
    }
  }

  lemma {:induction false} PlainScanMono(tb: Table, k: Key, i: nat, n: nat)
    requires i <= |tb.handlers| && PlainScan(tb, k, i, n).Some?
    ensures PlainScan(tb, k, i, n + 1) == PlainScan(tb, k, i, n)
    decreases n, 2, |tb.handlers| - i
  {
    if i < |tb.handlers| {
      PlainScanMono(tb, k, i + 1, n);
      if Considered(tb, tb.handlers[i], k) {
        PlainRunMono(tb, tb.handlers[i], k.token, [], n);
      }
    }
  }

  lemma {:induction false} PlainRunMono(tb: Table, h: Handler, t: Address, answers: seq<Quote>, n: nat)
    requires |answers| <= |Asks(h, t)| && PlainRun(tb, h, t, answers, n).Some?
    ensures PlainRun(tb, h, t, answers, n + 1) == PlainRun(tb, h, t, answers, n)
    decreases n, 1, |Asks(h, t)| - |answers|
  {
    if Verdict(tb.tokens, h, t, answers).More? {
      var k := Asks(h, t)[|answers|];
      PlainMono(tb, k, n);
      PlainRunMono(tb, h, t, answers + [Plain(tb, k, n).value], n);
    }
  }

  /** Every cached quote is the plain value, wherever the plain recursion terminates. */
  ghost predicate CacheAgrees(tb: Table, cache: map<Key, Quote>) {
    forall k, n: nat :: k in cache && Plain(tb, k, n).Some? ==> cache[k] == Plain(tb, k, n).value
  }

  /** The stack above a lookup of `k`: any plain recursion that reaches an in-flight key reaches `k` deeper. */
  ghost predicate Beneath(tb: Table, inFlight: set<Key>, k: Key) {
    forall f, n: nat :: f in inFlight && Plain(tb, f, n).Some? ==> n > 0 && Plain(tb, k, n - 1).Some?
  }

  ghost predicate BeneathScan(tb: Table, inFlight: set<Key>, k: Key, i: nat)
    requires i <= |tb.handlers|
  {
    forall f, n: nat :: f in inFlight && Plain(tb, f, n).Some? ==> n > 0 && PlainScan(tb, k, i, n - 1).Some?
  }

  ghost predicate BeneathRun(tb: Table, inFlight: set<Key>, h: Handler, t: Address, answers: seq<Quote>)
    requires |answers| <= |Asks(h, t)|
  {
    forall f, n: nat :: f in inFlight && Plain(tb, f, n).Some? ==> n > 0 && PlainRun(tb, h, t, answers, n - 1).Some?
  }

  /** A key whose plain recursion terminates is never cut short by the cycle fallback. */
  lemma {:induction false} NoCycleBeneath(tb: Table, inFlight: set<Key>, k: Key, n: nat)
    requires Beneath(tb, inFlight, k) && k in inFlight
    ensures Plain(tb, k, n).None?
  {
    if n > 0 {
      NoCycleBeneath(tb, inFlight, k, n - 1);
    }
  }

  /**
   The memoised lookup returns exactly the plain value wherever plain recursion terminates, from any
   agreeing cache and any stack, while the rest of the graph may be cyclic; and the cache it leaves
   agrees again.
   */
  lemma {:induction false} MemoAgrees(tb: Table, tokens: set<Address>, k: Key, s: Store)
    requires Closed(tb, tokens) && k in Keys(tb, tokens)
    requires CacheAgrees(tb, s.cache) && Beneath(tb, s.inFlight, k)
    ensures CacheAgrees(tb, Lookup(tb, tokens, k, s).1.cache)
    ensures forall n: nat :: Plain(tb, k, n).Some? ==> Lookup(tb, tokens, k, s).0 == Plain(tb, k, n).value
    decreases Keys(tb, tokens) - s.inFlight, 0
  {
    if k in s.inFlight {
      forall n: nat ensures Plain(tb, k, n).None? { NoCycleBeneath(tb, s.inFlight, k, n); }
    } else if k !in s.cache {
      var s1 := Store(s.cache, s.inFlight + {k}, s.derived + [k]);
      if !TokenInactive(tb, k.token) {
        forall f, n: nat | f in s1.inFlight && Plain(tb, f, n).Some?
          ensures n > 0 && PlainScan(tb, k, 0, n - 1).Some?
        {
          if f != k {
            PlainMono(tb, k, n - 1);
          }
        }
        ScanAgrees(tb, tokens, k, 0, s1);
      }
    }
  }

  lemma {:induction false} ScanAgrees(tb: Table, tokens: set<Address>, k: Key, i: nat, s: Store)
    requires Closed(tb, tokens) && k in Keys(tb, tokens) && i <= |tb.handlers|
    requires CacheAgrees(tb, s.cache) && BeneathScan(tb, s.inFlight, k, i)
    ensures CacheAgrees(tb, Scan(tb, tokens, k, i, s).1.cache)
    ensures forall n: nat :: PlainScan(tb, k, i, n).Some? ==>
            Scan(tb, tokens, k, i, s).0 == PlainScan(tb, k, i, n).value
    decreases Keys(tb, tokens) - s.inFlight, 2, |tb.handlers| - i
  {
    if i < |tb.handlers| {
      if Considered(tb, tb.handlers[i], k) {
        RunAgrees(tb, tokens, tb.handlers[i], k.token, [], s);
        ScanAgrees(tb, tokens, k, i + 1, Run(tb, tokens, tb.handlers[i], k.token, [], s).1);
      } else {
        ScanAgrees(tb, tokens, k, i + 1, s);
      }
    }
  }

  lemma {:induction false} RunAgrees(tb: Table, tokens: set<Address>, h: Handler, t: Address, answers: seq<Quote>,
                                     s: Store)
    requires Closed(tb, tokens) && h in tb.handlers && t in tokens && |answers| <= |Asks(h, t)|
    requires CacheAgrees(tb, s.cache) && BeneathRun(tb, s.inFlight, h, t, answers)
    ensures CacheAgrees(tb, Run(tb, tokens, h, t, answers, s).1.cache)
    ensures forall n: nat :: PlainRun(tb, h, t, answers, n).Some? ==>
              Run(tb, tokens, h, t, answers, s).0 == PlainRun(tb, h, t, answers, n).value
    decreases Keys(tb, tokens) - s.inFlight, 1, |Asks(h, t)| - |answers|
  {
    if Verdict(tb.tokens, h, t, answers).More? {
      AsksStayInside(tb, tokens, h, t, |answers|);
      var k := Asks(h, t)[|answers|];
      MemoAgrees(tb, tokens, k, s);
      var (q, s') := Lookup(tb, tokens, k, s);
      forall f, n: nat | f in s'.inFlight && Plain(tb, f, n).Some?
        ensures n > 0 && PlainRun(tb, h, t, answers + [q], n - 1).Some?
      {
        assert PlainRun(tb, h, t, answers, n - 1).Some?;
        assert Plain(tb, k, n - 1).Some?;
      }
      RunAgrees(tb, tokens, h, t, answers + [q], s');
    }
  }

  // ---------- Whole snapshots ----------

  /** The store after looking `ks` up one after another. */
  ghost function Snapshot(tb: Table, tokens: set<Address>, ks: seq<Key>): (s: Store)
    requires Closed(tb, tokens) && forall k :: k in ks ==> k in Keys(tb, tokens)
    ensures s.inFlight == {}
  {
    if ks == [] then EMPTY_STORE
    else Lookup(tb, tokens, ks[|ks| - 1], Snapshot(tb, tokens, ks[..|ks| - 1])).1
  }

  lemma {:induction false} SnapshotAgrees(tb: Table, tokens: set<Address>, ks: seq<Key>)
    requires Closed(tb, tokens) && forall k :: k in ks ==> k in Keys(tb, tokens)
    ensures CacheAgrees(tb, Snapshot(tb, tokens, ks).cache)
  {
    if ks == [] {
    } else {
      SnapshotAgrees(tb, tokens, ks[..|ks| - 1]);
      MemoAgrees(tb, tokens, ks[|ks| - 1], Snapshot(tb, tokens, ks[..|ks| - 1]));
    }
  }

  // ---------- Each key is derived at most once ----------

  ghost predicate Distinct<T(!new)>(xs: seq<T>) {
    forall i, j :: 0 <= i < j < |xs| ==> xs[i] != xs[j]
  }

  /** The log lists every key cached or in flight exactly once, and no other key. */
  ghost predicate Consistent(tb: Table, tokens: set<Address>, s: Store) {
    && s.cache.Keys !! s.inFlight
    && Distinct(s.derived)
    && (forall k :: k in s.derived <==> k in s.cache || k in s.inFlight)
    && (forall k :: k in s.derived ==> k in Keys(tb, tokens))
  }

  ghost predicate Extends(s: Store, s': Store) {
    s.derived <= s'.derived && s.cache.Keys <= s'.cache.Keys
    && (forall k :: k in s.cache ==> s'.cache[k] == s.cache[k])
  }

  /** A lookup derives only keys never derived before, keeps all cached values and caches its own result. */
  lemma {:induction false} LookupConsistent(tb: Table, tokens: set<Address>, k: Key, s: Store)
    requires Closed(tb, tokens) && k in Keys(tb, tokens) && Consistent(tb, tokens, s)
    ensures var (q, s') := Lookup(tb, tokens, k, s);
            Consistent(tb, tokens, s') && Extends(s, s') && (k !in s.inFlight ==> k in s'.cache && s'.cache[k] == q)
    decreases Keys(tb, tokens) - s.inFlight, 0
  {
    if k !in s.inFlight && k !in s.cache {
      var s1 := Store(s.cache, s.inFlight + {k}, s.derived + [k]);
      if !TokenInactive(tb, k.token) {
        ScanConsistent(tb, tokens, k, 0, s1);
      }
    }
  }

  lemma {:induction false} ScanConsistent(tb: Table, tokens: set<Address>, k: Key, i: nat, s: Store)
    requires Closed(tb, tokens) && k in Keys(tb, tokens) && i <= |tb.handlers| && Consistent(tb, tokens, s)
    ensures Consistent(tb, tokens, Scan(tb, tokens, k, i, s).1) && Extends(s, Scan(tb, tokens, k, i, s).1)
    decreases Keys(tb, tokens) - s.inFlight, 2, |tb.handlers| - i
  {
    if i < |tb.handlers| {
      if Considered(tb, tb.handlers[i], k) {
        RunConsistent(tb, tokens, tb.handlers[i], k.token, [], s);
        ScanConsistent(tb, tokens, k, i + 1, Run(tb, tokens, tb.handlers[i], k.token, [], s).1);
      } else {
        ScanConsistent(tb, tokens, k, i + 1, s);
      }
    }
  }

  lemma {:induction false} RunConsistent(tb: Table, tokens: set<Address>, h: Handler, t: Address, answers: seq<Quote>,
                                         s: Store)
    requires Closed(tb, tokens) && h in tb.handlers && t in tokens && |answers| <= |Asks(h, t)|
    requires Consistent(tb, tokens, s)
    ensures Consistent(tb, tokens, Run(tb, tokens, h, t, answers, s).1)
            && Extends(s, Run(tb, tokens, h, t, answers, s).1)
    decreases Keys(tb, tokens) - s.inFlight, 1, |Asks(h, t)| - |answers|
  {
    if Verdict(tb.tokens, h, t, answers).More? {
      AsksStayInside(tb, tokens, h, t, |answers|);
      LookupConsistent(tb, tokens, Asks(h, t)[|answers|], s);
      var (q, s') := Lookup(tb, tokens, Asks(h, t)[|answers|], s);
      RunConsistent(tb, tokens, h, t, answers + [q], s');
    }
  }

  lemma {:induction false} DistinctFits<T(!new)>(xs: seq<T>, u: set<T>)
    requires Distinct(xs) && forall x :: x in xs ==> x in u
    ensures |xs| <= |u|
  {
    if xs == [] {
    } else {
      var last := xs[|xs| - 1];
      DistinctFits(xs[..|xs| - 1], u - {last});
    }
  }

  ghost function Pairs(ts: set<Address>, ps: set<Option<Address>>): set<Key> {
    set t, p | t in ts && p in ps :: Key(t, p)
  }

  lemma {:induction false} PairCount(ts: set<Address>, ps: set<Option<Address>>)
    ensures |Pairs(ts, ps)| == |ts| * |ps|
  {
    if ts == {} {
      assert Pairs(ts, ps) == {};
    } else {
      var t0 :| t0 in ts;
      PairCount(ts - {t0}, ps);
      RowCount(t0, ps);
      var row, rest := set p | p in ps :: Key(t0, p), Pairs(ts - {t0}, ps);
      assert Pairs(ts, ps) == row + rest;
      assert row !! rest;
      assert |Pairs(ts, ps)| == |ps| + (|ts| - 1) * |ps|;
    }
  }

  lemma {:induction false} RowCount(t: Address, ps: set<Option<Address>>)
    ensures |set p | p in ps :: Key(t, p)| == |ps|
  {
    var row := set p | p in ps :: Key(t, p);
    if ps == {} {
      assert row == {};
    } else {
      var p0 :| p0 in ps;
      RowCount(t, ps - {p0});
      assert row == (set p | p in ps - {p0} :: Key(t, p)) + {Key(t, p0)};
    }
  }

  lemma {:induction false} PoolCount(handlers: seq<Handler>)
    ensures |{None} + set h | h in handlers :: Some(h.id)| <= |handlers| + 1
  {
    var pools := {None} + set h | h in handlers :: Some(h.id);
    if handlers == [] {
      assert pools == {None};
    } else {
      var n := |handlers| - 1;
      PoolCount(handlers[..n]);
      var fewer := {None} + set h | h in handlers[..n] :: Some(h.id);
      forall h ensures h in handlers <==> h in handlers[..n] || h == handlers[n] {
        assert handlers == handlers[..n] + [handlers[n]];
      }
      assert pools == fewer + {Some(handlers[n].id)};
    }
  }

  /** Over a whole snapshot no key is derived twice, so there are at most tokens * (handlers + 1) derivations. */
  lemma {:induction false} DerivationsBounded(tb: Table, tokens: set<Address>, ks: seq<Key>)
    requires Closed(tb, tokens) && forall k :: k in ks ==> k in Keys(tb, tokens)
    ensures Consistent(tb, tokens, Snapshot(tb, tokens, ks))
    ensures |Snapshot(tb, tokens, ks).derived| <= |tokens| * (|tb.handlers| + 1)
  {
    if ks == [] {
    } else {
      DerivationsBounded(tb, tokens, ks[..|ks| - 1]);
      LookupConsistent(tb, tokens, ks[|ks| - 1], Snapshot(tb, tokens, ks[..|ks| - 1]));
    }
    DistinctFits(Snapshot(tb, tokens, ks).derived, Keys(tb, tokens));
    PairCount(tokens, Pools(tb));
    assert Keys(tb, tokens) == Pairs(tokens, Pools(tb));
    PoolCount(tb.handlers);
    MulMono(|tokens|, |Pools(tb)|, |tb.handlers| + 1);
  }

  lemma MulMono(a: nat, b: nat, c: nat)
    requires b <= c
    ensures a * b <= a * c
  {
  }
}
