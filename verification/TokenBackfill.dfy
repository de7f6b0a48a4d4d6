/**
 The one-shot balance backfill (apps/indexer/src/handlers/BackfillTokenBalances.ts): indexing starts in
 the middle of the history, and once per chain the balances from just before the window are added to
 whatever the ledger has accumulated by then.
 */
module TokenBackfill {
  import opened Options
  import opened Erc20Ledger

  datatype TokenDef = TokenDef(address: Address, startBlock: Option<nat>)

  const NATIVE_TOKEN: Address := 0

  /** `lpTokens` are registered as OHM or LP tokens, whose handler tracks the supply as well. */
  datatype Config = Config(startBlock: nat, tokens: seq<TokenDef>, wallets: seq<Address>, lpTokens: set<Address>)
  {
    function ReadAtBlock(): nat {
      if startBlock > 0 then startBlock - 1 else startBlock
    }

    /** The backfill reads balances of this token: not native, and active at the read block. */
    predicate Seedable(token: TokenDef) {
      token.address != NATIVE_TOKEN && (token.startBlock.None? || ReadAtBlock() >= token.startBlock.value)
    }

    function Wallets(): set<Address> {
      set w | w in wallets
    }
  }

  /** `seeds(t, w)`: `balanceOf(w)` of token `t` at the read block. */
  type Seeds = (Address, Address) -> nat

  function Occurrences(wallets: seq<Address>, w: Address): nat {
    if wallets == [] then 0 else Occurrences(wallets[..|wallets| - 1], w) + if wallets[|wallets| - 1] == w then 1 else 0
  }

  /** How often the nested loops of `runBackfill` seed the pair. */
  function SeedCount(c: Config, tokens: seq<TokenDef>, t: Address, w: Address): nat {
    if tokens == [] then 0
    else
      var token := tokens[|tokens| - 1];
      SeedCount(c, tokens[..|tokens| - 1], t, w)
      + if token.address == t && c.Seedable(token) then Occurrences(c.wallets, w) else 0
  }

  /** The balances change by the seeds, as often as they are seeded, and nothing else does. */
  ghost predicate Seeded(before: map<(Address, Address), int>, after: map<(Address, Address), int>, c: Config,
                         seeds: Seeds, tokens: seq<TokenDef>)
  {
    forall t, w :: Amount(after, t, w) == Amount(before, t, w) + SeedCount(c, tokens, t, w) * seeds(t, w)
  }

  function Amount(balances: map<(Address, Address), int>, t: Address, w: Address): int {
    if (t, w) in balances then balances[(t, w)] else 0
  }

  /** How many of the wallets are seeded with a token. */
  function Seedings(wallets: seq<Address>, seeds: Seeds, t: Address): nat {
    if wallets == [] then 0
    else Seedings(wallets[..|wallets| - 1], seeds, t) + if seeds(t, wallets[|wallets| - 1]) == 0 then 0 else 1
  }

  /** The wallets that are not seeded. */
  function Unseeded(wallets: seq<Address>, seeds: Seeds, t: Address): nat {
    if wallets == [] then 0
    else Unseeded(wallets[..|wallets| - 1], seeds, t) + if seeds(t, wallets[|wallets| - 1]) == 0 then 1 else 0
  }

  /** What the backfill counts: seeded pairs, and skipped tokens and pairs. */
  datatype Sentinel = Sentinel(seeded: nat, skipped: nat)

  function Counted(c: Config, tokens: seq<TokenDef>, seeds: Seeds): Sentinel {
    if tokens == [] then Sentinel(0, 0)
    else
      var front, token := Counted(c, tokens[..|tokens| - 1], seeds), tokens[|tokens| - 1];
      if !c.Seedable(token) then Sentinel(front.seeded, front.skipped + 1)
      else
        Sentinel(front.seeded + Seedings(c.wallets, seeds, token.address),
                 front.skipped + Unseeded(c.wallets, seeds, token.address))
  }

  datatype Books = Books(balances: map<(Address, Address), int>, updates: map<(Address, Address), Update>)

  /** One token's seeds, each added onto what the ledger has accumulated so far. */
  function SeedPairs(b: Books, wallets: seq<Address>, seeds: Seeds, t: Address): Books {
    if wallets == [] then b
    else
      var front, w := SeedPairs(b, wallets[..|wallets| - 1], seeds, t), wallets[|wallets| - 1];
      if seeds(t, w) == 0 then front else SeedPair(front, t, w, seeds(t, w))
  }

  function SeedPair(b: Books, t: Address, w: Address, seed: nat): Books {
    var next := Amount(b.balances, t, w) + seed;
    Books(b.balances[(t, w) := next], b.updates[(t, w) := Update(seed, next)])
  }

  lemma {:induction false} SeedPairsAdds(b: Books, wallets: seq<Address>, seeds: Seeds, t: Address, t': Address,
                                         w: Address)
    ensures Amount(SeedPairs(b, wallets, seeds, t).balances, t', w)
            == Amount(b.balances, t', w) + if t' == t then Occurrences(wallets, w) * seeds(t, w) else 0
  {
    if wallets == [] {
    } else {
      var n := |wallets| - 1;
      SeedPairsAdds(b, wallets[..n], seeds, t, t', w);
      OneMoreTimes(Occurrences(wallets[..n], w), seeds(t, w));
    }
  }

  lemma OneMoreTimes(n: nat, seed: nat)
    ensures (n + 1) * seed == n * seed + seed
  {
  }

  lemma {:induction false} SeedPairsLogged(b: Books, wallets: seq<Address>, seeds: Seeds, t: Address, t': Address,
                                           w: Address)
    ensures var after := SeedPairs(b, wallets, seeds, t);
            if t' == t && w in wallets && seeds(t, w) != 0
            then (t', w) in after.updates && after.updates[(t', w)] == Update(seeds(t, w), Amount(after.balances, t, w))
            else ((t', w) in after.updates <==> (t', w) in b.updates)
                 && ((t', w) in b.updates ==> after.updates[(t', w)] == b.updates[(t', w)])
  {
    if wallets == [] {
    } else {
      var n := |wallets| - 1;
      assert wallets == wallets[..n] + [wallets[n]];
      SeedPairsLogged(b, wallets[..n], seeds, t, t', w);
    }
  }

  class Backfill {
    var balances: map<(Address, Address), int>
    var updates: map<(Address, Address), Update>
    var sentinel: Option<Sentinel>

    function State(): Books
      reads this
    {
      Books(balances, updates)
    }

    constructor (balances: map<(Address, Address), int>)
      ensures State() == Books(balances, map[]) && sentinel == None
    {
      this.balances, updates, sentinel := balances, map[], None;
    }

    /** The loop over the wallets of one token. */
    method SeedToken(c: Config, seeds: Seeds, t: Address) returns (counts: Sentinel)
      modifies this`balances, this`updates
      ensures State() == SeedPairs(old(State()), c.wallets, seeds, t)
      ensures counts == Sentinel(Seedings(c.wallets, seeds, t), Unseeded(c.wallets, seeds, t))
    {
      var seeded, skipped := 0, 0;
      for n := 0 to |c.wallets|
        invariant State() == SeedPairs(old(State()), c.wallets[..n], seeds, t)
        invariant seeded == Seedings(c.wallets[..n], seeds, t) && skipped == Unseeded(c.wallets[..n], seeds, t)
      {
        var wallet := c.wallets[n];
        var seed := seeds(t, wallet);
        assert c.wallets[..n + 1][..n] == c.wallets[..n];
        if seed == 0 {
          skipped := skipped + 1;
          continue;
        }
        var current := if (t, wallet) in balances then balances[(t, wallet)] else 0;
        updates := updates[(t, wallet) := Update(seed, current + seed)];
        balances := balances[(t, wallet) := current + seed];
        seeded := seeded + 1;
      }
      assert c.wallets[..|c.wallets|] == c.wallets;
      counts := Sentinel(seeded, skipped);
    }

    /** `runBackfill`; it throws on a chain without configuration and before the chain's start block. */
    method RunBackfill(config: Option<Config>, block: nat, seeds: Seeds) returns (r: Result<Sentinel>)
      modifies this
      ensures r.Ok? <==> config.Some? && block >= config.value.startBlock
      ensures r.Err? ==> balances == old(balances) && updates == old(updates) && sentinel == old(sentinel)
      ensures r.Ok? ==>
                var c := config.value;
                && Seeded(old(balances), balances, c, seeds, c.tokens)
                && r.value == Counted(c, c.tokens, seeds) && sentinel == Some(r.value)
    {
      if config.None? {
        return Err("unsupported chain");
      }
      var c := config.value;
      if block < c.startBlock {
        return Err("fired before startBlock");
      }
      var counts := SeedTokens(c, seeds);
      sentinel := Some(counts);
      r := Ok(counts);
    }

    /** The loop over the tokens. */
    method SeedTokens(c: Config, seeds: Seeds) returns (counts: Sentinel)
      modifies this`balances, this`updates
      ensures Seeded(old(balances), balances, c, seeds, c.tokens) && counts == Counted(c, c.tokens, seeds)
    {
      counts := Sentinel(0, 0);
      for n := 0 to |c.tokens|
        invariant Seeded(old(balances), balances, c, seeds, c.tokens[..n]) && counts == Counted(c, c.tokens[..n], seeds)
      {
        var token := c.tokens[n];
        ghost var before := State();
        assert c.tokens[..n + 1][..n] == c.tokens[..n];
        if !c.Seedable(token) {
          counts := Sentinel(counts.seeded, counts.skipped + 1);
        } else {
          var more := SeedToken(c, seeds, token.address);
          counts := Sentinel(counts.seeded + more.seeded, counts.skipped + more.skipped);
        }
        forall t, w ensures Amount(balances, t, w)
            == Amount(old(balances), t, w) + SeedCount(c, c.tokens[..n + 1], t, w) * seeds(t, w) {
          SeedPairsAdds(before, c.wallets, seeds, token.address, t, w);
          var k := if token.address == t && c.Seedable(token) then Occurrences(c.wallets, w) else 0;
          Distribute(SeedCount(c, c.tokens[..n], t, w), k, seeds(t, w));
        }
      }
      assert c.tokens[..|c.tokens|] == c.tokens;
    }

    /** The block handler: it returns at once when the sentinel is there. */
    method OnBlock(config: Option<Config>, block: nat, seeds: Seeds) returns (r: Result<()>)
      modifies this
      ensures r.Ok? <==> old(sentinel).Some? || (config.Some? && block >= config.value.startBlock)
      ensures r.Ok? ==> sentinel.Some?
      ensures if old(sentinel).Some? || r.Err? then balances == old(balances) && updates == old(updates)
              && sentinel == old(sentinel)
              else Seeded(old(balances), balances, config.value, seeds, config.value.tokens)
    {
      if sentinel.Some? {
        return Ok(());
      }
      var done := RunBackfill(config, block, seeds);
      r := if done.Ok? then Ok(()) else Err(done.error);
    }
  }

  lemma Distribute(a: int, b: int, s: int)
    ensures (a + b) * s == a * s + b * s
  {
  }

  // ---------- Runs over the window ----------

  /** What happens in the window: a transfer is emitted, or the backfill's block handler fires. */
  datatype Item = Emitted(e: Transfer) | BlockFires

  function Events(items: seq<Item>): seq<Transfer> {
    if items == [] then []
    else
      var last := items[|items| - 1];
      Events(items[..|items| - 1]) + if last.Emitted? then [last.e] else []
  }

  predicate Fired(items: seq<Item>) {
    BlockFires in items
  }

  function Seed(before: seq<Transfer>, t: Address, w: Address): int {
    BalanceOf(before, t, w)
  }

  /** One emitted transfer, through the filter and handler its token is registered under. */
  function Handled(c: Config, l: Ledger, e: Transfer): Ledger {
    if e.token in c.lpTokens then (if PassesLp(c.Wallets(), e) then LpTransfer(l, c.Wallets(), e) else l)
    else if PassesTreasury(c.Wallets(), e) then TreasuryTransfer(l, c.Wallets(), e) else l
  }

  /** The indexer tracks the pair: a configured wallet, but for LP tokens not the zero address. */
  predicate IsTracked(c: Config, t: Address, w: Address) {
    w in c.wallets && (w == ZERO_ADDRESS ==> t !in c.lpTokens)
  }

  lemma HandledBalance(c: Config, l: Ledger, e: Transfer, t: Address, w: Address)
    requires IsTracked(c, t, w)
    ensures Handled(c, l, e).Balance(t, w) == l.Balance(t, w) + Delta(e, t, w)
  {
    assert w in c.Wallets();
    if e.token !in c.lpTokens {
      TreasuryBalanceStep(l, c.Wallets(), e, t, w);
    } else if w != ZERO_ADDRESS {
      LpBalanceStep(l, c.Wallets(), e, t, w);
    }
  }

  /** The ledger's balance of a tracked pair: filtered transfers, and the seeds when the block handler first fires. */
  function Tracked(c: Config, before: seq<Transfer>, items: seq<Item>, t: Address, w: Address): int
  {
    if items == [] then 0
    else
      var front, last := items[..|items| - 1], items[|items| - 1];
      var balance := Tracked(c, before, front, t, w);
      match last
      case Emitted(e) => balance + Delta(e, t, w)
      case BlockFires => if Fired(front) then balance else balance + SeedCount(c, c.tokens, t, w) * Seed(before, t, w)
  }

  /** The balances of an indexer over the window, one state before and after each item, run by the real handlers. */
  ghost predicate WindowRun(c: Config, before: seq<Transfer>, items: seq<Item>, states: seq<Ledger>) {
    && |states| == |items| + 1 && states[0] == EMPTY
    && forall n :: 0 <= n < |items| ==> WindowStep(c, before, items[..n], items[n], states[n], states[n + 1])
  }

  ghost predicate WindowStep(c: Config, before: seq<Transfer>, earlier: seq<Item>, item: Item, l: Ledger, l': Ledger) {
    match item
    case Emitted(e) => l' == Handled(c, l, e)
    case BlockFires =>
      if Fired(earlier) then l' == l
      else exists seeds: Seeds :: (forall t, w :: w in c.wallets ==> seeds(t, w) == Seed(before, t, w))
                                  && Seeded(l.balances, l'.balances, c, seeds, c.tokens)
  }

  /** `Tracked` is the balance the handlers and the backfill leave in the ledger. */
  lemma {:induction false} RunIsTracked(c: Config, before: seq<Transfer>, items: seq<Item>, states: seq<Ledger>,
                                        n: nat, t: Address, w: Address)
    requires WindowRun(c, before, items, states) && n <= |items| && IsTracked(c, t, w)
    ensures states[n].Balance(t, w) == Tracked(c, before, items[..n], t, w)
  {
    if n > 0 {
      RunIsTracked(c, before, items, states, n - 1, t, w);
      assert items[..n][..n - 1] == items[..n - 1];
      assert WindowStep(c, before, items[..n - 1], items[n - 1], states[n - 1], states[n]);
      if items[n - 1].Emitted? {
        HandledBalance(c, states[n - 1], items[n - 1].e, t, w);
      } else if !Fired(items[..n - 1]) {
        var seeds: Seeds :| (forall t, w :: w in c.wallets ==> seeds(t, w) == Seed(before, t, w))
                            && Seeded(states[n - 1].balances, states[n].balances, c, seeds, c.tokens);
        assert Amount(states[n].balances, t, w)
            == Amount(states[n - 1].balances, t, w) + SeedCount(c, c.tokens, t, w) * seeds(t, w);
      }
    }
  }

  lemma {:induction false} BalanceAppend(before: seq<Transfer>, events: seq<Transfer>, t: Address, w: Address)
    ensures BalanceOf(before + events, t, w) == BalanceOf(before, t, w) + BalanceOf(events, t, w)
  {
    if events == [] {
      assert before + events == before;
    } else {
      var n := |events| - 1;
      assert (before + events)[..|before| + n] == before + events[..n];
      BalanceAppend(before, events[..n], t, w);
    }
  }

  /** Wherever the backfill lands and however often it fires, it contributes its seeds exactly once. */
  lemma {:induction false} BackfillCommutes(c: Config, before: seq<Transfer>, items: seq<Item>, t: Address, w: Address)
    ensures Tracked(c, before, items, t, w)
            == BalanceOf(Events(items), t, w)
               + if Fired(items) then SeedCount(c, c.tokens, t, w) * Seed(before, t, w) else 0
  {
    if items == [] {
    } else {
      var front, last := items[..|items| - 1], items[|items| - 1];
      assert items == front + [last];
      BackfillCommutes(c, before, front, t, w);
      if last.Emitted? {
        assert Events(items)[..|Events(front)|] == Events(front);
      } else {
        assert Events(front) + [] == Events(front);
      }
    }
  }

  /**
   Once the backfill has fired, a tracked wallet's ledger balance is its true on-chain balance if and
   only if the pair was seeded exactly once or its balance before the window was zero. A token whose own
   start block is the chain start is never seeded.
   */
  lemma BackfillExact(c: Config, before: seq<Transfer>, items: seq<Item>, states: seq<Ledger>, t: Address, w: Address)
    requires WindowRun(c, before, items, states) && IsTracked(c, t, w) && Fired(items)
    ensures states[|items|].Balance(t, w) == BalanceOf(before + Events(items), t, w)
            <==> SeedCount(c, c.tokens, t, w) == 1 || BalanceOf(before, t, w) == 0
  {
    RunIsTracked(c, before, items, states, |items|, t, w);
    assert items[..|items|] == items;
    BackfillCommutes(c, before, items, t, w);
    BalanceAppend(before, Events(items), t, w);
    ScaledEqual(SeedCount(c, c.tokens, t, w), Seed(before, t, w));
  }

  lemma ScaledEqual(k: int, s: int)
    ensures k * s == s <==> k == 1 || s == 0
  {
    if k * s == s {
      Distribute(k, -1, s);
      assert (k - 1) * s == 0;
    }
  }

  ghost predicate DistinctTokens(tokens: seq<TokenDef>) {
    forall i, j :: 0 <= i < j < |tokens| ==> tokens[i].address != tokens[j].address
  }

  lemma {:induction false} OccursOnce(wallets: seq<Address>, w: Address)
    requires Distinct(wallets)
    ensures Occurrences(wallets, w) == if w in wallets then 1 else 0
  {
    if wallets == [] {
    } else {
      var n := |wallets| - 1;
      OccursOnce(wallets[..n], w);
      assert wallets == wallets[..n] + [wallets[n]];
    }
  }

  /** Without duplicate tokens or wallets a pair is seeded once when its token is seedable and otherwise never. */
  lemma {:induction false} SeededOnce(c: Config, tokens: seq<TokenDef>, token: TokenDef, w: Address)
    requires DistinctTokens(tokens) && Distinct(c.wallets) && token in tokens && w in c.wallets
    ensures SeedCount(c, tokens, token.address, w) == if c.Seedable(token) then 1 else 0
  {
    var n := |tokens| - 1;
    OccursOnce(c.wallets, w);
    assert tokens == tokens[..n] + [tokens[n]];
    if tokens[n] == token {
      NeverSeeded(c, tokens[..n], token.address, w);
    } else {
      SeededOnce(c, tokens[..n], token, w);
      var k :| 0 <= k < n && tokens[k] == token;
    }
  }

  lemma {:induction false} NeverSeeded(c: Config, tokens: seq<TokenDef>, t: Address, w: Address)
    requires forall token :: token in tokens ==> token.address != t
    ensures SeedCount(c, tokens, t, w) == 0
  {
    if tokens == [] {
    } else {
      assert tokens[|tokens| - 1] in tokens;
      NeverSeeded(c, tokens[..|tokens| - 1], t, w);
    }
  }
}
