/**
 Balancer pool balances kept from Vault events (apps/indexer/src/handlers/BalancerPools.ts), starting
 from the pool's registration or from an end-of-block seed read at the first event seen.
 */
module BalancerPools {
  import opened Options

  type Address = nat

  datatype Change = Change(token: Address, delta: int, fee: int)

  datatype Event =
    | TokensRegistered
    | PoolBalanceChanged(changes: seq<Change>)
    | Swap(tokenIn: Address, tokenOut: Address, amountIn: int, amountOut: int)

  datatype Logged = Logged(event: Event, block: nat)

  // ---------- The chain ----------

  function ChangeOf(changes: seq<Change>, t: Address): int {
    if changes == [] then 0
    else
      var last := changes[|changes| - 1];
      ChangeOf(changes[..|changes| - 1], t) + if last.token == t then last.delta - last.fee else 0
  }

  /** What one event does to the pool's on-chain balance of `t`. */
  function Effect(e: Event, t: Address): int {
    match e
    case TokensRegistered => 0
    case PoolBalanceChanged(changes) => ChangeOf(changes, t)
    case Swap(tokenIn, tokenOut, amountIn, amountOut) =>
      (if t == tokenIn then amountIn else 0) - (if t == tokenOut then amountOut else 0)
  }

  /** The on-chain balance of `t` after the pool's events since registration. */
  function OnChain(history: seq<Logged>, t: Address): int {
    if history == [] then 0 else OnChain(history[..|history| - 1], t) + Effect(history[|history| - 1].event, t)
  }

  ghost predicate BlocksOrdered(history: seq<Logged>) {
    forall i, j :: 0 <= i <= j < |history| ==> history[i].block <= history[j].block
  }

  /** The number of events in blocks up to `block`: what a read at the end of that block reflects. */
  function EndOfBlock(history: seq<Logged>, block: nat): (n: nat)
    ensures n <= |history|
    ensures n < |history| ==> history[n].block > block
    ensures forall i :: 0 <= i < n ==> history[i].block <= block
  {
    if history == [] || history[0].block > block then 0 else 1 + EndOfBlock(history[1..], block)
  }

  /** Swaps name tokens of the pool. */
  predicate InPool(e: Event, tokens: seq<Address>) {
    e.Swap? ==> e.tokenIn in tokens && e.tokenOut in tokens
  }

  ghost predicate ValidPool(tokens: seq<Address>, history: seq<Logged>) {
    && (forall i, j :: 0 <= i < j < |tokens| ==> tokens[i] != tokens[j])
    && BlocksOrdered(history)
    && forall i :: 0 <= i < |history| ==> InPool(history[i].event, tokens)
  }

  // ---------- The indexer ----------

  datatype PoolState = PoolState(tokens: seq<Address>, balances: seq<int>)

  function IndexOf(tokens: seq<Address>, t: Address): (i: int)
    ensures -1 <= i < |tokens|
    ensures i >= 0 ==> tokens[i] == t
    ensures i < 0 <==> t !in tokens
  {
    if tokens == [] then -1
    else if tokens[0] == t then 0
    else
      var i := IndexOf(tokens[1..], t);
      if i < 0 then -1 else i + 1
  }

  /** Adds `amount` to the balance of `t`, when the pool has that token. */
  function AddTo(tokens: seq<Address>, balances: seq<int>, t: Address, amount: int): (r: seq<int>)
    requires |tokens| == |balances|
    ensures |r| == |balances|
  {
    var i := IndexOf(tokens, t);
    if i < 0 then balances else balances[i := balances[i] + amount]
  }

  function Changed(tokens: seq<Address>, balances: seq<int>, changes: seq<Change>): (r: seq<int>)
    requires |tokens| == |balances|
    ensures |r| == |balances|
  {
    if changes == [] then balances
    else
      var last := changes[|changes| - 1];
      AddTo(tokens, Changed(tokens, balances, changes[..|changes| - 1]), last.token, last.delta - last.fee)
  }

  /** What a handler does to a known pool. */
  function Handled(s: PoolState, e: Event): (r: PoolState)
    requires |s.tokens| == |s.balances|
    ensures r.tokens == s.tokens && |r.balances| == |s.balances|
  {
    match e
    case TokensRegistered => s
    case PoolBalanceChanged(changes) => s.(balances := Changed(s.tokens, s.balances, changes))
    case Swap(tokenIn, tokenOut, amountIn, amountOut) =>
      if tokenIn !in s.tokens || tokenOut !in s.tokens then s
      else s.(balances := AddTo(s.tokens, AddTo(s.tokens, s.balances, tokenIn, amountIn), tokenOut, -amountOut))
  }

  /** An unknown pool starts at zero on registration and from the seed on any other event, which is not applied. */
  function Started(e: Event, seed: PoolState): PoolState {
    if e.TokensRegistered? then PoolState(seed.tokens, seq(|seed.tokens|, _ => 0)) else seed
  }

  /** The block and log index of an event, which identify its update row. */
  datatype Meta = Meta(block: nat, logIndex: nat)

  /** A handler leaves a known pool alone, and writes no row, when it is registered again or swaps a foreign token. */
  predicate Ignored(state: Option<PoolState>, e: Event) {
    && state.Some?
    && (e.TokensRegistered?
        || (e.Swap? && (e.tokenIn !in state.value.tokens || e.tokenOut !in state.value.tokens)))
  }

  class PoolIndexer {
    var state: Option<PoolState>
    var updates: map<Meta, PoolState>

    constructor ()
      ensures state == None && updates == map[]
    {
      state, updates := None, map[];
    }

    /** The latest state and the immutable row of the event that led to it. */
    method SetBoth(next: PoolState, meta: Meta)
      modifies this
      ensures state == Some(next) && updates == old(updates)[meta := next]
    {
      updates := updates[meta := next];
      state := Some(next);
    }

    predicate Valid()
      reads this
    {
      state.Some? ==> |state.value.tokens| == |state.value.balances|
    }

    method OnTokensRegistered(tokens: seq<Address>, meta: Meta)
      requires Valid()
      modifies this
      ensures Valid()
      ensures state == if old(state).Some? then old(state) else Some(Started(TokensRegistered, PoolState(tokens, [])))
      ensures updates == if Ignored(old(state), TokensRegistered) then old(updates)
                         else old(updates)[meta := state.value]
    {
      if state.Some? {
        return;
      }
      SetBoth(PoolState(tokens, seq(|tokens|, _ => 0)), meta);
    }

    method OnPoolBalanceChanged(changes: seq<Change>, seed: PoolState, meta: Meta)
      requires Valid() && |seed.tokens| == |seed.balances|
      modifies this
      ensures Valid()
      ensures state == Some(if old(state).Some? then Handled(old(state).value, PoolBalanceChanged(changes)) else seed)
      ensures updates == old(updates)[meta := state.value]
    {
      if state.None? {
        SetBoth(seed, meta);
        return;
      }
      var tokens, balances := state.value.tokens, state.value.balances;
      for n := 0 to |changes|
        invariant |balances| == |tokens| && balances == Changed(tokens, state.value.balances, changes[..n])
      {
        assert changes[..n + 1][..n] == changes[..n];
        var index := IndexOf(tokens, changes[n].token);
        if index < 0 {
          continue;
        }
        balances := balances[index := balances[index] + changes[n].delta - changes[n].fee];
      }
      assert changes[..|changes|] == changes;
      SetBoth(PoolState(tokens, balances), meta);
    }

    method OnSwap(tokenIn: Address, tokenOut: Address, amountIn: int, amountOut: int, seed: PoolState, meta: Meta)
      requires Valid() && |seed.tokens| == |seed.balances|
      modifies this
      ensures Valid()
      ensures var e := Swap(tokenIn, tokenOut, amountIn, amountOut);
              && state == Some(if old(state).Some? then Handled(old(state).value, e) else seed)
              && updates == if Ignored(old(state), e) then old(updates) else old(updates)[meta := state.value]
    {
      if state.None? {
        SetBoth(seed, meta);
        return;
      }
      var tokens, balances := state.value.tokens, state.value.balances;
      var indexIn, indexOut := IndexOf(tokens, tokenIn), IndexOf(tokens, tokenOut);
      if indexIn < 0 || indexOut < 0 {
        return;
      }
      balances := balances[indexIn := balances[indexIn] + amountIn];
      balances := balances[indexOut := balances[indexOut] - amountOut];
      SetBoth(PoolState(tokens, balances), meta);
    }
  }

  // ---------- Tracking ----------

  function OnChainBalances(tokens: seq<Address>, history: seq<Logged>): (r: seq<int>)
    ensures |r| == |tokens| && forall k :: 0 <= k < |r| ==> r[k] == OnChain(history, tokens[k])
  {
    seq(|tokens|, k requires 0 <= k < |tokens| => OnChain(history, tokens[k]))
  }

  /** The seed read at the end of the block of event `i`. */
  function SeedAt(tokens: seq<Address>, history: seq<Logged>, i: nat): (r: PoolState)
    requires i < |history|
    ensures |r.tokens| == |r.balances|
  {
    PoolState(tokens, OnChainBalances(tokens, history[..EndOfBlock(history, history[i].block)]))
  }

  /** The indexer's state after the events from `start`, the first it sees, up to but not including `n`. */
  function Tracked(tokens: seq<Address>, history: seq<Logged>, start: nat, n: nat): (s: PoolState)
    requires start < n <= |history|
    ensures s.tokens == tokens && |s.balances| == |tokens|
    decreases n
  {
    if n == start + 1 then Started(history[start].event, SeedAt(tokens, history, start))
    else Handled(Tracked(tokens, history, start, n - 1), history[n - 1].event)
  }

  lemma AddToAt(tokens: seq<Address>, balances: seq<int>, t: Address, amount: int, k: nat)
    requires |tokens| == |balances| && k < |tokens|
    requires forall i, j :: 0 <= i < j < |tokens| ==> tokens[i] != tokens[j]
    ensures AddTo(tokens, balances, t, amount)[k] == balances[k] + if tokens[k] == t then amount else 0
  {
    var i := IndexOf(tokens, t);
    assert tokens[k] == t ==> tokens[k] in tokens;
  }

  lemma {:induction false} ChangedAt(tokens: seq<Address>, balances: seq<int>, changes: seq<Change>, k: nat)
    requires |tokens| == |balances| && k < |tokens|
    requires forall i, j :: 0 <= i < j < |tokens| ==> tokens[i] != tokens[j]
    ensures Changed(tokens, balances, changes)[k] == balances[k] + ChangeOf(changes, tokens[k])
  {
    if changes == [] {
    } else {
      var front, last := changes[..|changes| - 1], changes[|changes| - 1];
      ChangedAt(tokens, balances, front, k);
      AddToAt(tokens, Changed(tokens, balances, front), last.token, last.delta - last.fee, k);
    }
  }

  /** A handled event changes each tracked balance by its on-chain effect. */
  lemma HandledAt(s: PoolState, e: Event, k: nat)
    requires |s.tokens| == |s.balances| && k < |s.tokens| && InPool(e, s.tokens)
    requires forall i, j :: 0 <= i < j < |s.tokens| ==> s.tokens[i] != s.tokens[j]
    ensures Handled(s, e).balances[k] == s.balances[k] + Effect(e, s.tokens[k])
  {
    match e
    case TokensRegistered =>
    case PoolBalanceChanged(changes) => ChangedAt(s.tokens, s.balances, changes, k);
    case Swap(tokenIn, tokenOut, amountIn, amountOut) =>
      AddToAt(s.tokens, s.balances, tokenIn, amountIn, k);
      AddToAt(s.tokens, AddTo(s.tokens, s.balances, tokenIn, amountIn), tokenOut, -amountOut, k);
  }

  /** What the seed counts twice: the effect of the later events of the seeding block. */
  function Drift(tokens: seq<Address>, history: seq<Logged>, start: nat, t: Address): int
    requires start < |history|
  {
    if history[start].event.TokensRegistered? then -OnChain(history[..start + 1], t)
    else OnChain(history[..EndOfBlock(history, history[start].block)], t) - OnChain(history[..start + 1], t)
  }

  /** At every later moment the tracked balance is the on-chain balance plus the constant drift of the start. */
  lemma {:induction false} TrackedWithDrift(tokens: seq<Address>, history: seq<Logged>, start: nat, n: nat, k: nat)
    requires ValidPool(tokens, history) && start < n <= |history| && k < |tokens|
    ensures Tracked(tokens, history, start, n).balances[k]
            == OnChain(history[..n], tokens[k]) + Drift(tokens, history, start, tokens[k])
    decreases n
  {
    if n > start + 1 {
      TrackedWithDrift(tokens, history, start, n - 1, k);
      assert history[..n][..n - 1] == history[..n - 1];
      HandledAt(Tracked(tokens, history, start, n - 1), history[n - 1].event, k);
    }
  }

  /** From its registration on, the tracked balances are the on-chain balances after every event. */
  lemma TrackedFromRegistration(tokens: seq<Address>, history: seq<Logged>, n: nat, k: nat)
    requires ValidPool(tokens, history) && 0 < n <= |history| && history[0].event.TokensRegistered? && k < |tokens|
    ensures Tracked(tokens, history, 0, n).balances[k] == OnChain(history[..n], tokens[k])
  {
    TrackedWithDrift(tokens, history, 0, n, k);
    assert history[..1][..0] == [];
  }

  /**
   From a seed, the tracked balances are the on-chain balances after every later event if and only if the
   later events of the seeding block have no net effect; in particular when that block holds one event.
   */
  lemma TrackedFromSeedExact(tokens: seq<Address>, history: seq<Logged>, start: nat, n: nat, k: nat)
    requires ValidPool(tokens, history) && start < n <= |history| && k < |tokens|
             && !history[start].event.TokensRegistered?
    ensures Tracked(tokens, history, start, n).balances[k] == OnChain(history[..n], tokens[k])
            <==> (OnChain(history[..EndOfBlock(history, history[start].block)], tokens[k])
                  == OnChain(history[..start + 1], tokens[k]))
    ensures (forall i :: start < i < |history| ==> history[i].block != history[start].block) ==>
            Tracked(tokens, history, start, n).balances[k] == OnChain(history[..n], tokens[k])
  {
    TrackedWithDrift(tokens, history, start, n, k);
    var end := EndOfBlock(history, history[start].block);
    assert end > start;
    assert start + 1 < |history| ==> history[start + 1].block >= history[start].block;
    if forall i :: start < i < |history| ==> history[i].block != history[start].block {
      assert end <= start + 1;
    }
  }
}
