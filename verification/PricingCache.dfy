/**
 The mutable pricing cache of one snapshot: `withPricingCache`, `cachedPricingLookup`, `derivePrice`
 and the handlers' callback loop, each proved equal to the specification functions of `PriceFailures`.
 `None` is a rejection, which leaves each lookup on the stack through its `catch` and `finally`.
 */
module PricingCache {
  import opened Options
  import opened PriceHandlers
  import opened PriceRouter
  import opened PriceFailures

  lemma PrefixedNothing(all: (Option<seq<Quote>>, Store))
    ensures Prefixed([], all) == all
  {
    if all.0.Some? {
      assert [] + all.0.value == all.0.value;
    }
  }

  lemma PrefixedStep(quotes: seq<Quote>, result: Quote, rest: (Option<seq<Quote>>, Store))
    ensures Prefixed(quotes, Prefixed([result], rest)) == Prefixed(quotes + [result], rest)
    ensures Best(quotes + [result]) == Select(if quotes == [] then None else Some(Best(quotes)), result)
  {
    assert (quotes + [result])[..|quotes|] == quotes;
    if rest.0.Some? {
      assert quotes + ([result] + rest.0.value) == quotes + [result] + rest.0.value;
    }
  }

  class PricingCacheStore {
    var cache: map<Key, Quote>
    var inFlight: set<Key>
    /** The derivations started so far; it marks the moments at which outside calls are made. */
    var derived: seq<Key>

    ghost function State(): Store
      reads this
    {
      Store(cache, inFlight, derived)
    }

    constructor ()
      ensures State() == EMPTY_STORE
    {
      cache, inFlight, derived := map[], {}, [];
    }

    method GetPrice(tb: Table, ghost tokens: set<Address>, fails: Outages, k: Key) returns (q: Option<Quote>)
      requires Closed(tb, tokens) && k in Keys(tb, tokens)
      modifies this
      ensures (q, State()) == Attempt(tb, tokens, fails, k, old(State()))
      ensures q.Some? ==> (q.value, State()) == Lookup(tb, tokens, k, old(State()))
      decreases Keys(tb, tokens) - inFlight, 0
    {
      ghost var before := State();
      if k in inFlight {
        return Some(ZERO_RESULT);
      }
      if k in cache {
        return Some(cache[k]);
      }
      inFlight := inFlight + {k};
      derived := derived + [k];
      q := DerivePrice(tb, tokens, fails, k);
      if q.Some? {
        SuccessIsLookup(tb, tokens, fails, k, before);
        cache := cache[k := q.value];
      } else {
        cache := cache - {k};
      }
      inFlight := inFlight - {k};
    }

    method DerivePrice(tb: Table, ghost tokens: set<Address>, fails: Outages, k: Key) returns (q: Option<Quote>)
      requires Closed(tb, tokens) && k in Keys(tb, tokens)
      modifies this
      ensures (q, State()) == AttemptDerive(tb, tokens, fails, k, old(State()))
      decreases Keys(tb, tokens) - inFlight, 2
    {
      if TokenInactive(tb, k.token) {
        return Some(ZERO_RESULT);
      }
      var selected: Option<Quote> := None;
      ghost var quotes: seq<Quote> := [];
      ghost var all := AttemptScan(tb, tokens, fails, k, 0, State());
      PrefixedNothing(all);
      for i := 0 to |tb.handlers|
        invariant inFlight == old(inFlight)
        invariant all == Prefixed(quotes, AttemptScan(tb, tokens, fails, k, i, State()))
        invariant selected == if quotes == [] then None else Some(Best(quotes))
      {
        var h := tb.handlers[i];
        if !Considered(tb, h, k) {
          continue;
        }
        var result := HandlerPrice(tb, tokens, fails, h, k.token);
        if result.None? {
          return None;
        }
        if result.value.None? {
          continue;
        }
        PrefixedStep(quotes, result.value.value, AttemptScan(tb, tokens, fails, k, i + 1, State()));
        quotes := quotes + [result.value.value];
        if selected.Some? && selected.value.liquidity > result.value.value.liquidity {
          continue;
        }
        selected := result.value;
      }
      assert quotes + [] == quotes;
      q := Some(if selected.Some? then selected.value else ZERO_RESULT);
    }

    /** A handler's `getPrice`: it awaits one lookup after another until it has its quote. */
    method HandlerPrice(tb: Table, ghost tokens: set<Address>, fails: Outages, h: Handler, t: Address)
      returns (q: Option<Option<Quote>>)
      requires Closed(tb, tokens) && h in tb.handlers && t in tokens
      modifies this
      ensures (q, State()) == AttemptRun(tb, tokens, fails, h, t, [], old(State()))
      decreases Keys(tb, tokens) - inFlight, 1
    {
      var answers: seq<Quote> := [];
      if fails(h, t, answers, derived) {
        return None;
      }
      while Verdict(tb.tokens, h, t, answers).More?
        invariant |answers| <= |Asks(h, t)| && inFlight == old(inFlight)
        invariant AttemptRun(tb, tokens, fails, h, t, answers, State())
                  == AttemptRun(tb, tokens, fails, h, t, [], old(State()))
        invariant !fails(h, t, answers, derived)
        decreases |Asks(h, t)| - |answers|
      {
        AsksStayInside(tb, tokens, h, t, |answers|);
        var answer := GetPrice(tb, tokens, fails, Asks(h, t)[|answers|]);
        if answer.None? {
          return None;
        }
        answers := answers + [answer.value];
        if fails(h, t, answers, derived) {
          return None;
        }
      }
      q := Some(Verdict(tb.tokens, h, t, answers).quote);
    }
  }
}
