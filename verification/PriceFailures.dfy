/**
 Lookups that reject (apps/indexer/src/pricing/index.ts:212-252). A handler's calls to the outside may throw at
 any point of its work; the rejection then passes through every lookup on the stack, each of which leaves the
 cache without its own key, and the snapshot may be tried again on what the cache has kept.
 */
module PriceFailures {
  import opened Options
  import opened PriceHandlers
  import opened PriceRouter
  import opened PriceTermination

  /**
   Whether a handler's next outside call throws, given the answers it has had and the derivations started so
   far. The log makes every moment distinct, so that an outage may begin and end at any time.
   */
  type Outages = (Handler, Address, seq<Quote>, seq<Key>) -> bool

  /** The quotes found so far in front of those the rest of the loop will find. */
  function Prefixed(quotes: seq<Quote>, rest: (Option<seq<Quote>>, Store)): (Option<seq<Quote>>, Store) {
    (if rest.0.None? then None else Some(quotes + rest.0.value), rest.1)
  }

  /** `cachedPricingLookup` around `derivePrice`; `None` is a rejection. */
  ghost function Attempt(tb: Table, tokens: set<Address>, fails: Outages, k: Key, s: Store): (r: (Option<Quote>, Store))
    requires Closed(tb, tokens) && k in Keys(tb, tokens)
    ensures r.1.inFlight == s.inFlight
    decreases Keys(tb, tokens) - s.inFlight, 0
  {
    if k in s.inFlight then (Some(ZERO_RESULT), s)
    else if k in s.cache then (Some(s.cache[k]), s)
    else
      var (q, s') := AttemptDerive(tb, tokens, fails, k, Store(s.cache, s.inFlight + {k}, s.derived + [k]));
      (q, s'.(cache := if q.Some? then s'.cache[k := q.value] else s'.cache - {k}, inFlight := s'.inFlight - {k}))
  }

  ghost function AttemptDerive(tb: Table, tokens: set<Address>, fails: Outages, k: Key, s: Store)
    : (r: (Option<Quote>, Store))
    requires Closed(tb, tokens) && k in Keys(tb, tokens)
    ensures r.1.inFlight == s.inFlight
    decreases Keys(tb, tokens) - s.inFlight, 3
  {
    if TokenInactive(tb, k.token) then (Some(ZERO_RESULT), s)
    else
      var (quotes, s') := AttemptScan(tb, tokens, fails, k, 0, s);
      (if quotes.Some? then Some(Best(quotes.value)) else None, s')
  }

  ghost function AttemptScan(tb: Table, tokens: set<Address>, fails: Outages, k: Key, i: nat, s: Store)
    : (r: (Option<seq<Quote>>, Store))
    requires Closed(tb, tokens) && k in Keys(tb, tokens) && i <= |tb.handlers|
    ensures r.1.inFlight == s.inFlight
    decreases Keys(tb, tokens) - s.inFlight, 2, |tb.handlers| - i
  {
    if i == |tb.handlers| then (Some([]), s)
    else if !Considered(tb, tb.handlers[i], k) then AttemptScan(tb, tokens, fails, k, i + 1, s)
    else
      var (q, s') := AttemptRun(tb, tokens, fails, tb.handlers[i], k.token, [], s);
      if q.None? then (None, s')
      else if q.value.None? then AttemptScan(tb, tokens, fails, k, i + 1, s')
      else Prefixed([q.value.value], AttemptScan(tb, tokens, fails, k, i + 1, s'))
  }

  ghost function AttemptRun(tb: Table, tokens: set<Address>, fails: Outages, h: Handler, t: Address,
                            answers: seq<Quote>, s: Store)
    : (r: (Option<Option<Quote>>, Store))
    requires Closed(tb, tokens) && h in tb.handlers && t in tokens && |answers| <= |Asks(h, t)|
    ensures r.1.inFlight == s.inFlight
    decreases Keys(tb, tokens) - s.inFlight, 1, |Asks(h, t)| - |answers|
  {
    if fails(h, t, answers, s.derived) then (None, s)
    else
      match Verdict(tb.tokens, h, t, answers)
      case Done(q) => (Some(q), s)
      case More =>
        AsksStayInside(tb, tokens, h, t, |answers|);
        var (q, s') := Attempt(tb, tokens, fails, Asks(h, t)[|answers|], s);
        if q.None? then (None, s') else AttemptRun(tb, tokens, fails, h, t, answers + [q.value], s')
  }

  // ---------- What succeeds is right ----------

  /** An attempt that is not rejected gives the value and the cache of the lookup without outages. */
  lemma {:induction false} SuccessIsLookup(tb: Table, tokens: set<Address>, fails: Outages, k: Key, s: Store)
    requires Closed(tb, tokens) && k in Keys(tb, tokens) && Attempt(tb, tokens, fails, k, s).0.Some?
    ensures var (q, s') := Attempt(tb, tokens, fails, k, s); (q.value, s') == Lookup(tb, tokens, k, s)
    decreases Keys(tb, tokens) - s.inFlight, 0
  {
    if k !in s.inFlight && k !in s.cache && !TokenInactive(tb, k.token) {
      ScanSuccess(tb, tokens, fails, k, 0, Store(s.cache, s.inFlight + {k}, s.derived + [k]));
    }
  }

  lemma {:induction false} ScanSuccess(tb: Table, tokens: set<Address>, fails: Outages, k: Key, i: nat, s: Store)
    requires Closed(tb, tokens) && k in Keys(tb, tokens) && i <= |tb.handlers|
    requires AttemptScan(tb, tokens, fails, k, i, s).0.Some?
    ensures var (quotes, s') := AttemptScan(tb, tokens, fails, k, i, s);
            (quotes.value, s') == Scan(tb, tokens, k, i, s)
    decreases Keys(tb, tokens) - s.inFlight, 2, |tb.handlers| - i
  {
    if i < |tb.handlers| {
      if Considered(tb, tb.handlers[i], k) {
        RunSuccess(tb, tokens, fails, tb.handlers[i], k.token, [], s);
        ScanSuccess(tb, tokens, fails, k, i + 1, Run(tb, tokens, tb.handlers[i], k.token, [], s).1);
      } else {
        ScanSuccess(tb, tokens, fails, k, i + 1, s);
      }
    }
  }

  lemma {:induction false} RunSuccess(tb: Table, tokens: set<Address>, fails: Outages, h: Handler, t: Address,
                                      answers: seq<Quote>, s: Store)
    requires Closed(tb, tokens) && h in tb.handlers && t in tokens && |answers| <= |Asks(h, t)|
    requires AttemptRun(tb, tokens, fails, h, t, answers, s).0.Some?
    ensures var (q, s') := AttemptRun(tb, tokens, fails, h, t, answers, s);
            (q.value, s') == Run(tb, tokens, h, t, answers, s)
    decreases Keys(tb, tokens) - s.inFlight, 1, |Asks(h, t)| - |answers|
  {
    if Verdict(tb.tokens, h, t, answers).More? {
      AsksStayInside(tb, tokens, h, t, |answers|);
      SuccessIsLookup(tb, tokens, fails, Asks(h, t)[|answers|], s);
      var (q, s') := Lookup(tb, tokens, Asks(h, t)[|answers|], s);
      RunSuccess(tb, tokens, fails, h, t, answers + [q], s');
    }
  }

  // ---------- What a rejection leaves behind ----------

  /** No key is cached and in flight at once. */
  predicate Apart(s: Store) {
    s.cache.Keys !! s.inFlight
  }

  predicate Grown(before: map<Key, Quote>, after: map<Key, Quote>) {
    forall k :: k in before ==> k in after && after[k] == before[k]
  }

  /** Whatever happens, no cached quote is lost or changed; the key itself ends up cached exactly on success. */
  lemma {:induction false} AttemptKeeps(tb: Table, tokens: set<Address>, fails: Outages, k: Key, s: Store)
    requires Closed(tb, tokens) && k in Keys(tb, tokens) && Apart(s)
    ensures var (q, s') := Attempt(tb, tokens, fails, k, s);
            && Apart(s') && Grown(s.cache, s'.cache)
            && (k !in s.inFlight ==> if q.Some? then k in s'.cache && s'.cache[k] == q.value else k !in s'.cache)
    decreases Keys(tb, tokens) - s.inFlight, 0
  {
    if k !in s.inFlight && k !in s.cache && !TokenInactive(tb, k.token) {
      ScanKeeps(tb, tokens, fails, k, 0, Store(s.cache, s.inFlight + {k}, s.derived + [k]));
    }
  }

  lemma {:induction false} ScanKeeps(tb: Table, tokens: set<Address>, fails: Outages, k: Key, i: nat, s: Store)
    requires Closed(tb, tokens) && k in Keys(tb, tokens) && i <= |tb.handlers| && Apart(s)
    ensures var s' := AttemptScan(tb, tokens, fails, k, i, s).1; Apart(s') && Grown(s.cache, s'.cache)
    decreases Keys(tb, tokens) - s.inFlight, 2, |tb.handlers| - i
  {
    if i < |tb.handlers| {
      if Considered(tb, tb.handlers[i], k) {
        RunKeeps(tb, tokens, fails, tb.handlers[i], k.token, [], s);
        ScanKeeps(tb, tokens, fails, k, i + 1, AttemptRun(tb, tokens, fails, tb.handlers[i], k.token, [], s).1);
      } else {
        ScanKeeps(tb, tokens, fails, k, i + 1, s);
      }
    }
  }

  lemma {:induction false} RunKeeps(tb: Table, tokens: set<Address>, fails: Outages, h: Handler, t: Address,
                                    answers: seq<Quote>, s: Store)
    requires Closed(tb, tokens) && h in tb.handlers && t in tokens && |answers| <= |Asks(h, t)| && Apart(s)
    ensures var s' := AttemptRun(tb, tokens, fails, h, t, answers, s).1; Apart(s') && Grown(s.cache, s'.cache)
    decreases Keys(tb, tokens) - s.inFlight, 1, |Asks(h, t)| - |answers|
  {
    if !fails(h, t, answers, s.derived) && Verdict(tb.tokens, h, t, answers).More? {
      AsksStayInside(tb, tokens, h, t, |answers|);
      AttemptKeeps(tb, tokens, fails, Asks(h, t)[|answers|], s);
      var (q, s') := Attempt(tb, tokens, fails, Asks(h, t)[|answers|], s);
      if q.Some? {
        RunKeeps(tb, tokens, fails, h, t, answers + [q.value], s');
      }
    }
  }

  /** A rejected attempt too leaves a cache that agrees with plain recursion. */
  lemma {:induction false} AttemptAgrees(tb: Table, tokens: set<Address>, fails: Outages, k: Key, s: Store)
    requires Closed(tb, tokens) && k in Keys(tb, tokens)
    requires CacheAgrees(tb, s.cache) && Beneath(tb, s.inFlight, k)
    ensures CacheAgrees(tb, Attempt(tb, tokens, fails, k, s).1.cache)
    decreases Keys(tb, tokens) - s.inFlight, 0
  {
    if Attempt(tb, tokens, fails, k, s).0.Some? {
      SuccessIsLookup(tb, tokens, fails, k, s);
      MemoAgrees(tb, tokens, k, s);
    } else {
      var s1 := Store(s.cache, s.inFlight + {k}, s.derived + [k]);
      assert AttemptDerive(tb, tokens, fails, k, s1).0.None?;
      forall f, n: nat | f in s1.inFlight && Plain(tb, f, n).Some?
        ensures n > 0 && PlainScan(tb, k, 0, n - 1).Some?
      {
        if f != k {
          PlainMono(tb, k, n - 1);
        }
      }
      ScanLeavesAgreeing(tb, tokens, fails, k, 0, s1);
    }
  }

  lemma {:induction false} ScanLeavesAgreeing(tb: Table, tokens: set<Address>, fails: Outages, k: Key, i: nat, s: Store)
    requires Closed(tb, tokens) && k in Keys(tb, tokens) && i <= |tb.handlers|
    requires CacheAgrees(tb, s.cache) && BeneathScan(tb, s.inFlight, k, i)
    requires AttemptScan(tb, tokens, fails, k, i, s).0.None?
    ensures CacheAgrees(tb, AttemptScan(tb, tokens, fails, k, i, s).1.cache)
    decreases Keys(tb, tokens) - s.inFlight, 2, |tb.handlers| - i
  {
    if Considered(tb, tb.handlers[i], k) {
      var (q, s') := AttemptRun(tb, tokens, fails, tb.handlers[i], k.token, [], s);
      if q.None? {
        RunLeavesAgreeing(tb, tokens, fails, tb.handlers[i], k.token, [], s);
      } else {
        RunSuccess(tb, tokens, fails, tb.handlers[i], k.token, [], s);
        RunAgrees(tb, tokens, tb.handlers[i], k.token, [], s);
        ScanLeavesAgreeing(tb, tokens, fails, k, i + 1, s');
      }
    } else {
      ScanLeavesAgreeing(tb, tokens, fails, k, i + 1, s);
    }
  }

  lemma {:induction false} RunLeavesAgreeing(tb: Table, tokens: set<Address>, fails: Outages, h: Handler, t: Address,
                                             answers: seq<Quote>, s: Store)
    requires Closed(tb, tokens) && h in tb.handlers && t in tokens && |answers| <= |Asks(h, t)|
    requires CacheAgrees(tb, s.cache) && BeneathRun(tb, s.inFlight, h, t, answers)
    requires AttemptRun(tb, tokens, fails, h, t, answers, s).0.None?
    ensures CacheAgrees(tb, AttemptRun(tb, tokens, fails, h, t, answers, s).1.cache)
    decreases Keys(tb, tokens) - s.inFlight, 1, |Asks(h, t)| - |answers|
  {
    if !fails(h, t, answers, s.derived) {
      AsksStayInside(tb, tokens, h, t, |answers|);
      var k := Asks(h, t)[|answers|];
      AttemptAgrees(tb, tokens, fails, k, s);
      var (q, s') := Attempt(tb, tokens, fails, k, s);
      if q.Some? {
        SuccessIsLookup(tb, tokens, fails, k, s);
        MemoAgrees(tb, tokens, k, s);
        StillBeneath(tb, s.inFlight, h, t, answers, q.value);
        RunLeavesAgreeing(tb, tokens, fails, h, t, answers + [q.value], s');
      }
    }
  }

  lemma StillBeneath(tb: Table, inFlight: set<Key>, h: Handler, t: Address, answers: seq<Quote>, q: Quote)
    requires |answers| < |Asks(h, t)| && Verdict(tb.tokens, h, t, answers).More?
    requires BeneathRun(tb, inFlight, h, t, answers)
    requires forall n: nat :: Plain(tb, Asks(h, t)[|answers|], n).Some? ==>
               q == Plain(tb, Asks(h, t)[|answers|], n).value
    ensures BeneathRun(tb, inFlight, h, t, answers + [q])
  {
    forall f, n: nat | f in inFlight && Plain(tb, f, n).Some?
      ensures n > 0 && PlainRun(tb, h, t, answers + [q], n - 1).Some?
    {
      assert PlainRun(tb, h, t, answers, n - 1).Some?;
      assert Plain(tb, Asks(h, t)[|answers|], n - 1).Some?;
    }
  }

  // ---------- Any attempts, any outages ----------

  /** The store after attempts on `ks` one after another, whichever of them are rejected. */
  ghost function Attempts(tb: Table, tokens: set<Address>, fails: Outages, ks: seq<Key>): (s: Store)
    requires Closed(tb, tokens) && forall k :: k in ks ==> k in Keys(tb, tokens)
    ensures s.inFlight == {}
  {
    if ks == [] then EMPTY_STORE
    else Attempt(tb, tokens, fails, ks[|ks| - 1], Attempts(tb, tokens, fails, ks[..|ks| - 1])).1
  }

  lemma {:induction false} AttemptsAgree(tb: Table, tokens: set<Address>, fails: Outages, ks: seq<Key>)
    requires Closed(tb, tokens) && forall k :: k in ks ==> k in Keys(tb, tokens)
    ensures CacheAgrees(tb, Attempts(tb, tokens, fails, ks).cache)
  {
    if ks == [] {
    } else {
      AttemptsAgree(tb, tokens, fails, ks[..|ks| - 1]);
      AttemptAgrees(tb, tokens, fails, ks[|ks| - 1], Attempts(tb, tokens, fails, ks[..|ks| - 1]));
    }
  }

  /**
   After any attempts under any outages, a key on which plain recursion terminates gets its plain price or is
   rejected; no outage, however it comes and goes, makes a wrong price.
   */
  lemma OutagesNeverMisprice(tb: Table, tokens: set<Address>, fails: Outages, ks: seq<Key>, k: Key, n: nat)
    requires Closed(tb, tokens) && k in Keys(tb, tokens) && forall k' :: k' in ks ==> k' in Keys(tb, tokens)
    requires Shallow(tb, k, n)
    ensures var q := Attempt(tb, tokens, fails, k, Attempts(tb, tokens, fails, ks)).0; q.Some? ==> Plain(tb, k, n) == q
  {
    var s := Attempts(tb, tokens, fails, ks);
    AttemptsAgree(tb, tokens, fails, ks);
    MemoAgrees(tb, tokens, k, s);
    TerminatesExactly(tb, k, n);
    if Attempt(tb, tokens, fails, k, s).0.Some? {
      SuccessIsLookup(tb, tokens, fails, k, s);
    }
  }

  /** No outside call throws any more once `count` derivations have been started. */
  ghost predicate OverAfter(fails: Outages, count: nat) {
    forall h, t, answers, derived :: count <= |derived| ==> !fails(h, t, answers, derived)
  }

  /** Once the outages are over no lookup is rejected. */
  lemma {:induction false} OverThenAnswered(tb: Table, tokens: set<Address>, fails: Outages, k: Key, s: Store)
    requires Closed(tb, tokens) && k in Keys(tb, tokens) && OverAfter(fails, |s.derived|)
    ensures Attempt(tb, tokens, fails, k, s).0.Some?
    ensures |s.derived| <= |Attempt(tb, tokens, fails, k, s).1.derived|
    decreases Keys(tb, tokens) - s.inFlight, 0
  {
    if k !in s.inFlight && k !in s.cache && !TokenInactive(tb, k.token) {
      ScanAnswered(tb, tokens, fails, k, 0, Store(s.cache, s.inFlight + {k}, s.derived + [k]));
    }
  }

  lemma {:induction false} ScanAnswered(tb: Table, tokens: set<Address>, fails: Outages, k: Key, i: nat, s: Store)
    requires Closed(tb, tokens) && k in Keys(tb, tokens) && i <= |tb.handlers| && OverAfter(fails, |s.derived|)
    ensures AttemptScan(tb, tokens, fails, k, i, s).0.Some?
    ensures |s.derived| <= |AttemptScan(tb, tokens, fails, k, i, s).1.derived|
    decreases Keys(tb, tokens) - s.inFlight, 2, |tb.handlers| - i
  {
    if i < |tb.handlers| {
      if Considered(tb, tb.handlers[i], k) {
        RunAnswered(tb, tokens, fails, tb.handlers[i], k.token, [], s);
        ScanAnswered(tb, tokens, fails, k, i + 1, AttemptRun(tb, tokens, fails, tb.handlers[i], k.token, [], s).1);
      } else {
        ScanAnswered(tb, tokens, fails, k, i + 1, s);
      }
    }
  }

  lemma {:induction false} RunAnswered(tb: Table, tokens: set<Address>, fails: Outages, h: Handler, t: Address,
                                       answers: seq<Quote>, s: Store)
    requires Closed(tb, tokens) && h in tb.handlers && t in tokens && |answers| <= |Asks(h, t)|
    requires OverAfter(fails, |s.derived|)
    ensures AttemptRun(tb, tokens, fails, h, t, answers, s).0.Some?
    ensures |s.derived| <= |AttemptRun(tb, tokens, fails, h, t, answers, s).1.derived|
    decreases Keys(tb, tokens) - s.inFlight, 1, |Asks(h, t)| - |answers|
  {
    if Verdict(tb.tokens, h, t, answers).More? {
      AsksStayInside(tb, tokens, h, t, |answers|);
      OverThenAnswered(tb, tokens, fails, Asks(h, t)[|answers|], s);
      var (q, s') := Attempt(tb, tokens, fails, Asks(h, t)[|answers|], s);
      RunAnswered(tb, tokens, fails, h, t, answers + [q.value], s');
    }
  }

  /** Once the outages are over, a retry gives every key on which plain recursion terminates its plain price. */
  lemma RetryRecovers(tb: Table, tokens: set<Address>, fails: Outages, ks: seq<Key>, k: Key, n: nat)
    requires Closed(tb, tokens) && k in Keys(tb, tokens) && forall k' :: k' in ks ==> k' in Keys(tb, tokens)
    requires Shallow(tb, k, n) && OverAfter(fails, |Attempts(tb, tokens, fails, ks).derived|)
    ensures Attempt(tb, tokens, fails, k, Attempts(tb, tokens, fails, ks)).0 == Plain(tb, k, n)
  {
    OverThenAnswered(tb, tokens, fails, k, Attempts(tb, tokens, fails, ks));
    OutagesNeverMisprice(tb, tokens, fails, ks, k, n);
  }
}
