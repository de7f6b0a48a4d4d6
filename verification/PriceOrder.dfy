/**
 On a cyclic table a price depends on what was looked up before it. A value computed while the cycle
 fallback answered zero somewhere beneath it stays cached (apps/indexer/src/pricing/index.ts).
 */
module PriceOrder {
  import opened Options
  import opened PriceHandlers
  import opened PriceRouter

  const OHM: Address := 0
  const HONEY: Address := 1
  const LP: Address := 2

  /** OHM is priced as HONEY or as one dollar, HONEY and the LP as OHM, and HONEY has a feed at five dollars. */
  const CYCLIC := Table([], [OHM_AS_HONEY, AS_OHM, DOLLAR, FEED], 0)

  const OHM_AS_HONEY := Handler(1, None, Remap([OHM], HONEY))
  const AS_OHM := Handler(2, None, Remap([HONEY, LP], OHM))
  const DOLLAR := Handler(3, None, Stable([OHM]))
  const FEED := Handler(4, None, Chainlink([HONEY], 5, 0))

  const TOKENS: set<Address> := {OHM, HONEY, LP}

  const FIVE := Quote(5.0, PRIORITY)
  const ONE := Quote(1.0, 0.0)

  const OHM_KEY := Key(OHM, None)
  const LP_KEY := Key(LP, None)
  const OHM_BELOW := Key(OHM, Some(2))     // OHM, looked up by `AS_OHM`
  const HONEY_BELOW := Key(HONEY, Some(1)) // HONEY, looked up by `OHM_AS_HONEY`

  lemma KeysOfTable()
    ensures Closed(CYCLIC, TOKENS)
    ensures OHM_KEY in Keys(CYCLIC, TOKENS) && LP_KEY in Keys(CYCLIC, TOKENS)
    ensures OHM_BELOW in Keys(CYCLIC, TOKENS) && HONEY_BELOW in Keys(CYCLIC, TOKENS)
  {
    assert CYCLIC.handlers[0] == OHM_AS_HONEY && CYCLIC.handlers[1] == AS_OHM;
    assert OHM_AS_HONEY in CYCLIC.handlers && AS_OHM in CYCLIC.handlers;
    assert Some(1) in Pools(CYCLIC) && Some(2) in Pools(CYCLIC);
  }

  /** The handlers the router asks for each of the four keys. */
  predicate Asked(k: Key, i: nat) {
    if k == OHM_KEY || k == OHM_BELOW then i == 0 || i == 2 else if k == LP_KEY then i == 1 else i == 1 || i == 3
  }

  lemma WhoIsAsked(k: Key, i: nat)
    requires k == OHM_KEY || k == LP_KEY || k == OHM_BELOW || k == HONEY_BELOW
    requires i < 4
    ensures |CYCLIC.handlers| == 4 && (Considered(CYCLIC, CYCLIC.handlers[i], k) <==> Asked(k, i))
  {
    var h := CYCLIC.handlers[i];
    FoundByIndex();
    TokensOf(i);
    if k == OHM_BELOW && OHM in h.Tokens() {
      assert SameTokenSet(h, AS_OHM) ==> multiset(h.Tokens())[LP] == multiset(AS_OHM.Tokens())[LP];
    } else if k == HONEY_BELOW && HONEY in h.Tokens() {
      assert SameTokenSet(h, OHM_AS_HONEY) ==> multiset(h.Tokens())[HONEY] == multiset(OHM_AS_HONEY.Tokens())[HONEY];
    }
  }

  lemma FoundByIndex()
    ensures FindHandler(CYCLIC.handlers, 1) == Some(OHM_AS_HONEY) && FindHandler(CYCLIC.handlers, 2) == Some(AS_OHM)
  {
    var handlers := CYCLIC.handlers;
    assert handlers[1..][0] == AS_OHM && FindHandler(handlers, 2) == FindHandler(handlers[1..], 2);
  }

  lemma TokensOf(i: nat)
    requires i < 4
    ensures |CYCLIC.handlers| == 4 && IsActive(CYCLIC.handlers[i].startBlock, CYCLIC.block)
    ensures CYCLIC.handlers[i].id == i + 1
    ensures CYCLIC.handlers[i].Tokens() == if i == 0 || i == 2 then [OHM] else if i == 1 then [HONEY, LP] else [HONEY]
    ensures OHM_AS_HONEY.Tokens() == [OHM] && AS_OHM.Tokens() == [HONEY, LP]
  {
  }

  function Entered(k: Key, s: Store): Store {
    Store(s.cache, s.inFlight + {k}, s.derived + [k])
  }

  function Left(k: Key, q: Quote, s: Store): Store {
    s.(cache := s.cache[k := q], inFlight := s.inFlight - {k})
  }

  /** A remapping handler passes a nonzero quote on. */
  ghost function Remapped(k: Key, s: Store): (Option<Quote>, Store)
    requires Closed(CYCLIC, TOKENS) && k in Keys(CYCLIC, TOKENS)
  {
    var (q, s') := Lookup(CYCLIC, TOKENS, k, s);
    (if q.price == 0.0 then None else Some(q), s')
  }

  lemma RemapRun(h: Handler, t: Address, s: Store)
    requires Closed(CYCLIC, TOKENS) && h in CYCLIC.handlers && t in TOKENS && h.kind.Remap?
    ensures Key(h.kind.target, Some(h.id)) in Keys(CYCLIC, TOKENS)
    ensures Run(CYCLIC, TOKENS, h, t, [], s) == Remapped(Key(h.kind.target, Some(h.id)), s)
  {
    AsksStayInside(CYCLIC, TOKENS, h, t, 0);
    var (q, s') := Lookup(CYCLIC, TOKENS, Asks(h, t)[0], s);
    assert [] + [q] == [q];
    assert Run(CYCLIC, TOKENS, h, t, [], s) == Run(CYCLIC, TOKENS, h, t, [q], s');
  }

  lemma Fresh(k: Key, s: Store)
    requires Closed(CYCLIC, TOKENS) && k in Keys(CYCLIC, TOKENS) && k !in s.inFlight && k !in s.cache
    ensures var (quotes, s') := Scan(CYCLIC, TOKENS, k, 0, Entered(k, s));
            Lookup(CYCLIC, TOKENS, k, s) == (Best(quotes), Left(k, Best(quotes), s'))
  {
  }

  /** The scan past a handler that is not asked, past one that answers `q`, and at the end. */
  lemma Pass(k: Key, i: nat, s: Store)
    requires Closed(CYCLIC, TOKENS) && k in Keys(CYCLIC, TOKENS) && i < |CYCLIC.handlers|
             && !Considered(CYCLIC, CYCLIC.handlers[i], k)
    ensures Scan(CYCLIC, TOKENS, k, i, s) == Scan(CYCLIC, TOKENS, k, i + 1, s)
  {
  }

  lemma Take(k: Key, i: nat, s: Store, q: Option<Quote>, s': Store)
    requires Closed(CYCLIC, TOKENS) && k in Keys(CYCLIC, TOKENS) && i < |CYCLIC.handlers|
             && Considered(CYCLIC, CYCLIC.handlers[i], k)
    requires Run(CYCLIC, TOKENS, CYCLIC.handlers[i], k.token, [], s) == (q, s')
    ensures var (rest, s'') := Scan(CYCLIC, TOKENS, k, i + 1, s');
            Scan(CYCLIC, TOKENS, k, i, s) == (if q.Some? then [q.value] + rest else rest, s'')
  {
  }

  lemma End(k: Key, s: Store)
    requires Closed(CYCLIC, TOKENS) && k in Keys(CYCLIC, TOKENS)
    ensures |CYCLIC.handlers| == 4 && Scan(CYCLIC, TOKENS, k, 4, s) == ([], s)
  {
    assert |CYCLIC.handlers| == 4;
  }

  /** OHM, for whoever asks: HONEY's quote, if any, against a dollar without liquidity. */
  lemma OhmLookup(k: Key, s: Store)
    requires Closed(CYCLIC, TOKENS) && HONEY_BELOW in Keys(CYCLIC, TOKENS)
    requires k == OHM_KEY || k == OHM_BELOW
    requires k in Keys(CYCLIC, TOKENS) && k !in s.inFlight && k !in s.cache
    ensures var (q, s') := Remapped(HONEY_BELOW, Entered(k, s));
            var best := if q.Some? && q.value.liquidity > 0.0 then q.value else ONE;
            Lookup(CYCLIC, TOKENS, k, s) == (best, Left(k, best, s'))
  {
    var s0 := Entered(k, s);
    Fresh(k, s);
    forall i: nat | i < 4 ensures |CYCLIC.handlers| == 4
        && (Considered(CYCLIC, CYCLIC.handlers[i], k) <==> Asked(k, i)) {
      WhoIsAsked(k, i);
    }
    RemapRun(OHM_AS_HONEY, OHM, s0);
    var (q, s') := Remapped(HONEY_BELOW, s0);
    End(k, s');
    Pass(k, 3, s');
    Take(k, 2, s', Some(ONE), s');
    assert [ONE] + [] == [ONE];
    Pass(k, 1, s');
    Take(k, 0, s0, q, s');
    var quotes := if q.Some? then [q.value] + [ONE] else [ONE];
    assert Scan(CYCLIC, TOKENS, k, 0, s0) == (quotes, s');
    assert q.Some? ==> quotes[..1] == [q.value];
  }

  /** HONEY, looked up beneath OHM: the feed, whatever OHM costs. */
  lemma HoneyLookup(s: Store)
    requires Closed(CYCLIC, TOKENS) && HONEY_BELOW in Keys(CYCLIC, TOKENS) && OHM_BELOW in Keys(CYCLIC, TOKENS)
    requires HONEY_BELOW !in s.inFlight && HONEY_BELOW !in s.cache
    requires Lookup(CYCLIC, TOKENS, OHM_BELOW, Entered(HONEY_BELOW, s)).0.liquidity <= PRIORITY
    ensures Lookup(CYCLIC, TOKENS, HONEY_BELOW, s)
            == (FIVE, Left(HONEY_BELOW, FIVE, Lookup(CYCLIC, TOKENS, OHM_BELOW, Entered(HONEY_BELOW, s)).1))
  {
    var k, s0 := HONEY_BELOW, Entered(HONEY_BELOW, s);
    Fresh(k, s);
    forall i: nat | i < 4 ensures |CYCLIC.handlers| == 4
        && (Considered(CYCLIC, CYCLIC.handlers[i], k) <==> Asked(k, i)) {
      WhoIsAsked(k, i);
    }
    RemapRun(AS_OHM, HONEY, s0);
    var (q, s') := Remapped(OHM_BELOW, s0);
    assert ToDecimal(5, 0) == 5.0;
    End(k, s');
    Take(k, 3, s', Some(FIVE), s');
    assert [FIVE] + [] == [FIVE];
    Pass(k, 2, s');
    Take(k, 1, s0, q, s');
    Pass(k, 0, s0);
    var quotes := if q.Some? then [q.value] + [FIVE] else [FIVE];
    assert Scan(CYCLIC, TOKENS, k, 0, s0) == (quotes, s');
    assert q.Some? ==> quotes[..1] == [q.value];
  }

  lemma LpLookup(s: Store)
    requires Closed(CYCLIC, TOKENS) && LP_KEY in Keys(CYCLIC, TOKENS) && OHM_BELOW in Keys(CYCLIC, TOKENS)
    requires LP_KEY !in s.inFlight && LP_KEY !in s.cache
    ensures var q := Remapped(OHM_BELOW, Entered(LP_KEY, s)).0;
            Lookup(CYCLIC, TOKENS, LP_KEY, s).0 == if q.Some? then q.value else ZERO_RESULT
  {
    var k, s0 := LP_KEY, Entered(LP_KEY, s);
    Fresh(k, s);
    forall i: nat | i < 4 ensures |CYCLIC.handlers| == 4
        && (Considered(CYCLIC, CYCLIC.handlers[i], k) <==> Asked(k, i)) {
      WhoIsAsked(k, i);
    }
    RemapRun(AS_OHM, LP, s0);
    var (q, s') := Remapped(OHM_BELOW, s0);
    End(k, s');
    Pass(k, 3, s');
    Pass(k, 2, s');
    Take(k, 1, s0, q, s');
    Pass(k, 0, s0);
    var quotes := if q.Some? then [q.value] else [];
    assert q.Some? ==> [q.value] + [] == [q.value];
    assert Scan(CYCLIC, TOKENS, k, 0, s0) == (quotes, s');
  }

  /** Looked up first, the LP costs five dollars: the cut is made beneath HONEY, whose feed answers anyway. */
  lemma LpFirst()
    requires Closed(CYCLIC, TOKENS) && LP_KEY in Keys(CYCLIC, TOKENS)
    requires OHM_BELOW in Keys(CYCLIC, TOKENS) && HONEY_BELOW in Keys(CYCLIC, TOKENS)
    ensures Lookup(CYCLIC, TOKENS, LP_KEY, EMPTY_STORE).0 == FIVE
  {
    var s1 := Entered(LP_KEY, EMPTY_STORE);
    var s2 := Entered(OHM_BELOW, s1);
    LpLookup(EMPTY_STORE);
    OhmLookup(OHM_BELOW, s1);
    assert OHM_BELOW in Entered(HONEY_BELOW, s2).inFlight;
    HoneyLookup(s2);
  }

  /** Looking OHM up makes the cut beneath OHM itself and caches a dollar for it. */
  lemma OhmFirst()
    requires Closed(CYCLIC, TOKENS) && OHM_KEY in Keys(CYCLIC, TOKENS)
    requires OHM_BELOW in Keys(CYCLIC, TOKENS) && HONEY_BELOW in Keys(CYCLIC, TOKENS)
    ensures var (q, s) := Lookup(CYCLIC, TOKENS, OHM_KEY, EMPTY_STORE);
            q == FIVE && s.inFlight == {} && LP_KEY !in s.cache && OHM_BELOW in s.cache && s.cache[OHM_BELOW] == ONE
  {
    var s1 := Entered(OHM_KEY, EMPTY_STORE);
    var s2 := Entered(HONEY_BELOW, s1);
    OhmLookup(OHM_KEY, EMPTY_STORE);
    OhmLookup(OHM_BELOW, s2);
    assert HONEY_BELOW in Entered(OHM_BELOW, s2).inFlight;
    assert Lookup(CYCLIC, TOKENS, OHM_BELOW, s2) == (ONE, Left(OHM_BELOW, ONE, Entered(OHM_BELOW, s2)));
    HoneyLookup(s1);
  }

  /**
   The cycle fallback is not just ignored: the same key of the same snapshot is worth five dollars when it is
   looked up first and one dollar after OHM was.
   */
  lemma LookupOrderMatters()
    ensures Closed(CYCLIC, TOKENS) && OHM_KEY in Keys(CYCLIC, TOKENS) && LP_KEY in Keys(CYCLIC, TOKENS)
    ensures Lookup(CYCLIC, TOKENS, LP_KEY, Snapshot(CYCLIC, TOKENS, [])).0.price == 5.0
    ensures Lookup(CYCLIC, TOKENS, LP_KEY, Snapshot(CYCLIC, TOKENS, [OHM_KEY])).0.price == 1.0
  {
    KeysOfTable();
    LpFirst();
    OhmFirst();
    assert Snapshot(CYCLIC, TOKENS, []) == EMPTY_STORE;
    assert [OHM_KEY][..0] == [];
    assert Snapshot(CYCLIC, TOKENS, [OHM_KEY]) == Lookup(CYCLIC, TOKENS, OHM_KEY, EMPTY_STORE).1;
    LpLookup(Snapshot(CYCLIC, TOKENS, [OHM_KEY]));
  }
}
