/**
 When `getPrice` terminates without the pricing cache (apps/indexer/src/pricing/index.ts): exactly on the
 keys from which every chain of lookups that live handlers really make is finite.
 */
module PriceTermination {
  import opened Options
  import opened PriceHandlers
  import opened PriceRouter

  // ---------- The live lookup graph ----------

  /** The router asks `h`, and from its configuration and pool state alone `h` goes on to look something up. */
  predicate Live(tb: Table, h: Handler, k: Key) {
    Considered(tb, h, k) && Verdict(tb.tokens, h, k.token, []).More?
  }

  /** The answer `q` to its `j`-th lookup settles a handler early: only a Balancer spot price ever does. */
  predicate Stops(tb: Table, h: Handler, t: Address, j: nat, q: Quote)
    requires j < |Asks(h, t)|
  {
    h.kind.Balancer? && h.kind.legs.Some? && t != h.kind.bpt && SpotQuote(tb.tokens, h, t, j, q).Some?
  }

  /** A live handler goes on until it has looked all its keys up or an answer settles it. */
  lemma GoesOn(tb: Table, h: Handler, t: Address, answers: seq<Quote>)
    requires |answers| <= |Asks(h, t)| && Verdict(tb.tokens, h, t, []).More?
    ensures Verdict(tb.tokens, h, t, answers).More?
            <==> |answers| < |Asks(h, t)| && (answers != [] ==> !Stops(tb, h, t, |answers| - 1, answers[|answers| - 1]))
  {
  }

  /** No earlier lookup of `h`, cut off at depth `n`, settles it before its `j`-th one. */
  predicate Reached(tb: Table, h: Handler, t: Address, j: nat, n: nat)
    requires j < |Asks(h, t)|
  {
    forall i :: 0 <= i < j && Plain(tb, Asks(h, t)[i], n).Some? ==>
        !Stops(tb, h, t, i, Plain(tb, Asks(h, t)[i], n).value)
  }

  /** Every chain of lookups that starts with `k` is shorter than `n`. */
  ghost predicate Shallow(tb: Table, k: Key, n: nat)
    decreases n
  {
    && n > 0
    && (TokenInactive(tb, k.token)
        || forall h, j | h in tb.handlers && Live(tb, h, k) && 0 <= j < |Asks(h, k.token)| ::
             Reached(tb, h, k.token, j, n - 1) ==> Shallow(tb, Asks(h, k.token)[j], n - 1))
  }

  // ---------- Termination is shallowness ----------

  predicate Answered(tb: Table, h: Handler, t: Address, answers: seq<Quote>, n: nat) {
    |answers| <= |Asks(h, t)| && forall i :: 0 <= i < |answers| ==> Plain(tb, Asks(h, t)[i], n) == Some(answers[i])
  }

  /**
   Without the cache `getPrice` terminates within depth `n` if and only if the lookups from its key are that
   shallow.
   */
  lemma {:induction false} TerminatesExactly(tb: Table, k: Key, n: nat)
    ensures Plain(tb, k, n).Some? <==> Shallow(tb, k, n)
    decreases n, 0
  {
    if n > 0 && !TokenInactive(tb, k.token) {
      if Shallow(tb, k, n) {
        ScanEnds(tb, k, 0, n);
      }
      if Plain(tb, k, n).Some? {
        forall h, j | h in tb.handlers && Live(tb, h, k) && 0 <= j < |Asks(h, k.token)|
          ensures Reached(tb, h, k.token, j, n - 1) ==> Shallow(tb, Asks(h, k.token)[j], n - 1)
        {
          ScanRuns(tb, k, 0, h, n - 1);
          if Reached(tb, h, k.token, j, n - 1) {
            RunLooksUp(tb, h, k.token, [], j, n - 1);
            TerminatesExactly(tb, Asks(h, k.token)[j], n - 1);
          }
        }
      }
    }
  }

  lemma {:induction false} ScanEnds(tb: Table, k: Key, i: nat, n: nat)
    requires n > 0 && Shallow(tb, k, n) && !TokenInactive(tb, k.token) && i <= |tb.handlers|
    ensures PlainScan(tb, k, i, n - 1).Some?
    decreases n - 1, 2, |tb.handlers| - i
  {
    if i < |tb.handlers| {
      if Considered(tb, tb.handlers[i], k) {
        RunEnds(tb, k, tb.handlers[i], [], n);
      }
      ScanEnds(tb, k, i + 1, n);
    }
  }

  lemma {:induction false} RunEnds(tb: Table, k: Key, h: Handler, answers: seq<Quote>, n: nat)
    requires n > 0 && Shallow(tb, k, n) && !TokenInactive(tb, k.token) && h in tb.handlers && Considered(tb, h, k)
    requires Answered(tb, h, k.token, answers, n - 1) && (answers != [] ==> Live(tb, h, k))
    requires forall i :: 0 <= i < |answers| - 1 ==> !Stops(tb, h, k.token, i, answers[i])
    ensures PlainRun(tb, h, k.token, answers, n - 1).Some?
    decreases n - 1, 1, |Asks(h, k.token)| - |answers|
  {
    var t := k.token;
    if Verdict(tb.tokens, h, t, answers).More? {
      var next := Asks(h, t)[|answers|];
      GoesOn(tb, h, t, answers);
      assert Live(tb, h, k) && Reached(tb, h, t, |answers|, n - 1);
      TerminatesExactly(tb, next, n - 1);
      RunEnds(tb, k, h, answers + [Plain(tb, next, n - 1).value], n);
    }
  }

  /** A derivation that terminates has run every handler it considers to its end. */
  lemma {:induction false} ScanRuns(tb: Table, k: Key, i: nat, h: Handler, n: nat)
    requires i <= |tb.handlers| && PlainScan(tb, k, i, n).Some? && h in tb.handlers[i..] && Considered(tb, h, k)
    ensures PlainRun(tb, h, k.token, [], n).Some?
    decreases |tb.handlers| - i
  {
    if h != tb.handlers[i] {
      ScanRuns(tb, k, i + 1, h, n);
    }
  }

  /** A handler that terminates has terminated on every key it reached. */
  lemma {:induction false} RunLooksUp(tb: Table, h: Handler, t: Address, answers: seq<Quote>, j: nat, n: nat)
    requires Answered(tb, h, t, answers, n) && PlainRun(tb, h, t, answers, n).Some?
             && Verdict(tb.tokens, h, t, []).More?
    requires |answers| <= j < |Asks(h, t)| && Reached(tb, h, t, j, n)
    ensures Plain(tb, Asks(h, t)[j], n).Some?
    decreases j - |answers|
  {
    GoesOn(tb, h, t, answers);
    if |answers| < j {
      RunLooksUp(tb, h, t, answers + [Plain(tb, Asks(h, t)[|answers|], n).value], j, n);
    }
  }

  // ---------- What can be told from configuration and pool state ----------

  /** An edge of the live graph: some live handler of `k` may look `next` up. */
  ghost predicate Reads(tb: Table, k: Key, next: Key) {
    !TokenInactive(tb, k.token) && exists h :: h in tb.handlers && Live(tb, h, k) && next in Asks(h, k.token)
  }

  /** All paths from `k` in the live graph are shorter than `n`. */
  ghost predicate WellFounded(tb: Table, k: Key, n: nat)
    decreases n
  {
    n > 0 && forall next :: Reads(tb, k, next) ==> WellFounded(tb, next, n - 1)
  }

  /** On a well-founded live graph `getPrice` terminates without the cache, in every table. */
  lemma {:induction false} WellFoundedIsShallow(tb: Table, k: Key, n: nat)
    requires WellFounded(tb, k, n)
    ensures Shallow(tb, k, n)
    decreases n
  {
    forall h, j | h in tb.handlers && !TokenInactive(tb, k.token) && Live(tb, h, k) && 0 <= j < |Asks(h, k.token)|
      ensures Shallow(tb, Asks(h, k.token)[j], n - 1)
    {
      assert Reads(tb, k, Asks(h, k.token)[j]);
      WellFoundedIsShallow(tb, Asks(h, k.token)[j], n - 1);
    }
  }

  /**
   Only the last leg a spot lookup asks for can settle it: the pool has two tokens, or lacks a reserve on one
   side of every earlier pair.
   */
  predicate Settled(h: Handler, t: Address) {
    h.kind.Balancer? && h.kind.legs.Some? && t != h.kind.bpt ==>
      var legs := h.kind.legs.value;
      forall j :: 0 <= j < |OtherLegs(legs, t)| - 1 ==>
          legs[FindLeg(legs, t)].balance == 0 || OtherLegs(legs, t)[j].balance == 0
  }

  lemma SettledReaches(tb: Table, h: Handler, t: Address, j: nat, n: nat)
    requires Settled(h, t) && j < |Asks(h, t)|
    ensures Reached(tb, h, t, j, n)
  {
    forall i | 0 <= i < j && Plain(tb, Asks(h, t)[i], n).Some?
      ensures !Stops(tb, h, t, i, Plain(tb, Asks(h, t)[i], n).value)
    {
      NoQuoteWithoutReserve(tb, h, t, i, Plain(tb, Asks(h, t)[i], n).value);
    }
  }

  lemma NoQuoteWithoutReserve(tb: Table, h: Handler, t: Address, i: nat, q: Quote)
    requires Settled(h, t) && i < |Asks(h, t)| - 1
    ensures !Stops(tb, h, t, i, q)
  {
  }

  /**
   Where every pool is settled, termination can be read off configuration and pool state: `getPrice`
   terminates without the cache if and only if the live graph below its key is well-founded.
   */
  lemma {:induction false} TerminatesExactlyWhenWellFounded(tb: Table, k: Key, n: nat)
    requires forall h, t :: h in tb.handlers ==> Settled(h, t)
    ensures Plain(tb, k, n).Some? <==> WellFounded(tb, k, n)
    decreases n
  {
    TerminatesExactly(tb, k, n);
    if WellFounded(tb, k, n) {
      WellFoundedIsShallow(tb, k, n);
    }
    if Shallow(tb, k, n) {
      forall next | Reads(tb, k, next) ensures WellFounded(tb, next, n - 1) {
        var h :| h in tb.handlers && Live(tb, h, k) && next in Asks(h, k.token);
        var j :| 0 <= j < |Asks(h, k.token)| && Asks(h, k.token)[j] == next;
        SettledReaches(tb, h, k.token, j, n - 1);
        TerminatesExactlyWhenWellFounded(tb, next, n - 1);
        TerminatesExactly(tb, next, n - 1);
      }
    }
  }

  /**
   After any lookups of a snapshot, a key on which plain recursion terminates is priced as plain recursion
   prices it.
   */
  lemma SnapshotPricesShallowKeys(tb: Table, tokens: set<Address>, ks: seq<Key>, k: Key, n: nat)
    requires Closed(tb, tokens) && k in Keys(tb, tokens) && forall k' :: k' in ks ==> k' in Keys(tb, tokens)
    requires Shallow(tb, k, n)
    ensures Plain(tb, k, n) == Some(Lookup(tb, tokens, k, Snapshot(tb, tokens, ks)).0)
  {
    SnapshotAgrees(tb, tokens, ks);
    MemoAgrees(tb, tokens, k, Snapshot(tb, tokens, ks));
    TerminatesExactly(tb, k, n);
  }

  // ---------- Cycles ----------

  /** `k` is priced by a live handler whose first lookup is `next`. */
  ghost predicate AsksFirst(tb: Table, k: Key, next: Key) {
    !TokenInactive(tb, k.token) && exists h :: h in tb.handlers && Live(tb, h, k) && Asks(h, k.token)[0] == next
  }

  /** A key whose first lookup does not terminate does not terminate itself. */
  lemma FirstLookupStuck(tb: Table, k: Key, next: Key, n: nat)
    requires AsksFirst(tb, k, next) && (n == 0 || Plain(tb, next, n - 1).None?)
    ensures Plain(tb, k, n).None?
  {
    if n > 0 {
      TerminatesExactly(tb, k, n);
      TerminatesExactly(tb, next, n - 1);
      var h :| h in tb.handlers && Live(tb, h, k) && Asks(h, k.token)[0] == next;
      assert Reached(tb, h, k.token, 0, n - 1);
    }
  }

  predicate RingPool(h: Handler, a: Address, b: Address) {
    h.kind.Univ2? && h.kind.a == a && h.kind.b == b && h.kind.reserves.Some?
  }

  lemma {:induction false} FindFirst(handlers: seq<Handler>, i: nat)
    requires i < |handlers| && forall j :: 0 <= j < i ==> handlers[j].id != handlers[i].id
    ensures FindHandler(handlers, handlers[i].id) == Some(handlers[i])
  {
    if i > 0 {
      FindFirst(handlers[1..], i - 1);
    }
  }

  lemma PairsDiffer(left: Handler, right: Handler, t: Address)
    requires t in left.Tokens() && t !in right.Tokens()
    ensures !SameTokenSet(left, right)
  {
    assert t in multiset(left.Tokens()) && t !in multiset(right.Tokens());
  }

  /** Pool `h` is live for its first token, coming from outside or from pool `previous`, and asks for its second. */
  lemma RingEdge(tb: Table, h: Handler, previous: Handler, a: Address, b: Address, c: Address, k: Key)
    requires h in tb.handlers && RingPool(h, a, b) && RingPool(previous, c, a) && a != b && b != c
             && h.id != previous.id
    requires FindHandler(tb.handlers, previous.id) == Some(previous) && IsActive(h.startBlock, tb.block)
             && !TokenInactive(tb, a)
    requires k.token == a && (k.pool == None || k.pool == Some(previous.id))
    ensures AsksFirst(tb, k, Key(b, Some(h.id)))
  {
    assert h.Tokens() == [a, b] && previous.Tokens() == [c, a];
    assert h.Tokens()[0] == a && h.Tokens()[1] == b;
    PairsDiffer(h, previous, b);
    assert Secondary(h.kind, a) == b;
    assert Live(tb, h, k);
  }

  /** The three known constant-product pools of the table trade `a` for `b`, `b` for `c` and `c` for `a`. */
  predicate IsRing(tb: Table, p: Handler, q: Handler, r: Handler, a: Address, b: Address, c: Address) {
    && tb.handlers == [p, q, r] && p.id != q.id && q.id != r.id && r.id != p.id
    && a != b && b != c && c != a && RingPool(p, a, b) && RingPool(q, b, c) && RingPool(r, c, a)
    && !TokenInactive(tb, a) && !TokenInactive(tb, b) && !TokenInactive(tb, c)
    && IsActive(p.startBlock, tb.block) && IsActive(q.startBlock, tb.block) && IsActive(r.startBlock, tb.block)
  }

  lemma RingHandlers(tb: Table, p: Handler, q: Handler, r: Handler)
    requires tb.handlers == [p, q, r] && p.id != q.id && q.id != r.id && r.id != p.id
    ensures p in tb.handlers && q in tb.handlers && r in tb.handlers
    ensures FindHandler(tb.handlers, p.id) == Some(p) && FindHandler(tb.handlers, q.id) == Some(q)
    ensures FindHandler(tb.handlers, r.id) == Some(r)
  {
    assert p == tb.handlers[0] && q == tb.handlers[1] && r == tb.handlers[2];
    FindFirst(tb.handlers, 0);
    FindFirst(tb.handlers, 1);
    FindFirst(tb.handlers, 2);
  }

  /** The three lookups of the ring, from the pools, and the one by which it is entered. */
  lemma RingCycle(tb: Table, p: Handler, q: Handler, r: Handler, a: Address, b: Address, c: Address)
    requires IsRing(tb, p, q, r, a, b, c)
    ensures AsksFirst(tb, Key(a, Some(r.id)), Key(b, Some(p.id)))
    ensures AsksFirst(tb, Key(b, Some(p.id)), Key(c, Some(q.id)))
            && AsksFirst(tb, Key(c, Some(q.id)), Key(a, Some(r.id)))
  {
    RingHandlers(tb, p, q, r);
    RingEdge(tb, p, r, a, b, c, Key(a, Some(r.id)));
    RingEdge(tb, q, p, b, c, a, Key(b, Some(p.id)));
    RingEdge(tb, r, q, c, a, b, Key(c, Some(q.id)));
  }

  lemma RingEntry(tb: Table, p: Handler, q: Handler, r: Handler, a: Address, b: Address, c: Address)
    requires IsRing(tb, p, q, r, a, b, c)
    ensures AsksFirst(tb, Key(a, None), Key(b, Some(p.id)))
  {
    RingHandlers(tb, p, q, r);
    RingEdge(tb, p, r, a, b, c, Key(a, None));
  }

  lemma RingBeneath(tb: Table, p: Handler, q: Handler, r: Handler, a: Address, b: Address, c: Address, n: nat)
    requires IsRing(tb, p, q, r, a, b, c)
    ensures Plain(tb, Key(a, Some(r.id)), n).None? && Plain(tb, Key(b, Some(p.id)), n).None?
  {
    RingCycle(tb, p, q, r, a, b, c);
    CycleNeverTerminates(tb, Key(a, Some(r.id)), Key(b, Some(p.id)), Key(c, Some(q.id)), n);
    CycleNeverTerminates(tb, Key(b, Some(p.id)), Key(c, Some(q.id)), Key(a, Some(r.id)), n);
  }

  /** Without the cache a ring of three pools is never priced, from outside or from one of its pools. */
  lemma RingNeverTerminates(tb: Table, p: Handler, q: Handler, r: Handler, a: Address, b: Address, c: Address, n: nat)
    requires IsRing(tb, p, q, r, a, b, c)
    ensures Plain(tb, Key(a, None), n).None? && Plain(tb, Key(a, Some(r.id)), n).None?
  {
    RingBeneath(tb, p, q, r, a, b, c, n);
    if n > 0 {
      RingBeneath(tb, p, q, r, a, b, c, n - 1);
    }
    RingEntry(tb, p, q, r, a, b, c);
    FirstLookupStuck(tb, Key(a, None), Key(b, Some(p.id)), n);
  }

  lemma {:induction false} CycleNeverTerminates(tb: Table, x: Key, y: Key, z: Key, n: nat)
    requires AsksFirst(tb, x, y) && AsksFirst(tb, y, z) && AsksFirst(tb, z, x)
    ensures Plain(tb, x, n).None?
    decreases n
  {
    if n > 0 {
      CycleNeverTerminates(tb, y, z, x, n - 1);
    }
    FirstLookupStuck(tb, x, y, n);
  }
}
