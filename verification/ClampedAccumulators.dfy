/**
 Accumulators that are clamped at zero after every change: staking positions
 (apps/indexer/src/handlers/Staking.ts), lender deployments and token supplies
 (apps/indexer/src/handlers/Erc20Transfers.ts).
 */
module ClampedAccumulators {

  type Id = string

  function Clamp(x: int): int {
    if x < 0 then 0 else x
  }

  /** The stored value after a sequence of changes, starting from nothing. */
  function Stored(deltas: seq<int>): int {
    if deltas == [] then 0 else Clamp(Stored(deltas[..|deltas| - 1]) + deltas[|deltas| - 1])
  }

  function Sum(deltas: seq<int>): int {
    if deltas == [] then 0 else Sum(deltas[..|deltas| - 1]) + deltas[|deltas| - 1]
  }

  /** `m` is the smaller of zero and the least prefix sum. */
  ghost predicate IsLeastPrefix(deltas: seq<int>, m: int) {
    && (forall k :: 0 <= k <= |deltas| ==> m <= Sum(deltas[..k]))
    && (exists k :: 0 <= k <= |deltas| && m == Sum(deltas[..k]))
  }

  /** Closed form: the stored value is the raw sum less the least prefix sum, the empty prefix included. */
  lemma {:induction false} StoredClosedForm(deltas: seq<int>, m: int)
    requires IsLeastPrefix(deltas, m)
    ensures Stored(deltas) == Sum(deltas) - m
  {
    if deltas == [] {
      assert deltas[..0] == [];
    } else {
      var n := |deltas| - 1;
      var m' := LeastPrefix(deltas[..n]);
      StoredClosedForm(deltas[..n], m');
      assert forall k :: 0 <= k <= n ==> deltas[..n][..k] == deltas[..k];
      assert deltas[..n + 1] == deltas;
      var k' :| 0 <= k' <= n && m' == Sum(deltas[..n][..k']);
      assert m <= Sum(deltas[..k']) && m <= Sum(deltas[..n + 1]);
      var k :| 0 <= k <= n + 1 && m == Sum(deltas[..k]);
      assert k <= n ==> m' <= Sum(deltas[..n][..k]);
    }
  }

  lemma {:induction false} LeastPrefix(deltas: seq<int>) returns (m: int)
    ensures IsLeastPrefix(deltas, m)
  {
    if deltas == [] {
      m := 0;
      assert deltas[..0] == [];
    } else {
      var n := |deltas| - 1;
      m := LeastPrefix(deltas[..n]);
      assert forall k :: 0 <= k <= n ==> deltas[..n][..k] == deltas[..k];
      assert deltas[..n + 1] == deltas;
      var k :| 0 <= k <= n && m == Sum(deltas[..n][..k]);
      assert m == Sum(deltas[..k]);
      if Sum(deltas) < m {
        m := Sum(deltas);
      }
    }
  }

  /** The stored value is at least the raw sum, and equal to it exactly when no prefix went negative. */
  lemma StoredExact(deltas: seq<int>)
    ensures Stored(deltas) >= Sum(deltas)
    ensures Stored(deltas) == Sum(deltas) <==> forall k :: 0 <= k <= |deltas| ==> Sum(deltas[..k]) >= 0
  {
    var m := LeastPrefix(deltas);
    StoredClosedForm(deltas, m);
    assert deltas[..0] == [];
    assert Sum(deltas[..0]) == 0;
  }

  // ---------- Many accumulators ----------

  datatype Change = Change(id: Id, delta: int)

  function DeltasOf(changes: seq<Change>, id: Id): seq<int> {
    if changes == [] then []
    else
      var last := changes[|changes| - 1];
      DeltasOf(changes[..|changes| - 1], id) + if last.id == id then [last.delta] else []
  }

  function Amount(amounts: map<Id, int>, id: Id): int {
    if id in amounts then amounts[id] else 0
  }

  /** `applyJonesDelta` and `applyTreasureDelta`. */
  function ApplyDelta(amounts: map<Id, int>, c: Change): map<Id, int> {
    amounts[c.id := Clamp(Amount(amounts, c.id) + c.delta)]
  }

  function AllApplied(changes: seq<Change>): map<Id, int> {
    if changes == [] then map[] else ApplyDelta(AllApplied(changes[..|changes| - 1]), changes[|changes| - 1])
  }

  lemma StoredAppend(deltas: seq<int>, d: int)
    ensures Stored(deltas + [d]) == Clamp(Stored(deltas) + d)
  {
    assert (deltas + [d])[..|deltas|] == deltas;
  }

  /** Interleaved changes of other accumulators do not matter: each stores the closed form of its own changes. */
  lemma {:induction false} EachStoresItsOwn(changes: seq<Change>, id: Id)
    ensures Amount(AllApplied(changes), id) == Stored(DeltasOf(changes, id))
  {
    if changes == [] {
    } else {
      var front, last := changes[..|changes| - 1], changes[|changes| - 1];
      EachStoresItsOwn(front, id);
      if last.id == id {
        StoredAppend(DeltasOf(front, id), last.delta);
      } else {
        assert DeltasOf(front, id) + [] == DeltasOf(front, id);
      }
    }
  }

  // ---------- Lenders ----------

  datatype Lender = Lender(active: bool, deployed: int)

  /** `AMOAdded`, `AMORemoved`, and the mints and burns of OHM at an address. */
  datatype LenderEvent = Added(id: Id) | Removed(id: Id) | Deployed(id: Id, delta: int)

  /** Only a lender that has been added or removed before accumulates; both keep what it has accumulated. */
  function OnLenderEvent(lenders: map<Id, Lender>, e: LenderEvent): map<Id, Lender> {
    match e
    case Added(id) => lenders[id := Lender(true, if id in lenders then lenders[id].deployed else 0)]
    case Removed(id) => lenders[id := Lender(false, if id in lenders then lenders[id].deployed else 0)]
    case Deployed(id, delta) =>
      if id in lenders then lenders[id := lenders[id].(deployed := Clamp(lenders[id].deployed + delta))] else lenders
  }

  function AllLenders(events: seq<LenderEvent>): map<Id, Lender> {
    if events == [] then map[] else OnLenderEvent(AllLenders(events[..|events| - 1]), events[|events| - 1])
  }

  predicate IsRegistered(events: seq<LenderEvent>, id: Id) {
    exists e :: e in events && !e.Deployed? && e.id == id
  }

  /** The deployments of a lender from its registration on. */
  function DeploymentsOf(events: seq<LenderEvent>, id: Id): seq<int> {
    if events == [] then []
    else
      var front, last := events[..|events| - 1], events[|events| - 1];
      if last.Deployed? && last.id == id && IsRegistered(front, id) then DeploymentsOf(front, id) + [last.delta]
      else DeploymentsOf(front, id)
  }

  lemma RegisteredInFront(events: seq<LenderEvent>, id: Id)
    requires events != []
    ensures var front, last := events[..|events| - 1], events[|events| - 1];
            IsRegistered(events, id) <==> IsRegistered(front, id) || (!last.Deployed? && last.id == id)
  {
    assert events == events[..|events| - 1] + [events[|events| - 1]];
  }

  /** A lender is stored exactly once registered, with its deployments since then, each cut at zero. */
  lemma {:induction false} RegisteredLenders(events: seq<LenderEvent>, id: Id)
    ensures id in AllLenders(events) <==> IsRegistered(events, id)
    ensures id in AllLenders(events) ==> AllLenders(events)[id].deployed == Stored(DeploymentsOf(events, id))
    ensures !IsRegistered(events, id) ==> DeploymentsOf(events, id) == []
  {
    if events == [] {
    } else {
      var front, last := events[..|events| - 1], events[|events| - 1];
      RegisteredLenders(front, id);
      RegisteredInFront(events, id);
      if last.Deployed? && last.id == id {
        StoredAppend(DeploymentsOf(front, id), last.delta);
      }
    }
  }

  /** The deployments of a lender before its registration: they are dropped. */
  function EarlyDeploymentsOf(events: seq<LenderEvent>, id: Id): seq<int> {
    if events == [] then []
    else
      var front, last := events[..|events| - 1], events[|events| - 1];
      if last.Deployed? && last.id == id && !IsRegistered(front, id) then EarlyDeploymentsOf(front, id) + [last.delta]
      else EarlyDeploymentsOf(front, id)
  }

  /** Every deployment of a lender. */
  function AllDeploymentsOf(events: seq<LenderEvent>, id: Id): seq<int> {
    if events == [] then []
    else
      var front, last := events[..|events| - 1], events[|events| - 1];
      AllDeploymentsOf(front, id) + if last.Deployed? && last.id == id then [last.delta] else []
  }

  lemma {:induction false} EarlyThenRegistered(events: seq<LenderEvent>, id: Id)
    ensures AllDeploymentsOf(events, id) == EarlyDeploymentsOf(events, id) + DeploymentsOf(events, id)
    ensures !IsRegistered(events, id) ==> DeploymentsOf(events, id) == []
  {
    if events == [] {
    } else {
      EarlyThenRegistered(events[..|events| - 1], id);
      RegisteredInFront(events, id);
    }
  }

  /** More changes lead to the stored value plus them, or to what they alone lead to, whichever is greater. */
  lemma {:induction false} StoredAfter(pre: seq<int>, post: seq<int>)
    ensures Stored(pre + post)
            == if Stored(pre) + Sum(post) > Stored(post) then Stored(pre) + Sum(post) else Stored(post)
  {
    if post == [] {
      assert pre + post == pre;
    } else {
      var k := |post| - 1;
      StoredAfter(pre, post[..k]);
      assert (pre + post)[..|pre| + k] == pre + post[..k];
    }
  }

  /**
   A registered lender stores what all its deployments would have led to if and only if those dropped before its
   registration would have been used up by the deepest fall since.
   */
  lemma RegisteredLendersExact(events: seq<LenderEvent>, id: Id, m: int)
    requires IsRegistered(events, id) && IsLeastPrefix(DeploymentsOf(events, id), m)
    ensures id in AllLenders(events)
    ensures AllLenders(events)[id].deployed == Stored(AllDeploymentsOf(events, id))
            <==> Stored(EarlyDeploymentsOf(events, id)) <= -m
  {
    RegisteredLenders(events, id);
    EarlyThenRegistered(events, id);
    StoredClosedForm(DeploymentsOf(events, id), m);
    StoredAfter(EarlyDeploymentsOf(events, id), DeploymentsOf(events, id));
  }

  /** Five OHM minted to a lender that is added afterwards are never stored. */
  lemma EarlyDeploymentLost(id: Id)
    ensures var events := [Deployed(id, 5), Added(id)];
            && id in AllLenders(events) && AllLenders(events)[id].deployed == 0
            && Stored(AllDeploymentsOf(events, id)) == 5
  {
    var first: seq<LenderEvent> := [Deployed(id, 5)];
    var events := [Deployed(id, 5), Added(id)];
    assert first[..0] == [] && events[..1] == first;
    assert AllLenders(first) == map[] && AllDeploymentsOf(first, id) == [5];
    assert AllDeploymentsOf(events, id) == [5];
    assert [5][..0] == [] && Stored([5]) == 5;
  }

  class Accumulators {
    var amounts: map<Id, int>
    var lenders: map<Id, Lender>

    constructor ()
      ensures amounts == map[] && lenders == map[]
    {
      amounts, lenders := map[], map[];
    }

    method ApplyStakingDelta(c: Change)
      modifies this`amounts
      ensures amounts == ApplyDelta(old(amounts), c)
    {
      var previous := if c.id in amounts then amounts[c.id] else 0;
      var next := previous + c.delta;
      amounts := amounts[c.id := if next < 0 then 0 else next];
    }

    method ApplyDeployedOhmDelta(id: Id, delta: int)
      modifies this`lenders
      ensures lenders == OnLenderEvent(old(lenders), Deployed(id, delta))
    {
      if id !in lenders {
        return;
      }
      var next := lenders[id].deployed + delta;
      lenders := lenders[id := Lender(lenders[id].active, if next < 0 then 0 else next)];
    }

    method OnAmoAdded(id: Id)
      modifies this`lenders
      ensures lenders == OnLenderEvent(old(lenders), Added(id))
    {
      lenders := lenders[id := Lender(true, if id in lenders then lenders[id].deployed else 0)];
    }

    method OnAmoRemoved(id: Id)
      modifies this`lenders
      ensures lenders == OnLenderEvent(old(lenders), Removed(id))
    {
      lenders := lenders[id := Lender(false, if id in lenders then lenders[id].deployed else 0)];
    }
  }
}
