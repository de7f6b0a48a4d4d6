/**
 The filtered ERC-20 Transfer ledgers (apps/indexer/src/handlers/Erc20Transfers.ts): balances of the
 tracked wallets and total supplies, folded from the few events the filter lets through, against the
 full transfer history of EIP-20.
 */
module Erc20Ledger {

  type Address = nat
  const ZERO_ADDRESS: Address := 0

  datatype Transfer = Transfer(token: Address, from: Address, to: Address, value: nat, block: nat, logIndex: nat)

  // ---------- The chain ----------

  /** What one transfer does to the balance of `w`; the zero address mints and burns and has no balance. */
  function Delta(e: Transfer, t: Address, w: Address): int {
    if e.token != t then 0
    else (if e.to == w then e.value else 0) - (if e.from == w then e.value else 0)
  }

  /** `balanceOf(w)` of token `t` after a history from token genesis. */
  function BalanceOf(history: seq<Transfer>, t: Address, w: Address): int {
    if history == [] then 0 else BalanceOf(history[..|history| - 1], t, w) + Delta(history[|history| - 1], t, w)
  }

  function SupplyDelta(e: Transfer, t: Address): int {
    if e.token != t then 0
    else (if e.from == ZERO_ADDRESS then e.value else 0) - (if e.to == ZERO_ADDRESS then e.value else 0)
  }

  /** `totalSupply()`: everything minted less everything burned. */
  function TotalSupply(history: seq<Transfer>, t: Address): int {
    if history == [] then 0 else TotalSupply(history[..|history| - 1], t) + SupplyDelta(history[|history| - 1], t)
  }

  /** Every sender other than the zero address owned what it sent. */
  ghost predicate ValidHistory(history: seq<Transfer>) {
    forall n :: 0 <= n < |history| ==>
      var e := history[n];
      e.from == ZERO_ADDRESS || e.value <= BalanceOf(history[..n], e.token, e.from)
  }

  function SumBalances(history: seq<Transfer>, t: Address, holders: seq<Address>): int {
    if holders == [] then 0 else BalanceOf(history, t, holders[0]) + SumBalances(history, t, holders[1..])
  }

  function SumDeltas(e: Transfer, t: Address, holders: seq<Address>): int {
    if holders == [] then 0 else Delta(e, t, holders[0]) + SumDeltas(e, t, holders[1..])
  }

  ghost predicate Distinct(xs: seq<Address>) {
    forall i, j :: 0 <= i < j < |xs| ==> xs[i] != xs[j]
  }

  lemma {:induction false} SumStep(history: seq<Transfer>, e: Transfer, t: Address, holders: seq<Address>)
    ensures SumBalances(history + [e], t, holders) == SumBalances(history, t, holders) + SumDeltas(e, t, holders)
  {
    if holders == [] {
    } else {
      SumStep(history, e, t, holders[1..]);
      assert (history + [e])[..|history|] == history;
    }
  }

  lemma {:induction false} SumDeltasOf(e: Transfer, t: Address, holders: seq<Address>)
    requires Distinct(holders) && e.token == t
    ensures SumDeltas(e, t, holders)
            == (if e.to in holders then e.value else 0) - (if e.from in holders then e.value else 0)
  {
    if holders == [] {
    } else {
      SumDeltasOf(e, t, holders[1..]);
    }
  }

  lemma {:induction false} SumDeltasForeign(e: Transfer, t: Address, holders: seq<Address>)
    requires e.token != t
    ensures SumDeltas(e, t, holders) == 0
  {
    if holders == [] {
    } else {
      SumDeltasForeign(e, t, holders[1..]);
    }
  }

  lemma {:induction false} SumEmpty(t: Address, holders: seq<Address>)
    ensures SumBalances([], t, holders) == 0
  {
    if holders == [] {
    } else {
      SumEmpty(t, holders[1..]);
    }
  }

  ghost predicate Holders(history: seq<Transfer>, holders: seq<Address>) {
    && Distinct(holders) && ZERO_ADDRESS !in holders
    && forall e :: e in history ==>
        (e.from == ZERO_ADDRESS || e.from in holders) && (e.to == ZERO_ADDRESS || e.to in holders)
  }

  /** Conservation: the total supply is the sum of all balances, over any list of the holders. */
  lemma {:induction false} SupplyIsSumOfBalances(history: seq<Transfer>, t: Address, holders: seq<Address>)
    requires Holders(history, holders)
    ensures TotalSupply(history, t) == SumBalances(history, t, holders)
  {
    if history == [] {
      SumEmpty(t, holders);
    } else {
      var n := |history| - 1;
      var e := history[n];
      assert history == history[..n] + [e];
      assert e in history;
      SupplyIsSumOfBalances(history[..n], t, holders);
      SumStep(history[..n], e, t, holders);
      if e.token == t { SumDeltasOf(e, t, holders); } else { SumDeltasForeign(e, t, holders); }
    }
  }

  lemma {:induction false} BalancesNonNegative(history: seq<Transfer>, t: Address, w: Address)
    requires ValidHistory(history) && w != ZERO_ADDRESS
    ensures BalanceOf(history, t, w) >= 0
  {
    if history == [] {
    } else {
      var n := |history| - 1;
      assert forall k :: 0 <= k < n ==> history[..n][..k] == history[..k];
      BalancesNonNegative(history[..n], t, w);
    }
  }

  lemma {:induction false} SumAtLeast(history: seq<Transfer>, t: Address, holders: seq<Address>, w: Address)
    requires ValidHistory(history) && ZERO_ADDRESS !in holders && w in holders
    ensures SumBalances(history, t, holders) >= BalanceOf(history, t, w) >= 0
  {
    BalancesNonNegative(history, t, w);
    BalancesNonNegative(history, t, holders[0]);
    if w in holders[1..] {
      SumAtLeast(history, t, holders[1..], w);
    } else {
      SumNonNegative(history, t, holders[1..]);
    }
  }

  lemma {:induction false} SumNonNegative(history: seq<Transfer>, t: Address, holders: seq<Address>)
    requires ValidHistory(history) && ZERO_ADDRESS !in holders
    ensures SumBalances(history, t, holders) >= 0
  {
    if holders == [] {
    } else {
      BalancesNonNegative(history, t, holders[0]);
      SumNonNegative(history, t, holders[1..]);
    }
  }

  lemma {:induction false} HoldersExist(history: seq<Transfer>) returns (holders: seq<Address>)
    ensures Holders(history, holders)
  {
    if history == [] {
      holders := [];
    } else {
      var n := |history| - 1;
      holders := HoldersExist(history[..n]);
      assert history == history[..n] + [history[n]];
      if history[n].from != ZERO_ADDRESS && history[n].from !in holders {
        holders := holders + [history[n].from];
      }
      if history[n].to != ZERO_ADDRESS && history[n].to !in holders {
        holders := holders + [history[n].to];
      }
    }
  }

  /** A burn never exceeds the total supply. */
  lemma BurnCovered(history: seq<Transfer>, t: Address, w: Address)
    requires ValidHistory(history) && w != ZERO_ADDRESS
    ensures TotalSupply(history, t) >= BalanceOf(history, t, w) >= 0
  {
    var holders := HoldersExist(history);
    if w !in holders {
      holders := holders + [w];
    }
    SupplyIsSumOfBalances(history, t, holders);
    SumAtLeast(history, t, holders, w);
  }

  // ---------- The indexer's ledger ----------

  datatype UpdateId = UpdateId(token: Address, wallet: Address, block: nat, logIndex: nat)
  datatype Update = Update(delta: int, balance: int)

  datatype SupplyUpdateId = SupplyUpdateId(token: Address, block: nat, logIndex: nat)
  datatype SupplyUpdate = SupplyUpdate(delta: int, totalSupply: int)

  /** `balances` and `supplies` are the latest-value rows, the others the logs of their updates under their row ids. */
  datatype Ledger = Ledger(balances: map<(Address, Address), int>, supplies: map<Address, int>,
                           updates: map<UpdateId, Update>, supplyUpdates: map<SupplyUpdateId, SupplyUpdate>)
  {
    function Balance(t: Address, w: Address): int {
      if (t, w) in balances then balances[(t, w)] else 0
    }

    function Supply(t: Address): int {
      if t in supplies then supplies[t] else 0
    }
  }

  const EMPTY := Ledger(map[], map[], map[], map[])

  /** `applyTransferToWalletBalance`. */
  function ApplyBalance(l: Ledger, e: Transfer, w: Address, delta: int): Ledger {
    var next := l.Balance(e.token, w) + delta;
    l.(balances := l.balances[(e.token, w) := next],
       updates := l.updates[UpdateId(e.token, w, e.block, e.logIndex) := Update(delta, next)])
  }

  /** `applyMintBurnToSupply`, with its clamp at zero. */
  function ApplySupply(l: Ledger, e: Transfer, delta: int): Ledger {
    var next := if l.Supply(e.token) + delta < 0 then 0 else l.Supply(e.token) + delta;
    l.(supplies := l.supplies[e.token := next],
       supplyUpdates := l.supplyUpdates[SupplyUpdateId(e.token, e.block, e.logIndex) := SupplyUpdate(delta, next)])
  }

  /** The sender's half of the treasury handler, and the receiver's. */
  function TreasurySender(l: Ledger, wallets: set<Address>, e: Transfer): Ledger {
    if e.from in wallets then ApplyBalance(l, e, e.from, -(e.value as int)) else l
  }

  function TreasuryReceiver(l: Ledger, wallets: set<Address>, e: Transfer): Ledger {
    if e.to in wallets then ApplyBalance(l, e, e.to, e.value) else l
  }

  /** `handleTreasuryTransfer`. */
  function TreasuryTransfer(l: Ledger, wallets: set<Address>, e: Transfer): Ledger {
    TreasuryReceiver(TreasurySender(l, wallets, e), wallets, e)
  }

  /** The sender's half of the LP handler, and the receiver's. */
  function LpSender(l: Ledger, wallets: set<Address>, e: Transfer): Ledger {
    if e.from == ZERO_ADDRESS then ApplySupply(l, e, e.value)
    else if e.from in wallets then ApplyBalance(l, e, e.from, -(e.value as int)) else l
  }

  function LpReceiver(l: Ledger, wallets: set<Address>, e: Transfer): Ledger {
    if e.to == ZERO_ADDRESS then ApplySupply(l, e, -(e.value as int))
    else if e.to in wallets then ApplyBalance(l, e, e.to, e.value) else l
  }

  /** `handleLpTransfer`. */
  function LpTransfer(l: Ledger, wallets: set<Address>, e: Transfer): Ledger {
    LpReceiver(LpSender(l, wallets, e), wallets, e)
  }

  /** `buildTreasuryTransferWhere`: no wallets, no events. */
  predicate PassesTreasury(wallets: set<Address>, e: Transfer) {
    wallets != {} && (e.from in wallets || e.to in wallets)
  }

  /** `buildLpTransferWhere`. */
  predicate PassesLp(wallets: set<Address>, e: Transfer) {
    wallets != {} && (e.from in wallets || e.to in wallets || e.from == ZERO_ADDRESS || e.to == ZERO_ADDRESS)
  }

  function TreasuryLedger(wallets: set<Address>, history: seq<Transfer>): Ledger {
    if history == [] then EMPTY
    else
      var l, e := TreasuryLedger(wallets, history[..|history| - 1]), history[|history| - 1];
      if PassesTreasury(wallets, e) then TreasuryTransfer(l, wallets, e) else l
  }

  function LpLedger(wallets: set<Address>, history: seq<Transfer>): Ledger {
    if history == [] then EMPTY
    else
      var l, e := LpLedger(wallets, history[..|history| - 1]), history[|history| - 1];
      if PassesLp(wallets, e) then LpTransfer(l, wallets, e) else l
  }

  /** The clamp of `applyMintBurnToSupply` fires while the last event of a history is handled. */
  predicate ClampFires(l: Ledger, e: Transfer) {
    e.to == ZERO_ADDRESS
    && (if e.from == ZERO_ADDRESS then l.Supply(e.token) + e.value - e.value < 0 else l.Supply(e.token) - e.value < 0)
  }

  /** The treasury ledger holds every tracked wallet's true balance. */
  lemma {:induction false} TreasuryLedgerExact(wallets: set<Address>, history: seq<Transfer>, t: Address, w: Address)
    requires w in wallets
    ensures TreasuryLedger(wallets, history).Balance(t, w) == BalanceOf(history, t, w)
  {
    if history == [] {
    } else {
      TreasuryLedgerExact(wallets, history[..|history| - 1], t, w);
    }
  }

  /** One handled event, when a burn in it is covered by the tracked supply. */
  lemma LpStep(l: Ledger, wallets: set<Address>, e: Transfer)
    requires l.Supply(e.token) >= 0 && !ClampFires(l, e)
    ensures forall t :: LpTransfer(l, wallets, e).Supply(t) == l.Supply(t) + SupplyDelta(e, t)
    ensures forall t, w :: w in wallets && w != ZERO_ADDRESS ==>
              LpTransfer(l, wallets, e).Balance(t, w) == l.Balance(t, w) + Delta(e, t, w)
  {
    forall t ensures LpTransfer(l, wallets, e).Supply(t) == l.Supply(t) + SupplyDelta(e, t) {
      LpSupplyStep(l, wallets, e, t);
    }
    forall t, w | w in wallets && w != ZERO_ADDRESS
      ensures LpTransfer(l, wallets, e).Balance(t, w) == l.Balance(t, w) + Delta(e, t, w)
    {
      LpBalanceStep(l, wallets, e, t, w);
    }
  }

  lemma LpSupplyStep(l: Ledger, wallets: set<Address>, e: Transfer, t: Address)
    requires l.Supply(e.token) >= 0 && !ClampFires(l, e)
    ensures LpTransfer(l, wallets, e).Supply(t) == l.Supply(t) + SupplyDelta(e, t)
  {
  }

  lemma TreasuryBalanceStep(l: Ledger, wallets: set<Address>, e: Transfer, t: Address, w: Address)
    requires w in wallets
    ensures TreasuryTransfer(l, wallets, e).Balance(t, w) == l.Balance(t, w) + Delta(e, t, w)
  {
  }

  lemma LpBalanceStep(l: Ledger, wallets: set<Address>, e: Transfer, t: Address, w: Address)
    requires w in wallets && w != ZERO_ADDRESS
    ensures LpTransfer(l, wallets, e).Balance(t, w) == l.Balance(t, w) + Delta(e, t, w)
  {
  }

  /**
   The tracked supply of every token is its true total supply after any valid history from token
   genesis, if and only if there are wallets to filter for or the true supply is zero.
   */
  lemma {:induction false} LpSupplyExact(wallets: set<Address>, history: seq<Transfer>, t: Address)
    requires ValidHistory(history)
    ensures LpLedger(wallets, history).Supply(t) == TotalSupply(history, t)
            <==> wallets != {} || TotalSupply(history, t) == 0
    decreases |history|, 0
  {
    if wallets == {} {
      NothingTracked(history);
    } else if history != [] {
      var n := |history| - 1;
      var e := history[n];
      assert forall k :: 0 <= k < n ==> history[..n][..k] == history[..k];
      LpSupplyExact(wallets, history[..n], t);
      ClampNeverFires(wallets, history, n);
      LpStep(LpLedger(wallets, history[..n]), wallets, e);
    }
  }

  lemma {:induction false} NothingTracked(history: seq<Transfer>)
    ensures LpLedger({}, history) == EMPTY
  {
    if history == [] {
    } else {
      NothingTracked(history[..|history| - 1]);
    }
  }

  /** Along a valid history the supply clamp never fires. */
  lemma {:induction false} ClampNeverFires(wallets: set<Address>, history: seq<Transfer>, n: nat)
    requires ValidHistory(history) && n < |history| && wallets != {}
    ensures LpLedger(wallets, history[..n]).Supply(history[n].token) >= 0
    ensures !ClampFires(LpLedger(wallets, history[..n]), history[n])
    decreases n, 1
  {
    var e := history[n];
    assert forall k :: 0 <= k < n ==> history[..n][..k] == history[..k];
    LpSupplyExact(wallets, history[..n], e.token);
    BurnCovered(history[..n], e.token, if e.from != ZERO_ADDRESS then e.from else 1);
  }

  /**
   The LP and OHM ledger refines the chain: after any valid history from token genesis each tracked
   wallet but the zero address has its true balance, from the filtered events alone.
   */
  lemma {:induction false} LpLedgerExact(wallets: set<Address>, history: seq<Transfer>, t: Address, w: Address)
    requires ValidHistory(history) && w in wallets && w != ZERO_ADDRESS
    ensures LpLedger(wallets, history).Balance(t, w) == BalanceOf(history, t, w)
  {
    if history == [] {
    } else {
      var n := |history| - 1;
      assert forall k :: 0 <= k < n ==> history[..n][..k] == history[..k];
      LpLedgerExact(wallets, history[..n], t, w);
      ClampNeverFires(wallets, history, n);
      LpStep(LpLedger(wallets, history[..n]), wallets, history[n]);
    }
  }

  /** A row's worth of the log: the delta logged for a wallet by one event. */
  function LoggedDelta(l: Ledger, e: Transfer, w: Address): int {
    var id := UpdateId(e.token, w, e.block, e.logIndex);
    if id in l.updates then l.updates[id].delta else 0
  }

  lemma TreasurySenderAt(l: Ledger, wallets: set<Address>, e: Transfer, w: Address)
    requires w in wallets
    ensures var l' := TreasurySender(l, wallets, e);
            && l'.Balance(e.token, w) == l.Balance(e.token, w) - (if e.from == w then e.value else 0)
            && LoggedDelta(l', e, w) == if e.from == w then -(e.value as int) else LoggedDelta(l, e, w)
  {
  }

  lemma TreasuryReceiverAt(l: Ledger, wallets: set<Address>, e: Transfer, w: Address)
    requires w in wallets
    ensures var l' := TreasuryReceiver(l, wallets, e);
            && l'.Balance(e.token, w) == l.Balance(e.token, w) + (if e.to == w then e.value else 0)
            && LoggedDelta(l', e, w) == if e.to == w then e.value else LoggedDelta(l, e, w)
  {
  }

  lemma TreasuryLogAt(l: Ledger, wallets: set<Address>, e: Transfer, w: Address)
    requires UpdateId(e.token, w, e.block, e.logIndex) !in l.updates && w in wallets
    ensures var l' := TreasuryTransfer(l, wallets, e);
            LoggedDelta(l', e, w) == l'.Balance(e.token, w) - l.Balance(e.token, w)
            <==> !(e.from == e.to == w && e.value > 0)
  {
    TreasurySenderAt(l, wallets, e, w);
    TreasuryReceiverAt(TreasurySender(l, wallets, e), wallets, e, w);
  }

  /**
   The log of an event explains every tracked balance change if and only if the event is not a nonzero
   transfer of a tracked wallet to itself: its two rows share one id and the debit is lost.
   */
  lemma LogExplainsTreasuryExact(l: Ledger, wallets: set<Address>, e: Transfer)
    requires forall w :: UpdateId(e.token, w, e.block, e.logIndex) !in l.updates
    ensures var l' := TreasuryTransfer(l, wallets, e);
            (forall w :: w in wallets ==> LoggedDelta(l', e, w) == l'.Balance(e.token, w) - l.Balance(e.token, w))
            <==> !(e.from == e.to && e.from in wallets && e.value > 0)
  {
    var l' := TreasuryTransfer(l, wallets, e);
    forall w | w in wallets
      ensures LoggedDelta(l', e, w) == l'.Balance(e.token, w) - l.Balance(e.token, w)
              <==> !(e.from == e.to == w && e.value > 0)
    {
      TreasuryLogAt(l, wallets, e, w);
    }
  }

  lemma LpSenderAt(l: Ledger, wallets: set<Address>, e: Transfer, w: Address)
    requires w in wallets && w != ZERO_ADDRESS
    ensures var l' := LpSender(l, wallets, e);
            && l'.Balance(e.token, w) == l.Balance(e.token, w) - (if e.from == w then e.value else 0)
            && LoggedDelta(l', e, w) == if e.from == w then -(e.value as int) else LoggedDelta(l, e, w)
  {
  }

  lemma LpReceiverAt(l: Ledger, wallets: set<Address>, e: Transfer, w: Address)
    requires w in wallets && w != ZERO_ADDRESS
    ensures var l' := LpReceiver(l, wallets, e);
            && l'.Balance(e.token, w) == l.Balance(e.token, w) + (if e.to == w then e.value else 0)
            && LoggedDelta(l', e, w) == if e.to == w then e.value else LoggedDelta(l, e, w)
  {
  }

  lemma LpLogAt(l: Ledger, wallets: set<Address>, e: Transfer, w: Address)
    requires UpdateId(e.token, w, e.block, e.logIndex) !in l.updates && w in wallets && w != ZERO_ADDRESS
    ensures var l' := LpTransfer(l, wallets, e);
            LoggedDelta(l', e, w) == l'.Balance(e.token, w) - l.Balance(e.token, w)
            <==> !(e.from == e.to == w && e.value > 0)
  {
    LpSenderAt(l, wallets, e, w);
    LpReceiverAt(LpSender(l, wallets, e), wallets, e, w);
  }

  /** The same of the LP and OHM handler, for the wallets it tracks: all but the zero address. */
  lemma LogExplainsLpExact(l: Ledger, wallets: set<Address>, e: Transfer)
    requires forall w :: UpdateId(e.token, w, e.block, e.logIndex) !in l.updates
    ensures var l' := LpTransfer(l, wallets, e);
            (forall w :: w in wallets && w != ZERO_ADDRESS ==>
               LoggedDelta(l', e, w) == l'.Balance(e.token, w) - l.Balance(e.token, w))
            <==> !(e.from == e.to && e.from in wallets && e.from != ZERO_ADDRESS && e.value > 0)
  {
    var l' := LpTransfer(l, wallets, e);
    forall w | w in wallets && w != ZERO_ADDRESS
      ensures LoggedDelta(l', e, w) == l'.Balance(e.token, w) - l.Balance(e.token, w)
              <==> !(e.from == e.to == w && e.value > 0)
    {
      LpLogAt(l, wallets, e, w);
    }
  }

  /** The delta logged for a token's supply by one event. */
  function LoggedSupplyDelta(l: Ledger, e: Transfer): int {
    var id := SupplyUpdateId(e.token, e.block, e.logIndex);
    if id in l.supplyUpdates then l.supplyUpdates[id].delta else 0
  }

  /**
   The supply log of an event explains the change of the supply if and only if the clamp does not fire and
   the event is not a nonzero transfer from the zero address to itself, whose two rows share one id.
   */
  lemma LogExplainsSupplyExact(l: Ledger, wallets: set<Address>, e: Transfer)
    requires SupplyUpdateId(e.token, e.block, e.logIndex) !in l.supplyUpdates && l.Supply(e.token) >= 0
    ensures var l' := LpTransfer(l, wallets, e);
            LoggedSupplyDelta(l', e) == l'.Supply(e.token) - l.Supply(e.token)
            <==> !ClampFires(l, e) && !(e.from == e.to == ZERO_ADDRESS && e.value > 0)
  {
  }

  // ---------- The handlers as they run ----------

  class Indexer {
    const wallets: set<Address>
    var balances: map<(Address, Address), int>
    var supplies: map<Address, int>
    var updates: map<UpdateId, Update>
    var supplyUpdates: map<SupplyUpdateId, SupplyUpdate>

    function State(): Ledger
      reads this
    {
      Ledger(balances, supplies, updates, supplyUpdates)
    }

    constructor (wallets: set<Address>)
      ensures this.wallets == wallets && State() == EMPTY
    {
      this.wallets := wallets;
      balances, supplies, updates, supplyUpdates := map[], map[], map[], map[];
    }

    method ApplyTransferToWalletBalance(e: Transfer, wallet: Address, delta: int)
      modifies this
      ensures State() == ApplyBalance(old(State()), e, wallet, delta)
    {
      var previous := if (e.token, wallet) in balances then balances[(e.token, wallet)] else 0;
      var next := previous + delta;
      updates := updates[UpdateId(e.token, wallet, e.block, e.logIndex) := Update(delta, next)];
      balances := balances[(e.token, wallet) := next];
    }

    method ApplyMintBurnToSupply(e: Transfer, delta: int)
      modifies this
      ensures State() == ApplySupply(old(State()), e, delta)
    {
      var previous := if e.token in supplies then supplies[e.token] else 0;
      var nextRaw := previous + delta;
      var next := if nextRaw < 0 then 0 else nextRaw;
      supplyUpdates := supplyUpdates[SupplyUpdateId(e.token, e.block, e.logIndex) := SupplyUpdate(delta, next)];
      supplies := supplies[e.token := next];
    }

    method HandleTreasuryTransfer(e: Transfer)
      modifies this
      ensures State() == TreasuryTransfer(old(State()), wallets, e)
    {
      if e.from in wallets {
        ApplyTransferToWalletBalance(e, e.from, -(e.value as int));
      }
      if e.to in wallets {
        ApplyTransferToWalletBalance(e, e.to, e.value);
      }
    }

    method HandleLpTransfer(e: Transfer)
      modifies this
      ensures State() == LpTransfer(old(State()), wallets, e)
    {
      if e.from == ZERO_ADDRESS {
        ApplyMintBurnToSupply(e, e.value);
      } else if e.from in wallets {
        ApplyTransferToWalletBalance(e, e.from, -(e.value as int));
      }
      if e.to == ZERO_ADDRESS {
        ApplyMintBurnToSupply(e, -(e.value as int));
      } else if e.to in wallets {
        ApplyTransferToWalletBalance(e, e.to, e.value);
      }
    }

    /** Indexing a whole history: the filter, then the handler, event by event. */
    method IndexLpHistory(history: seq<Transfer>)
      requires State() == EMPTY
      modifies this
      ensures State() == LpLedger(wallets, history)
    {
      for n := 0 to |history|
        invariant State() == LpLedger(wallets, history[..n])
      {
        assert history[..n + 1][..n] == history[..n];
        if PassesLp(wallets, history[n]) {
          HandleLpTransfer(history[n]);
        }
      }
      assert history[..|history|] == history;
    }
  }
}
