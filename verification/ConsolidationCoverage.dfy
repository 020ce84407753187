/** When attribution stays within inventory over a whole replay, and when the amount
    a signal reports is one that the wallet it names holds. */
module ConsolidationCoverage {
  import opened Domain
  import opened Consolidation
  import opened ConsolidationLedger
  import opened ConsolidationDetector

  /** No wallet is attributed more than it holds. */
  ghost predicate Covered(ledger: Ledger) {
    && ledger.inventory.Keys == ledger.attributed.Keys
    && forall w :: w in ledger.inventory ==> ledger.attributed[w] <= ledger.inventory[w]
  }

  /** What the sender sends fits its attributed tokens, or fits its unattributed ones. */
  ghost predicate Guarded(ledger: Ledger, t: CanonicalTransfer)
    requires ledger.inventory.Keys == ledger.attributed.Keys && t.sourceWallet in ledger.inventory
  {
    || t.amountBaseUnits <= ledger.attributed[t.sourceWallet]
    || t.amountBaseUnits <= ledger.inventory[t.sourceWallet] - ledger.attributed[t.sourceWallet]
  }

  ghost predicate CoveredAt(start: Ledger, ordered: seq<CanonicalTransfer>, k: nat, operators: seq<string>)
    requires start.inventory.Keys == start.attributed.Keys && k <= |ordered|
  {
    var replayed := Replay(start, ordered[..k], operators);
    replayed.Applied? ==> Covered(replayed.ledger)
  }

  /** Transfer number `k`, if it applies, is within what its sender's tokens allow. */
  ghost predicate GuardedAt(start: Ledger, ordered: seq<CanonicalTransfer>, k: nat, operators: seq<string>)
    requires start.inventory.Keys == start.attributed.Keys && k < |ordered|
  {
    var replayed := Replay(start, ordered[..k], operators);
    replayed.Applied? && Apply(replayed.ledger, ordered[k], operators).Applied? ==>
      Guarded(replayed.ledger, ordered[k])
  }

  /** Every prefix of at most `n` transfers that replays leaves every wallet covered. */
  ghost predicate CoveredThrough(start: Ledger, ordered: seq<CanonicalTransfer>, n: nat, operators: seq<string>)
    requires start.inventory.Keys == start.attributed.Keys && n <= |ordered|
  {
    forall k :: 0 <= k <= n ==> CoveredAt(start, ordered, k, operators)
  }

  ghost predicate GuardedThrough(start: Ledger, ordered: seq<CanonicalTransfer>, n: nat, operators: seq<string>)
    requires start.inventory.Keys == start.attributed.Keys && n <= |ordered|
  {
    forall k :: 0 <= k < n ==> GuardedAt(start, ordered, k, operators)
  }

  ghost predicate Moves(t: CanonicalTransfer) {
    t.amountBaseUnits > 0 && t.sourceWallet != t.destinationWallet
  }

  ghost predicate AllMove(ordered: seq<CanonicalTransfer>) {
    forall k :: 0 <= k < |ordered| ==> Moves(ordered[k])
  }

  lemma ApplyCovers(ledger: Ledger, t: CanonicalTransfer, operators: seq<string>)
    requires Covered(ledger) && Moves(t) && Apply(ledger, t, operators).Applied?
    ensures Covered(Apply(ledger, t, operators).ledger) <==> Guarded(ledger, t)
  {
    SenderCoveredIff(ledger, t, operators);
  }

  /** From a covered prefix, the next one is covered exactly when its transfer is guarded. */
  lemma CoverageStep(start: Ledger, ordered: seq<CanonicalTransfer>, k: nat, operators: seq<string>)
    requires start.inventory.Keys == start.attributed.Keys && k < |ordered| && Moves(ordered[k])
    requires CoveredAt(start, ordered, k, operators)
    ensures CoveredAt(start, ordered, k + 1, operators) <==> GuardedAt(start, ordered, k, operators)
  {
    var before := Replay(start, ordered[..k], operators);
    if before.Applied? {
      ReplayNext(start, ordered, k, operators);
      if Apply(before.ledger, ordered[k], operators).Applied? {
        ApplyCovers(before.ledger, ordered[k], operators);
      }
    } else {
      assert ordered[..k + 1][..k] == ordered[..k];
    }
  }

  lemma CoveredIsGuarded(start: Ledger, ordered: seq<CanonicalTransfer>, n: nat, operators: seq<string>)
    requires start.inventory.Keys == start.attributed.Keys && n <= |ordered| && AllMove(ordered)
    requires CoveredThrough(start, ordered, n, operators)
    ensures GuardedThrough(start, ordered, n, operators)
  {
    forall k | 0 <= k < n ensures GuardedAt(start, ordered, k, operators) {
      assert CoveredAt(start, ordered, k, operators) && CoveredAt(start, ordered, k + 1, operators);
      CoverageStep(start, ordered, k, operators);
    }
  }

  lemma {:induction false} GuardedIsCovered(
    start: Ledger, ordered: seq<CanonicalTransfer>, n: nat, operators: seq<string>, k: nat)
    requires Covered(start) && k <= n <= |ordered| && AllMove(ordered)
    requires GuardedThrough(start, ordered, n, operators)
    ensures CoveredAt(start, ordered, k, operators)
  {
    if k == 0 {
      assert ordered[..0] == [];
    } else {
      GuardedIsCovered(start, ordered, n, operators, k - 1);
      assert GuardedAt(start, ordered, k - 1, operators);
      CoverageStep(start, ordered, k - 1, operators);
    }
  }

  lemma CoverageIff(start: Ledger, ordered: seq<CanonicalTransfer>, n: nat, operators: seq<string>)
    requires Covered(start) && n <= |ordered| && AllMove(ordered)
    ensures CoveredThrough(start, ordered, n, operators) <==> GuardedThrough(start, ordered, n, operators)
  {
    if CoveredThrough(start, ordered, n, operators) {
      CoveredIsGuarded(start, ordered, n, operators);
    }
    if GuardedThrough(start, ordered, n, operators) {
      forall k | 0 <= k <= n ensures CoveredAt(start, ordered, k, operators) {
        GuardedIsCovered(start, ordered, n, operators, k);
      }
    }
  }

  lemma StartCovered(
    transfers: seq<CanonicalTransfer>, items: seq<WalletTokenInventory>, config: ConsolidationConfig)
    requires ValidInputs(transfers, items, config)
    ensures Covered(StartLedger(items, config))
  {
    AcceptedRows(items, config);
    StartKeys(items, config);
    forall w | w in Balances(items) ensures Attributions(items, config)[w] <= Balances(items)[w] {
      assert w in WalletsOf(items);
      var k :| 0 <= k < |WalletsOf(items)| && WalletsOf(items)[k] == w;
      assert InventoryItemOk(items[k], config);
    }
  }

  lemma OrderedMoves(
    transfers: seq<CanonicalTransfer>, items: seq<WalletTokenInventory>, config: ConsolidationConfig)
    requires ValidInputs(transfers, items, config)
    ensures AllMove(InOrder(transfers))
  {
    SortedFacts(transfers, config);
    forall k | 0 <= k < |InOrder(transfers)| ensures Moves(InOrder(transfers)[k]) {
      assert TransferOk(InOrder(transfers)[k], config);
    }
  }

  /** On accepted inputs, attribution stays within inventory for every wallet over the
      first `n` transfers if and only if each of them that applies is guarded. */
  lemma AttributionCoveredIff(
    transfers: seq<CanonicalTransfer>, items: seq<WalletTokenInventory>, config: ConsolidationConfig, n: nat)
    requires ValidInputs(transfers, items, config) && n <= |InOrder(transfers)|
    ensures var start, ordered := StartLedger(items, config), InOrder(transfers);
            && start.inventory.Keys == start.attributed.Keys
            && (CoveredThrough(start, ordered, n, config.operatorWallets)
                <==> GuardedThrough(start, ordered, n, config.operatorWallets))
  {
    StartCovered(transfers, items, config);
    OrderedMoves(transfers, items, config);
    CoverageIff(StartLedger(items, config), InOrder(transfers), n, config.operatorWallets);
  }

  // ---------- what a signal reports ----------

  /** The wallet named by a signal held at least the reported amount when it was raised. */
  ghost predicate Held(
    start: Ledger, ordered: seq<CanonicalTransfer>, n: nat, operators: seq<string>, signal: ConsolidationSignal)
    requires start.inventory.Keys == start.attributed.Keys && n < |ordered|
  {
    var replayed := Replay(start, ordered[..n + 1], operators);
    && replayed.Applied?
    && signal.destinationWallet in replayed.ledger.inventory
    && signal.consolidatedBaseUnits <= replayed.ledger.inventory[signal.destinationWallet]
  }

  /** If every transfer up to the one that raises a signal is guarded, the wallet named
      holds what the signal reports, whoever it is. */
  lemma GuardedSignalIsHeld(
    transfers: seq<CanonicalTransfer>, items: seq<WalletTokenInventory>, config: ConsolidationConfig,
    n: nat, signal: ConsolidationSignal)
    requires ValidInputs(transfers, items, config) && n < |InOrder(transfers)|
    ensures var start, ordered := StartLedger(items, config), InOrder(transfers);
            && start.inventory.Keys == start.attributed.Keys
            && (GuardedThrough(start, ordered, n + 1, config.operatorWallets)
                && CrossesAt(start, ordered, n, items, config, signal) ==>
                  Held(start, ordered, n, config.operatorWallets, signal))
  {
    AttributionCoveredIff(transfers, items, config, n + 1);
    var start, ordered := StartLedger(items, config), InOrder(transfers);
    if GuardedThrough(start, ordered, n + 1, config.operatorWallets)
       && CrossesAt(start, ordered, n, items, config, signal) {
      assert CoveredAt(start, ordered, n + 1, config.operatorWallets);
    }
  }

  /** Unattributed tokens a wallet received less those it sent, over a replay. A transfer
      moves unattributed tokens when its amount exceeds the sender's attributed ones. */
  ghost function NetUnattributed(start: Ledger, ts: seq<CanonicalTransfer>, operators: seq<string>, w: string): int
    requires start.inventory.Keys == start.attributed.Keys
    decreases |ts|
  {
    if ts == [] then 0
    else
      var front, t := ts[..|ts| - 1], ts[|ts| - 1];
      var before := Replay(start, front, operators);
      var net := NetUnattributed(start, front, operators, w);
      if before.Refused? || t.sourceWallet !in before.ledger.attributed
         || t.amountBaseUnits <= before.ledger.attributed[t.sourceWallet] then net
      else
        net + (if t.destinationWallet == w then t.amountBaseUnits else 0)
        - (if t.sourceWallet == w then t.amountBaseUnits else 0)
  }

  /** What a wallet holds beyond its attribution is what it started with, plus its net
      unattributed tokens. */
  lemma {:induction false} SpareIsNet(start: Ledger, ts: seq<CanonicalTransfer>, operators: seq<string>, w: string)
    requires start.inventory.Keys == start.attributed.Keys && w in start.inventory
    requires Replay(start, ts, operators).Applied?
    ensures var ledger := Replay(start, ts, operators).ledger;
            ledger.inventory[w] - ledger.attributed[w]
            == start.inventory[w] - start.attributed[w] + NetUnattributed(start, ts, operators, w)
    decreases |ts|
  {
    if ts != [] {
      SpareIsNet(start, ts[..|ts| - 1], operators, w);
    }
  }

  /** A signal is held if and only if the named wallet's unattributed tokens, at the
      start and received, cover the unattributed tokens it sent. */
  lemma SignalHeldIff(
    transfers: seq<CanonicalTransfer>, items: seq<WalletTokenInventory>, config: ConsolidationConfig,
    n: nat, signal: ConsolidationSignal)
    requires ValidInputs(transfers, items, config) && n < |InOrder(transfers)|
    ensures var start, ordered, w := StartLedger(items, config), InOrder(transfers), signal.destinationWallet;
            && start.inventory.Keys == start.attributed.Keys
            && (CrossesAt(start, ordered, n, items, config, signal) ==>
                  && w in start.inventory
                  && (Held(start, ordered, n, config.operatorWallets, signal)
                      <==> start.inventory[w] - start.attributed[w]
                           + NetUnattributed(start, ordered[..n + 1], config.operatorWallets, w) >= 0))
  {
    StartAligned(items, config);
    var start, ordered := StartLedger(items, config), InOrder(transfers);
    if CrossesAt(start, ordered, n, items, config, signal) {
      SpareIsNet(start, ordered[..n + 1], config.operatorWallets, signal.destinationWallet);
    }
  }

  // ---------- whom a signal names ----------

  /** Only the receiver of a transfer can gain attribution. */
  lemma OnlyReceiverGains(ledger: Ledger, t: CanonicalTransfer, operators: seq<string>, w: string)
    requires ledger.inventory.Keys == ledger.attributed.Keys && w in ledger.attributed
    requires Moves(t) && Apply(ledger, t, operators).Applied?
    requires forall v :: v in ledger.attributed ==> ledger.attributed[v] >= 0
    ensures w in Apply(ledger, t, operators).ledger.attributed
    ensures w != t.destinationWallet ==>
              Apply(ledger, t, operators).ledger.attributed[w] <= ledger.attributed[w]
  {
  }

  /** With no wallet at the threshold to begin with, a signal names the receiver of the
      transfer that raised it. */
  lemma SignalNamesReceiver(
    transfers: seq<CanonicalTransfer>, items: seq<WalletTokenInventory>, config: ConsolidationConfig,
    n: nat, signal: ConsolidationSignal)
    requires ValidInputs(transfers, items, config) && n < |InOrder(transfers)|
    requires !SomeHolder(StartLedger(items, config).attributed, config)
    ensures var start, ordered := StartLedger(items, config), InOrder(transfers);
            && start.inventory.Keys == start.attributed.Keys
            && (CrossesAt(start, ordered, n, items, config, signal) ==>
                  signal.destinationWallet == ordered[n].destinationWallet)
  {
    var start, ordered := StartLedger(items, config), InOrder(transfers);
    StartAligned(items, config);
    OrderedMoves(transfers, items, config);
    if CrossesAt(start, ordered, n, items, config, signal) {
      var before := LedgerBefore(start, ordered, n, items, config, signal);
      PrefixKept(transfers, items, config, n);
      ReplayNext(start, ordered, n, config.operatorWallets);
      OnlyReceiverGains(before, ordered[n], config.operatorWallets, signal.destinationWallet);
      assert !Holds(before.attributed, signal.destinationWallet, config);
    }
  }

  /** Nobody is at the threshold just before the transfer that raises a signal. */
  lemma LedgerBefore(
    start: Ledger, ordered: seq<CanonicalTransfer>, n: nat, items: seq<WalletTokenInventory>,
    config: ConsolidationConfig, signal: ConsolidationSignal) returns (before: Ledger)
    requires start.inventory.Keys == start.attributed.Keys && config.operatorSupplyBaseUnits > 0
    requires !SomeHolder(start.attributed, config) && CrossesAt(start, ordered, n, items, config, signal)
    ensures Replay(start, ordered[..n], config.operatorWallets) == Applied(before)
    ensures !SomeHolder(before.attributed, config)
  {
    if n == 0 {
      assert ordered[..0] == [];
      before := start;
    } else {
      assert QuietAt(start, ordered, n, config);
      before := Replay(start, ordered[..n], config.operatorWallets).ledger;
    }
  }
}
