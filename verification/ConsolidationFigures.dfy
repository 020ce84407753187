/** What the ledger step does, when a wallet is at the threshold, in which order transfers
    are replayed, and what a signal reports. */
module ConsolidationFigures {
  import opened Domain
  import opened Ordering
  import opened Consolidation
  import opened ConsolidationLedger
  import opened ConsolidationDetector

  // ---------- one transfer ----------

  /** An amount after one wallet sent `moved` to another. */
  ghost function After(amount: int, w: string, t: CanonicalTransfer, moved: int): int {
    amount - (if w == t.sourceWallet then moved else 0) + (if w == t.destinationWallet then moved else 0)
  }

  /** A transfer applies exactly between tracked wallets, within the sender's tokens, and
      within its attributed ones if the sender is an operator. */
  lemma AppliesIff(ledger: Ledger, t: CanonicalTransfer, operators: seq<string>)
    requires ledger.inventory.Keys == ledger.attributed.Keys
    ensures Apply(ledger, t, operators).Applied?
            <==> && t.sourceWallet in ledger.inventory && t.destinationWallet in ledger.inventory
                 && t.amountBaseUnits <= ledger.inventory[t.sourceWallet]
                 && (t.sourceWallet in operators ==> t.amountBaseUnits <= ledger.attributed[t.sourceWallet])
    ensures var outcome := Apply(ledger, t, operators);
            outcome.Refused? ==>
              outcome.reason ==
              if t.sourceWallet !in ledger.inventory || t.destinationWallet !in ledger.inventory then MissingFeature
              else if t.amountBaseUnits > ledger.inventory[t.sourceWallet] then UnsupportedProtocolState
              else UnknownProtocolState
  {
  }

  /** Its tokens move whole; its attribution moves whole if the sender's attributed tokens
      cover it, and not at all otherwise. */
  lemma ApplyMoves(ledger: Ledger, t: CanonicalTransfer, operators: seq<string>, w: string)
    requires ledger.inventory.Keys == ledger.attributed.Keys && Apply(ledger, t, operators).Applied?
    requires w in ledger.inventory
    ensures var next := Apply(ledger, t, operators).ledger;
            && w in next.inventory && w in next.attributed
            && next.inventory[w] == After(ledger.inventory[w], w, t, t.amountBaseUnits)
            && next.attributed[w]
               == After(ledger.attributed[w], w, t,
                        if ledger.attributed[t.sourceWallet] >= t.amountBaseUnits then t.amountBaseUnits else 0)
  {
  }

  /** The ledger starts with every balance, attributed in full for operators and not at
      all for others. */
  lemma StartMeans(items: seq<WalletTokenInventory>, config: ConsolidationConfig, k: nat)
    requires InventoriesOk(items, config) && k < |items|
    ensures var start, w := StartLedger(items, config), items[k].wallet;
            && w in start.inventory && start.inventory[w] == items[k].balanceBaseUnits
            && w in start.attributed
            && (w in config.operatorWallets ==> start.attributed[w] == items[k].balanceBaseUnits)
            && (w !in config.operatorWallets ==> start.attributed[w] == 0)
  {
    AcceptedRows(items, config);
    StartKeys(items, config);
  }

  // ---------- the threshold and the order ----------

  /** A wallet is at the threshold exactly when its share, rounded down, is. */
  lemma HoldsIffShare(attributed: map<string, int>, w: string, config: ConsolidationConfig)
    requires config.operatorSupplyBaseUnits > 0 && w in attributed
    ensures Holds(attributed, w, config)
            <==> config.thresholdPpm <= attributed[w] * PPM / config.operatorSupplyBaseUnits
  {
    FloorGalois(config.thresholdPpm, attributed[w] * PPM, config.operatorSupplyBaseUnits);
    assert config.thresholdPpm * config.operatorSupplyBaseUnits == config.operatorSupplyBaseUnits * config.thresholdPpm;
  }

  /** Transfers are replayed in order of slot, then transaction, then event. */
  lemma TransfersInOrder(transfers: seq<CanonicalTransfer>, i: nat, j: nat)
    requires i < j < |transfers|
    ensures var a, b := InOrder(transfers)[i], InOrder(transfers)[j];
            && a.slot <= b.slot
            && (a.slot == b.slot ==> a.transactionIndex <= b.transactionIndex)
            && (a.slot == b.slot && a.transactionIndex == b.transactionIndex ==> a.eventIndex <= b.eventIndex)
    ensures multiset(InOrder(transfers)) == multiset(transfers)
  {
    SortOrdered(NotLater, transfers);
    SortMultiset(NotLater, transfers);
    assert NotLater(InOrder(transfers)[i], InOrder(transfers)[j]);
  }

  // ---------- the signal ----------

  /** A signal reports its transfer, the wallet's attributed amount, that amount's share of
      the operator supply, rounded down, and the evidence of the inventories and of its
      transfer. */
  ghost predicate Reports(
    signal: ConsolidationSignal, attributed: map<string, int>, t: CanonicalTransfer,
    items: seq<WalletTokenInventory>, config: ConsolidationConfig)
  {
    && signal.slot == t.slot && signal.transactionIndex == t.transactionIndex && signal.signature == t.signature
    && signal.asOfSlot == config.asOfSlot && signal.tokenMint == config.tokenMint
    && signal.destinationWallet in attributed
    && signal.consolidatedBaseUnits == attributed[signal.destinationWallet]
    && signal.consolidatedSharePpm * config.operatorSupplyBaseUnits
       <= signal.consolidatedBaseUnits * PPM
       < (signal.consolidatedSharePpm + 1) * config.operatorSupplyBaseUnits
    && Distinct(signal.evidenceIds)
    && forall e :: e in signal.evidenceIds <==>
         e in t.evidenceIds || exists k :: 0 <= k < |items| && e in items[k].evidenceIds
  }

  lemma InventoryEvidenceMeans(items: seq<WalletTokenInventory>)
    ensures forall e :: e in InventoryEvidence(items) <==> exists k :: 0 <= k < |items| && e in items[k].evidenceIds
  {
    var lists := MapSeq((item: WalletTokenInventory) => item.evidenceIds, items);
    forall e
      ensures e in InventoryEvidence(items) <==> exists k :: 0 <= k < |items| && e in items[k].evidenceIds
    {
      if k :| 0 <= k < |items| && e in items[k].evidenceIds {
        assert e in lists[k];
      }
      if e in InventoryEvidence(items) {
        var k :| 0 <= k < |lists| && e in lists[k];
        assert e in items[k].evidenceIds;
      }
    }
  }

  lemma SignalForReports(
    attributed: map<string, int>, w: string, t: CanonicalTransfer, items: seq<WalletTokenInventory>,
    config: ConsolidationConfig)
    requires w in attributed && config.operatorSupplyBaseUnits > 0
    ensures Reports(SignalFor(attributed, w, t, items, config), attributed, t, items, config)
  {
    InventoryEvidenceMeans(items);
    assert forall e :: e in InventoryEvidence(items) + t.evidenceIds <==>
        e in InventoryEvidence(items) || e in t.evidenceIds;
    FloorBounds(attributed[w] * PPM, config.operatorSupplyBaseUnits);
  }

  lemma SignalReports(
    start: Ledger, ordered: seq<CanonicalTransfer>, n: nat, items: seq<WalletTokenInventory>,
    config: ConsolidationConfig, signal: ConsolidationSignal)
    requires start.inventory.Keys == start.attributed.Keys && config.operatorSupplyBaseUnits > 0
    requires CrossesAt(start, ordered, n, items, config, signal)
    ensures Reports(signal, Replay(start, ordered[..n + 1], config.operatorWallets).ledger.attributed,
                    ordered[n], items, config)
  {
    var attributed := Replay(start, ordered[..n + 1], config.operatorWallets).ledger.attributed;
    SignalForReports(attributed, signal.destinationWallet, ordered[n], items, config);
  }
}
