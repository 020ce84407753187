/** The detector itself: replay in order, stop at the first crossing. */
module ConsolidationDetector {
  import opened Domain
  import opened Ordering
  import opened Consolidation
  import opened ConsolidationLedger

  datatype Detection = NoSignal | Signaled(signal: ConsolidationSignal) | Refusal(abstain: AbstainResult)

  // ---------- order of replay ----------

  predicate EarlierThan(a: CanonicalTransfer, b: CanonicalTransfer) {
    || a.slot < b.slot
    || (a.slot == b.slot
        && (a.transactionIndex < b.transactionIndex
            || (a.transactionIndex == b.transactionIndex && a.eventIndex < b.eventIndex)))
  }

  predicate NotLater(a: CanonicalTransfer, b: CanonicalTransfer) {
    !EarlierThan(b, a)
  }

  function InOrder(transfers: seq<CanonicalTransfer>): seq<CanonicalTransfer> {
    SortBy(NotLater, transfers)
  }

  // ---------- the threshold ----------

  predicate Holds(attributed: map<string, int>, w: string, config: ConsolidationConfig) {
    w in attributed && attributed[w] * PPM >= config.operatorSupplyBaseUnits * config.thresholdPpm
  }

  ghost predicate SomeHolder(attributed: map<string, int>, config: ConsolidationConfig) {
    exists w :: w in attributed && Holds(attributed, w, config)
  }

  /** `w` reaches the threshold and no smaller wallet name does. */
  ghost predicate LeastHolder(attributed: map<string, int>, w: string, config: ConsolidationConfig) {
    Holds(attributed, w, config) && forall v :: v in attributed && StringLess(v, w) ==> !Holds(attributed, v, config)
  }

  /** Scan the wallets in name order for the first one at the threshold. */
  method FindHolder(attributed: map<string, int>, wallets: seq<string>, config: ConsolidationConfig)
    returns (holder: Option<string>)
    requires forall w :: w in attributed <==> w in wallets
    ensures holder.None? <==> !SomeHolder(attributed, config)
    ensures holder.Some? ==> LeastHolder(attributed, holder.value, config)
  {
    var sorted := SortBy(StringLe, wallets);
    StringsSort(wallets);
    SameMembers(StringLe, wallets);
    for i := 0 to |sorted|
      invariant forall k :: 0 <= k < i ==> !Holds(attributed, sorted[k], config)
    {
      if Holds(attributed, sorted[i], config) {
        assert forall k :: i < k < |sorted| ==> StringLe(sorted[i], sorted[k]);
        forall v | v in attributed && StringLess(v, sorted[i]) ensures !Holds(attributed, v, config) {
          StringIrreflexive(v);
          assert v in sorted;
          var k :| 0 <= k < |sorted| && sorted[k] == v;
        }
        return Some(sorted[i]);
      }
    }
    forall w | w in attributed ensures !Holds(attributed, w, config) {
      assert w in sorted;
      var k :| 0 <= k < |sorted| && sorted[k] == w;
    }
    return None;
  }

  // ---------- what the detector must return ----------

  function InventoryEvidence(items: seq<WalletTokenInventory>): seq<string> {
    Flatten(MapSeq((item: WalletTokenInventory) => item.evidenceIds, items))
  }

  function SignalFor(
    attributed: map<string, int>, w: string, t: CanonicalTransfer,
    items: seq<WalletTokenInventory>, config: ConsolidationConfig): ConsolidationSignal
    requires w in attributed && config.operatorSupplyBaseUnits > 0
  {
    ConsolidationSignal(
      config.asOfSlot, t.slot, t.transactionIndex, t.signature, config.tokenMint, w, attributed[w],
      attributed[w] * PPM / config.operatorSupplyBaseUnits,
      Dedup(InventoryEvidence(items) + t.evidenceIds))
  }

  /** The first `k` transfers replay, and nobody is at the threshold afterwards. */
  ghost predicate QuietAt(start: Ledger, ordered: seq<CanonicalTransfer>, k: nat, config: ConsolidationConfig)
    requires start.inventory.Keys == start.attributed.Keys && k <= |ordered|
  {
    var replayed := Replay(start, ordered[..k], config.operatorWallets);
    replayed.Applied? && !SomeHolder(replayed.ledger.attributed, config)
  }

  ghost predicate Quiet(start: Ledger, ordered: seq<CanonicalTransfer>, n: nat, config: ConsolidationConfig)
    requires start.inventory.Keys == start.attributed.Keys && n <= |ordered|
  {
    forall k :: 0 < k <= n ==> QuietAt(start, ordered, k, config)
  }

  /** Transfer number `n` is the first after which some wallet is at the threshold. */
  ghost predicate CrossesAt(
    start: Ledger, ordered: seq<CanonicalTransfer>, n: nat, items: seq<WalletTokenInventory>,
    config: ConsolidationConfig, signal: ConsolidationSignal)
    requires start.inventory.Keys == start.attributed.Keys && config.operatorSupplyBaseUnits > 0
  {
    && n < |ordered| && Quiet(start, ordered, n, config)
    && var replayed := Replay(start, ordered[..n + 1], config.operatorWallets);
       && replayed.Applied?
       && LeastHolder(replayed.ledger.attributed, signal.destinationWallet, config)
       && signal == SignalFor(replayed.ledger.attributed, signal.destinationWallet, ordered[n], items, config)
  }

  ghost predicate RefusedAt(
    start: Ledger, ordered: seq<CanonicalTransfer>, n: nat, config: ConsolidationConfig, abstain: AbstainResult)
    requires start.inventory.Keys == start.attributed.Keys
  {
    && n < |ordered| && Quiet(start, ordered, n, config)
    && Replay(start, ordered[..n + 1], config.operatorWallets) == Refused(abstain.reason)
    && abstain.asOfSlot == config.asOfSlot
  }

  /** The meaning of a detection on accepted inputs. */
  ghost predicate Means(
    start: Ledger, ordered: seq<CanonicalTransfer>, items: seq<WalletTokenInventory>,
    config: ConsolidationConfig, result: Detection)
    requires start.inventory.Keys == start.attributed.Keys && config.operatorSupplyBaseUnits > 0
  {
    match result
    case NoSignal => Quiet(start, ordered, |ordered|, config)
    case Signaled(signal) => exists n: nat :: CrossesAt(start, ordered, n, items, config, signal)
    case Refusal(abstain) => exists n: nat :: RefusedAt(start, ordered, n, config, abstain)
  }

  lemma StartAligned(items: seq<WalletTokenInventory>, config: ConsolidationConfig)
    ensures StartLedger(items, config).inventory.Keys == StartLedger(items, config).attributed.Keys
  {
    StartDomain(items, config);
  }

  ghost predicate Detects(
    transfers: seq<CanonicalTransfer>, items: seq<WalletTokenInventory>, config: ConsolidationConfig,
    result: Detection)
    requires config.operatorSupplyBaseUnits > 0
  {
    StartAligned(items, config);
    Means(StartLedger(items, config), InOrder(transfers), items, config, result)
  }

  /** Post one transfer to both tables, or refuse it. */
  method Post(
    inventory: map<string, int>, attributed: map<string, int>, t: CanonicalTransfer, operators: seq<string>)
    returns (result: Replayed)
    requires inventory.Keys == attributed.Keys
    ensures result == Apply(Ledger(inventory, attributed), t, operators)
  {
    if t.sourceWallet !in inventory || t.destinationWallet !in inventory {
      return Refused(MissingFeature);
    }
    var amount := t.amountBaseUnits;
    if amount > inventory[t.sourceWallet] {
      return Refused(UnsupportedProtocolState);
    }
    var inventory', attributed' := inventory, attributed;
    inventory' := inventory'[t.sourceWallet := inventory'[t.sourceWallet] - amount];
    inventory' := inventory'[t.destinationWallet := inventory'[t.destinationWallet] + amount];
    var moved := amount;
    if amount > attributed'[t.sourceWallet] {
      if t.sourceWallet in operators {
        return Refused(UnknownProtocolState);
      }
      moved := 0;
    }
    attributed' := attributed'[t.sourceWallet := attributed'[t.sourceWallet] - moved];
    attributed' := attributed'[t.destinationWallet := attributed'[t.destinationWallet] + moved];
    return Applied(Ledger(inventory', attributed'));
  }

  lemma ReplayNext(start: Ledger, ordered: seq<CanonicalTransfer>, i: nat, operators: seq<string>)
    requires start.inventory.Keys == start.attributed.Keys && i < |ordered|
    requires Replay(start, ordered[..i], operators).Applied?
    ensures Replay(start, ordered[..i + 1], operators)
            == Apply(Replay(start, ordered[..i], operators).ledger, ordered[i], operators)
  {
    assert ordered[..i + 1][..i] == ordered[..i];
  }

  /** The replay has reached `ledger` after `i` transfers without a signal. */
  ghost predicate Reached(
    start: Ledger, ordered: seq<CanonicalTransfer>, i: nat, ledger: Ledger, config: ConsolidationConfig)
    requires start.inventory.Keys == start.attributed.Keys && i <= |ordered|
  {
    Replay(start, ordered[..i], config.operatorWallets) == Applied(ledger) && Quiet(start, ordered, i, config)
  }

  /** What the next transfer does: refuse, signal, or carry on. */
  lemma NextTransfer(
    start: Ledger, ordered: seq<CanonicalTransfer>, i: nat, ledger: Ledger, items: seq<WalletTokenInventory>,
    config: ConsolidationConfig)
    requires start.inventory.Keys == start.attributed.Keys && config.operatorSupplyBaseUnits > 0
    requires i < |ordered| && Reached(start, ordered, i, ledger, config)
    ensures ledger.inventory.Keys == ledger.attributed.Keys == start.attributed.Keys
    ensures var posted := Apply(ledger, ordered[i], config.operatorWallets);
            && (posted.Refused? ==>
                  Means(start, ordered, items, config, Refusal(AbstainResult(posted.reason, config.asOfSlot))))
            && (posted.Applied? ==>
                  && posted.ledger.attributed.Keys == start.attributed.Keys
                  && (forall w :: LeastHolder(posted.ledger.attributed, w, config) ==>
                        Means(start, ordered, items, config,
                              Signaled(SignalFor(posted.ledger.attributed, w, ordered[i], items, config))))
                  && (!SomeHolder(posted.ledger.attributed, config) ==>
                        Reached(start, ordered, i + 1, posted.ledger, config)))
  {
    ReplayNext(start, ordered, i, config.operatorWallets);
    var posted := Apply(ledger, ordered[i], config.operatorWallets);
    if posted.Refused? {
      assert RefusedAt(start, ordered, i, config, AbstainResult(posted.reason, config.asOfSlot));
    } else {
      forall w | LeastHolder(posted.ledger.attributed, w, config)
        ensures Means(start, ordered, items, config,
                      Signaled(SignalFor(posted.ledger.attributed, w, ordered[i], items, config)))
      {
        assert CrossesAt(start, ordered, i, items, config,
                         SignalFor(posted.ledger.attributed, w, ordered[i], items, config));
      }
      if !SomeHolder(posted.ledger.attributed, config) {
        assert QuietAt(start, ordered, i + 1, config);
      }
    }
  }

  /** Replay the ordered transfers, looking for a holder after each one. */
  method Scan(
    inventory0: map<string, int>, attributed0: map<string, int>, ordered: seq<CanonicalTransfer>,
    items: seq<WalletTokenInventory>, config: ConsolidationConfig)
    returns (result: Detection)
    requires config.operatorSupplyBaseUnits > 0
    requires inventory0.Keys == attributed0.Keys && forall w :: w in attributed0 <==> w in WalletsOf(items)
    ensures Means(Ledger(inventory0, attributed0), ordered, items, config, result)
  {
    ghost var start := Ledger(inventory0, attributed0);
    var inventory, attributed := inventory0, attributed0;
    for i := 0 to |ordered|
      invariant Reached(start, ordered, i, Ledger(inventory, attributed), config)
    {
      NextTransfer(start, ordered, i, Ledger(inventory, attributed), items, config);
      var posted := Post(inventory, attributed, ordered[i], config.operatorWallets);
      if posted.Refused? {
        return Refusal(AbstainResult(posted.reason, config.asOfSlot));
      }
      inventory, attributed := posted.ledger.inventory, posted.ledger.attributed;
      var holder := FindHolder(attributed, WalletsOf(items), config);
      if holder.Some? {
        return Signaled(SignalFor(attributed, holder.value, ordered[i], items, config));
      }
    }
    return NoSignal;
  }

  method DetectConsolidationSignal(
    transfers: seq<CanonicalTransfer>, items: seq<WalletTokenInventory>, config: ConsolidationConfig)
    returns (result: Detection)
    ensures ValidInputs(transfers, items, config) ==> Detects(transfers, items, config, result)
    ensures !ValidInputs(transfers, items, config) ==>
              && result.Refusal? && result.abstain.asOfSlot == config.asOfSlot
              && Rejected(transfers, items, config, result.abstain.reason)
  {
    var error := ValidateInputs(transfers, items, config);
    if error.Some? {
      return Refusal(AbstainResult(error.value, config.asOfSlot));
    }
    StartKept(items, config);
    result := Scan(Balances(items), Attributions(items, config), InOrder(transfers), items, config);
  }

  // ---------- what follows from the meaning ----------

  /** Accepted inputs have exactly one detection. */
  lemma DetectionUnique(
    transfers: seq<CanonicalTransfer>, items: seq<WalletTokenInventory>, config: ConsolidationConfig,
    a: Detection, b: Detection)
    requires config.operatorSupplyBaseUnits > 0
    requires Detects(transfers, items, config, a) && Detects(transfers, items, config, b)
    ensures a == b
  {
    StartAligned(items, config);
    StringOrder();
    var start, ordered := StartLedger(items, config), InOrder(transfers);
    var n := StopIndex(start, ordered, items, config, a);
    var m := StopIndex(start, ordered, items, config, b);
    StopsFirst(start, ordered, n, m, config);
    StopsFirst(start, ordered, m, n, config);
  }

  lemma StopsFirst(start: Ledger, ordered: seq<CanonicalTransfer>, n: nat, m: nat, config: ConsolidationConfig)
    requires start.inventory.Keys == start.attributed.Keys && n <= |ordered| && m <= |ordered|
    requires Stopped(start, ordered, n, config) && Quiet(start, ordered, m, config)
    ensures m <= n
  {
  }

  ghost predicate Stopped(start: Ledger, ordered: seq<CanonicalTransfer>, n: nat, config: ConsolidationConfig)
    requires start.inventory.Keys == start.attributed.Keys
  {
    n == |ordered| || (n < |ordered| && !QuietAt(start, ordered, n + 1, config))
  }

  lemma StopIndex(
    start: Ledger, ordered: seq<CanonicalTransfer>, items: seq<WalletTokenInventory>,
    config: ConsolidationConfig, result: Detection)
    returns (n: nat)
    requires start.inventory.Keys == start.attributed.Keys && config.operatorSupplyBaseUnits > 0
    requires Means(start, ordered, items, config, result)
    ensures n <= |ordered| && Quiet(start, ordered, n, config) && Stopped(start, ordered, n, config)
    ensures result.NoSignal? <==> n == |ordered|
    ensures result.Signaled? ==> CrossesAt(start, ordered, n, items, config, result.signal)
    ensures result.Refusal? ==> RefusedAt(start, ordered, n, config, result.abstain)
  {
    match result
    case NoSignal => n := |ordered|;
    case Signaled(signal) => n :| CrossesAt(start, ordered, n, items, config, signal);
    case Refusal(abstain) => n :| RefusedAt(start, ordered, n, config, abstain);
  }

  lemma SortedFacts(transfers: seq<CanonicalTransfer>, config: ConsolidationConfig)
    requires TransfersOk(transfers, config)
    ensures forall k :: 0 <= k < |InOrder(transfers)| ==> TransferOk(InOrder(transfers)[k], config)
  {
    SameMembers(NotLater, transfers);
    var ordered := InOrder(transfers);
    forall k | 0 <= k < |ordered| ensures TransferOk(ordered[k], config) {
      assert ordered[k] in ordered;
      var i :| 0 <= i < |transfers| && transfers[i] == ordered[k];
    }
  }

  /** Every prefix that replays keeps the totals and the bounds of the ledger. */
  lemma PrefixKept(
    transfers: seq<CanonicalTransfer>, items: seq<WalletTokenInventory>, config: ConsolidationConfig, n: nat)
    requires ValidInputs(transfers, items, config) && n <= |InOrder(transfers)|
    ensures StartLedger(items, config).inventory.Keys == StartLedger(items, config).attributed.Keys
    ensures var replayed := Replay(StartLedger(items, config), InOrder(transfers)[..n], config.operatorWallets);
            replayed.Applied? ==>
              Kept(replayed.ledger, WalletsOf(items), config.operatorWallets,
                   InventoryTotal(items), OperatorInventory(items, config))
  {
    StartKept(items, config);
    SortedFacts(transfers, config);
    var start, prefix := StartLedger(items, config), InOrder(transfers)[..n];
    forall k | 0 <= k < |prefix|
      ensures prefix[k].amountBaseUnits > 0 && prefix[k].sourceWallet != prefix[k].destinationWallet
    {
      assert TransferOk(InOrder(transfers)[k], config);
    }
    if Replay(start, prefix, config.operatorWallets).Applied? {
      ReplayKeeps(start, prefix, WalletsOf(items), config.operatorWallets,
                  InventoryTotal(items), OperatorInventory(items, config));
    }
  }

  lemma ShareBounds(held: int, supply: int, threshold: int)
    requires supply > 0 && 0 < threshold <= PPM && 0 <= held <= supply && held * PPM >= supply * threshold
    ensures 0 < held && threshold <= held * PPM / supply <= PPM
  {
    assert supply * threshold > 0;
    assert threshold * supply == supply * threshold;
    FloorGalois(threshold, held * PPM, supply);
    assert held * PPM <= PPM * supply;
    FloorMonotone(held * PPM, PPM * supply, supply);
    FloorGalois(PPM + 1, PPM * supply, supply);
  }

  /** A signal's share lies between the threshold and the whole, and the signal
      passes its validator at every later slot. */
  lemma SignalAccepted(
    transfers: seq<CanonicalTransfer>, items: seq<WalletTokenInventory>, config: ConsolidationConfig,
    signal: ConsolidationSignal, laterSlot: int)
    requires ValidInputs(transfers, items, config) && config.asOfSlot <= laterSlot
    requires Detects(transfers, items, config, Signaled(signal))
    ensures config.thresholdPpm <= signal.consolidatedSharePpm <= PPM
    ensures 0 < signal.consolidatedBaseUnits <= OperatorInventory(items, config)
    ensures ValidateConsolidationSignal(signal, config.tokenMint, laterSlot) == None
  {
    StartAligned(items, config);
    var start, ordered := StartLedger(items, config), InOrder(transfers);
    var n: nat :| CrossesAt(start, ordered, n, items, config, signal);
    PrefixKept(transfers, items, config, n + 1);
    SortedFacts(transfers, config);
    CrossingAccepted(Replay(start, ordered[..n + 1], config.operatorWallets).ledger, signal.destinationWallet,
                     ordered[n], items, config, laterSlot);
  }

  lemma CrossingAccepted(
    ledger: Ledger, w: string, t: CanonicalTransfer, items: seq<WalletTokenInventory>,
    config: ConsolidationConfig, laterSlot: int)
    requires ValidConfig(config) && InventoriesOk(items, config) && config.asOfSlot <= laterSlot
    requires OperatorInventory(items, config) <= config.operatorSupplyBaseUnits
    requires Kept(ledger, WalletsOf(items), config.operatorWallets, InventoryTotal(items),
                  OperatorInventory(items, config))
    requires Holds(ledger.attributed, w, config) && TransferOk(t, config)
    ensures var signal := SignalFor(ledger.attributed, w, t, items, config);
            && config.thresholdPpm <= signal.consolidatedSharePpm <= PPM
            && 0 < signal.consolidatedBaseUnits <= OperatorInventory(items, config)
            && ValidateConsolidationSignal(signal, config.tokenMint, laterSlot) == None
  {
    HolderWithinTotal(ledger, WalletsOf(items), config.operatorWallets,
                      InventoryTotal(items), OperatorInventory(items, config), w);
    ShareBounds(ledger.attributed[w], config.operatorSupplyBaseUnits, config.thresholdPpm);
    EvidenceAccepted(items, config, t);
  }

  lemma HolderWithinTotal(
    ledger: Ledger, wallets: seq<string>, operators: seq<string>, inventoryTotal: int, attributedTotal: int,
    w: string)
    requires Kept(ledger, wallets, operators, inventoryTotal, attributedTotal) && w in ledger.attributed
    ensures 0 <= ledger.attributed[w] <= attributedTotal
  {
    TotalCovers(ledger.attributed, wallets, w);
  }

  lemma EvidenceAccepted(items: seq<WalletTokenInventory>, config: ConsolidationConfig, t: CanonicalTransfer)
    requires InventoriesOk(items, config) && TransferOk(t, config)
    ensures DistinctNonEmptyIds(Dedup(InventoryEvidence(items) + t.evidenceIds))
  {
    var all := InventoryEvidence(items) + t.evidenceIds;
    var ids := Dedup(all);
    var rows := MapSeq((item: WalletTokenInventory) => item.evidenceIds, items);
    AcceptedRows(items, config);
    assert t.evidenceIds[0] in all;
    forall k | 0 <= k < |ids| ensures ids[k] != "" {
      assert ids[k] in ids;
      assert ids[k] in all;
      if ids[k] in InventoryEvidence(items) {
        var r :| 0 <= r < |rows| && ids[k] in rows[r];
        assert InventoryItemOk(items[r], config);
      }
    }
  }

  /** Later transfers cannot change a signal: whatever strictly later rows a valid
      extension adds, the detection is the same. */
  lemma SignalSurvivesExtension(
    transfers: seq<CanonicalTransfer>, later: seq<CanonicalTransfer>, items: seq<WalletTokenInventory>,
    config: ConsolidationConfig, signal: ConsolidationSignal)
    requires config.operatorSupplyBaseUnits > 0
    requires forall i, j :: 0 <= i < |transfers| && 0 <= j < |later| ==> transfers[i].slot < later[j].slot
    requires Detects(transfers, items, config, Signaled(signal))
    ensures Detects(transfers + later, items, config, Signaled(signal))
  {
    StartAligned(items, config);
    var start, ordered := StartLedger(items, config), InOrder(transfers);
    SortAppend(NotLater, transfers, later);
    var n: nat :| CrossesAt(start, ordered, n, items, config, signal);
    CrossesInExtension(start, ordered, InOrder(later), n, items, config, signal);
  }

  lemma CrossesInExtension(
    start: Ledger, ordered: seq<CanonicalTransfer>, more: seq<CanonicalTransfer>, n: nat,
    items: seq<WalletTokenInventory>, config: ConsolidationConfig, signal: ConsolidationSignal)
    requires start.inventory.Keys == start.attributed.Keys && config.operatorSupplyBaseUnits > 0
    requires CrossesAt(start, ordered, n, items, config, signal)
    ensures CrossesAt(start, ordered + more, n, items, config, signal)
  {
    var extended := ordered + more;
    assert forall k :: 0 <= k <= n + 1 ==> extended[..k] == ordered[..k];
    forall k: nat | 0 < k <= n ensures QuietAt(start, extended, k, config) {
      assert QuietAt(start, ordered, k, config);
    }
  }
}
