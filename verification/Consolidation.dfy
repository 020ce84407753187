/** Inputs of the consolidation detector, the checks that accept them, and the
    validator of the signals it emits. */
module Consolidation {
  import opened Domain

  datatype WalletTokenInventory = WalletTokenInventory(
    asOfSlot: int,
    wallet: string,
    tokenMint: string,
    balanceBaseUnits: int,
    evidenceIds: seq<string>)

  datatype ConsolidationConfig = ConsolidationConfig(
    asOfSlot: int,
    tokenMint: string,
    operatorWallets: seq<string>,
    operatorSupplyBaseUnits: int,
    thresholdPpm: int,
    historyComplete: bool)

  datatype ConsolidationSignal = ConsolidationSignal(
    asOfSlot: int,
    slot: int,
    transactionIndex: int,
    signature: Bytes,
    tokenMint: string,
    destinationWallet: string,
    consolidatedBaseUnits: int,
    consolidatedSharePpm: int,
    evidenceIds: seq<string>)

  // ---------- the validator of a signal ----------

  function ValidateConsolidationSignal(signal: ConsolidationSignal, marketId: string, asOfSlot: int)
    : Option<AbstainReason>
  {
    if marketId == "" || asOfSlot < 0 then Some(UnsupportedProtocolState)
    else if signal.tokenMint != marketId then Some(DecoderMismatch)
    else if || signal.asOfSlot < 0 || signal.slot < 0
            || signal.slot > signal.asOfSlot || signal.asOfSlot > asOfSlot
            || signal.signature == []
            || !DistinctNonEmptyIds(signal.evidenceIds)
            || signal.consolidatedBaseUnits <= 0
            || !(0 < signal.consolidatedSharePpm <= PPM) then
      Some(StaleState)
    else None
  }

  // ---------- accepted inputs ----------

  predicate ValidConfig(config: ConsolidationConfig) {
    && config.asOfSlot >= 0
    && config.tokenMint != ""
    && config.operatorWallets != []
    && (forall k :: 0 <= k < |config.operatorWallets| ==> config.operatorWallets[k] != "")
    && Distinct(config.operatorWallets)
    && config.operatorSupplyBaseUnits > 0
    && 0 < config.thresholdPpm <= PPM
    && config.historyComplete
  }

  /** Rejections of the configuration, in the order in which they are made. */
  function ConfigError(config: ConsolidationConfig): (r: Option<AbstainReason>)
    ensures r.None? <==> ValidConfig(config)
  {
    if config.asOfSlot < 0 then Some(UnsupportedProtocolState)
    else if || config.tokenMint == "" || config.operatorWallets == []
            || (exists k :: 0 <= k < |config.operatorWallets| && config.operatorWallets[k] == "")
            || !Distinct(config.operatorWallets) then Some(MissingFeature)
    else if config.operatorSupplyBaseUnits <= 0 then Some(MissingFeature)
    else if !(0 < config.thresholdPpm <= PPM) then Some(UnsupportedProtocolState)
    else if !config.historyComplete then Some(UnknownProtocolState)
    else None
  }

  predicate InventoryItemOk(item: WalletTokenInventory, config: ConsolidationConfig) {
    && 0 <= item.asOfSlot <= config.asOfSlot
    && item.wallet != "" && item.tokenMint == config.tokenMint
    && item.balanceBaseUnits >= 0
    && DistinctNonEmptyIds(item.evidenceIds)
  }

  predicate Disjoint(a: seq<string>, b: seq<string>) {
    forall i, j :: 0 <= i < |a| && 0 <= j < |b| ==> a[i] != b[j]
  }

  /** Every row is acceptable, and no two rows share a key or an evidence identifier. */
  ghost predicate CleanRows<T, K>(rows: seq<T>, ok: T -> bool, key: T -> K, ids: T -> seq<string>) {
    && (forall k :: 0 <= k < |rows| ==> ok(rows[k]))
    && (forall i, j :: 0 <= i < j < |rows| ==>
          key(rows[i]) != key(rows[j]) && Disjoint(ids(rows[i]), ids(rows[j])))
  }

  /** Row `n` is the first that spoils the list. */
  ghost predicate FirstOffending<T, K>(rows: seq<T>, ok: T -> bool, key: T -> K, ids: T -> seq<string>, n: int) {
    0 <= n < |rows| && CleanRows(rows[..n], ok, key, ids) && !CleanRows(rows[..n + 1], ok, key, ids)
  }

  datatype Scan = Clean | Malformed(at: nat) | Duplicate(at: nat)

  ghost predicate Seen<T, K>(
    rows: seq<T>, n: nat, key: T -> K, ids: T -> seq<string>, keys: set<K>, evidence: set<string>)
    requires n <= |rows|
  {
    && (forall k :: 0 <= k < n ==> key(rows[k]) in keys)
    && (forall x :: x in keys ==> exists k :: 0 <= k < n && key(rows[k]) == x)
    && (forall e :: e in evidence <==> exists k :: 0 <= k < n && e in ids(rows[k]))
  }

  /** The scan that grows the sets of keys and evidence seen so far and stops at the
      first offending row. */
  method ScanRows<T, K(==)>(rows: seq<T>, ok: T -> bool, key: T -> K, ids: T -> seq<string>) returns (r: Scan)
    ensures r.Clean? <==> CleanRows(rows, ok, key, ids)
    ensures !r.Clean? ==> FirstOffending(rows, ok, key, ids, r.at)
    ensures !r.Clean? ==> (r.Malformed? <==> !ok(rows[r.at]))
  {
    var keys: set<K> := {};
    var evidence: set<string> := {};
    for n := 0 to |rows|
      invariant CleanRows(rows[..n], ok, key, ids)
      invariant Seen(rows, n, key, ids, keys, evidence)
    {
      var row := rows[n];
      if !ok(row) {
        RowMalformed(rows, ok, key, ids, n);
        return Malformed(n);
      }
      if key(row) in keys || exists e :: e in ids(row) && e in evidence {
        RowRejected(rows, ok, key, ids, n, keys, evidence);
        return Duplicate(n);
      }
      RowKept(rows, ok, key, ids, n, keys, evidence);
      keys := keys + {key(row)};
      evidence := evidence + set e | e in ids(row);
    }
    assert rows[..|rows|] == rows;
    return Clean;
  }

  lemma RowRejected<T, K>(
    rows: seq<T>, ok: T -> bool, key: T -> K, ids: T -> seq<string>, n: nat, keys: set<K>, evidence: set<string>)
    requires n < |rows| && Seen(rows, n, key, ids, keys, evidence)
    requires key(rows[n]) in keys || exists e :: e in ids(rows[n]) && e in evidence
    ensures !CleanRows(rows[..n + 1], ok, key, ids) && !CleanRows(rows, ok, key, ids)
  {
    var prefix := rows[..n + 1];
    assert forall k :: 0 <= k <= n ==> prefix[k] == rows[k];
    if key(rows[n]) in keys {
      var k :| 0 <= k < n && key(rows[k]) == key(rows[n]);
      assert key(prefix[k]) == key(prefix[n]);
    } else {
      var e :| e in ids(rows[n]) && e in evidence;
      var k :| 0 <= k < n && e in ids(rows[k]);
      assert !Disjoint(ids(prefix[k]), ids(prefix[n]));
    }
    PrefixClean(rows, ok, key, ids, n + 1);
  }

  lemma RowMalformed<T, K>(rows: seq<T>, ok: T -> bool, key: T -> K, ids: T -> seq<string>, n: nat)
    requires n < |rows| && !ok(rows[n])
    ensures !CleanRows(rows[..n + 1], ok, key, ids) && !CleanRows(rows, ok, key, ids)
  {
    assert rows[..n + 1][n] == rows[n];
  }

  lemma PrefixClean<T, K>(rows: seq<T>, ok: T -> bool, key: T -> K, ids: T -> seq<string>, n: nat)
    requires n <= |rows|
    ensures CleanRows(rows, ok, key, ids) ==> CleanRows(rows[..n], ok, key, ids)
  {
  }

  lemma RowKept<T, K>(
    rows: seq<T>, ok: T -> bool, key: T -> K, ids: T -> seq<string>, n: nat, keys: set<K>, evidence: set<string>)
    requires n < |rows| && Seen(rows, n, key, ids, keys, evidence)
    requires CleanRows(rows[..n], ok, key, ids) && ok(rows[n])
    requires key(rows[n]) !in keys && !exists e :: e in ids(rows[n]) && e in evidence
    ensures CleanRows(rows[..n + 1], ok, key, ids)
  {
    var prefix := rows[..n + 1];
    forall i | 0 <= i < n ensures Disjoint(ids(rows[i]), ids(rows[n])) {
      forall a, b | 0 <= a < |ids(rows[i])| && 0 <= b < |ids(rows[n])| ensures ids(rows[i])[a] != ids(rows[n])[b] {
        assert ids(rows[i])[a] in evidence;
        assert ids(rows[n])[b] !in evidence;
      }
    }
    forall i, j | 0 <= i < j < |prefix|
      ensures key(prefix[i]) != key(prefix[j]) && Disjoint(ids(prefix[i]), ids(prefix[j]))
    {
      if j < n {
        assert prefix[i] == rows[..n][i] && prefix[j] == rows[..n][j];
      }
    }
  }

  ghost predicate InventoriesOk(items: seq<WalletTokenInventory>, config: ConsolidationConfig) {
    CleanRows(items, (item: WalletTokenInventory) => InventoryItemOk(item, config),
              (item: WalletTokenInventory) => item.wallet, (item: WalletTokenInventory) => item.evidenceIds)
  }

  predicate TransferOk(t: CanonicalTransfer, config: ConsolidationConfig) {
    && t.assetKind == Token && t.assetId == config.tokenMint
    && 0 <= t.slot <= t.asOfSlot <= config.asOfSlot
    && t.transactionIndex >= 0 && t.eventIndex >= 0
    && t.sourceWallet != "" && t.destinationWallet != "" && t.sourceWallet != t.destinationWallet
    && t.amountBaseUnits > 0
    && t.signature != []
    && DistinctNonEmptyIds(t.evidenceIds)
  }

  function Identity(t: CanonicalTransfer): (int, int, int, Bytes) {
    (t.slot, t.transactionIndex, t.eventIndex, t.signature)
  }

  ghost predicate TransfersOk(transfers: seq<CanonicalTransfer>, config: ConsolidationConfig) {
    CleanRows(transfers, (t: CanonicalTransfer) => TransferOk(t, config), Identity,
              (t: CanonicalTransfer) => t.evidenceIds)
  }

  function WalletsOf(items: seq<WalletTokenInventory>): seq<string> {
    MapSeq((item: WalletTokenInventory) => item.wallet, items)
  }

  /** Initial balances of operator wallets; others start unattributed. */
  function InitialAttributed(item: WalletTokenInventory, config: ConsolidationConfig): int {
    if item.wallet in config.operatorWallets then item.balanceBaseUnits else 0
  }

  function OperatorInventory(items: seq<WalletTokenInventory>, config: ConsolidationConfig): int {
    Sum(MapSeq((item: WalletTokenInventory) => InitialAttributed(item, config), items))
  }

  /** The facts an accepted input has. */
  ghost predicate ValidInputs(
    transfers: seq<CanonicalTransfer>, items: seq<WalletTokenInventory>, config: ConsolidationConfig)
  {
    && ValidConfig(config)
    && items != [] && InventoriesOk(items, config)
    && (forall k :: 0 <= k < |config.operatorWallets| ==> config.operatorWallets[k] in WalletsOf(items))
    && OperatorInventory(items, config) <= config.operatorSupplyBaseUnits
    && TransfersOk(transfers, config)
    && (forall i, j :: 0 <= i < |transfers| && 0 <= j < |items| ==> items[j].asOfSlot < transfers[i].slot)
  }

  /** The transfers are not clean, and `reason` is what their first offending row calls
      for: a malformed row is stale evidence, a repeated one is unsupported. */
  ghost predicate TransfersRejected(
    transfers: seq<CanonicalTransfer>, config: ConsolidationConfig, reason: AbstainReason)
  {
    exists n ::
      && FirstOffending(transfers, (t: CanonicalTransfer) => TransferOk(t, config), Identity,
                        (t: CanonicalTransfer) => t.evidenceIds, n)
      && reason == if TransferOk(transfers[n], config) then UnsupportedProtocolState else StaleState
  }

  /** Why inputs that are not valid are rejected. */
  ghost predicate Rejected(
    transfers: seq<CanonicalTransfer>, items: seq<WalletTokenInventory>, config: ConsolidationConfig,
    reason: AbstainReason)
  {
    if !ValidConfig(config) then ConfigError(config) == Some(reason)
    else if || items == [] || !InventoriesOk(items, config)
            || exists k :: 0 <= k < |config.operatorWallets| && config.operatorWallets[k] !in WalletsOf(items) then
      reason == MissingFeature
    else if OperatorInventory(items, config) > config.operatorSupplyBaseUnits then reason == UnsupportedProtocolState
    else if !TransfersOk(transfers, config) then TransfersRejected(transfers, config, reason)
    else reason == StaleState
  }

  method ValidateInputs(
    transfers: seq<CanonicalTransfer>, items: seq<WalletTokenInventory>, config: ConsolidationConfig)
    returns (error: Option<AbstainReason>)
    ensures error.None? <==> ValidInputs(transfers, items, config)
    ensures error.Some? ==> Rejected(transfers, items, config, error.value)
  {
    error := ConfigError(config);
    if error.Some? {
      return;
    }
    if items == [] {
      return Some(MissingFeature);
    }
    var inventoryScan := ScanRows(items, (item: WalletTokenInventory) => InventoryItemOk(item, config),
                                  (item: WalletTokenInventory) => item.wallet,
                                  (item: WalletTokenInventory) => item.evidenceIds);
    if !inventoryScan.Clean? {
      return Some(MissingFeature);
    }
    if exists k :: 0 <= k < |config.operatorWallets| && config.operatorWallets[k] !in WalletsOf(items) {
      return Some(MissingFeature);
    }
    if OperatorInventory(items, config) > config.operatorSupplyBaseUnits {
      return Some(UnsupportedProtocolState);
    }
    var transferScan := ScanRows(transfers, (t: CanonicalTransfer) => TransferOk(t, config), Identity,
                                 (t: CanonicalTransfer) => t.evidenceIds);
    if transferScan.Malformed? {
      return Some(StaleState);
    }
    if transferScan.Duplicate? {
      return Some(UnsupportedProtocolState);
    }
    if transfers != [] {
      var slots := MapSeq((t: CanonicalTransfer) => t.slot, transfers);
      var firstSlot := MinOf(slots);
      FirstSlotBounds(transfers, items, slots);
      if exists j :: 0 <= j < |items| && items[j].asOfSlot >= firstSlot {
        return Some(StaleState);
      }
    }
    return None;
  }

  lemma FirstSlotBounds(transfers: seq<CanonicalTransfer>, items: seq<WalletTokenInventory>, slots: seq<int>)
    requires slots != [] && |slots| == |transfers| && forall k :: 0 <= k < |slots| ==> slots[k] == transfers[k].slot
    ensures (exists j :: 0 <= j < |items| && items[j].asOfSlot >= MinOf(slots))
            <==> !forall i, j :: 0 <= i < |transfers| && 0 <= j < |items| ==> items[j].asOfSlot < transfers[i].slot
  {
    var k :| 0 <= k < |slots| && slots[k] == MinOf(slots);
    forall i | 0 <= i < |transfers| ensures MinOf(slots) <= transfers[i].slot {
      assert slots[i] in slots;
    }
    if j :| 0 <= j < |items| && items[j].asOfSlot >= MinOf(slots) {
      assert !(items[j].asOfSlot < transfers[k].slot);
    }
  }
}
