/** The token ledger that the consolidation detector replays, and what every replay
    keeps. */
module ConsolidationLedger {
  import opened Domain
  import opened Consolidation

  /** Token inventory and operator-attributed amount per wallet. */
  datatype Ledger = Ledger(inventory: map<string, int>, attributed: map<string, int>)

  datatype Replayed = Applied(ledger: Ledger) | Refused(reason: AbstainReason)

  function Balances(items: seq<WalletTokenInventory>): map<string, int>
    decreases |items|
  {
    if items == [] then map[]
    else
      var last := items[|items| - 1];
      Balances(items[..|items| - 1])[last.wallet := last.balanceBaseUnits]
  }

  function Attributions(items: seq<WalletTokenInventory>, config: ConsolidationConfig): map<string, int>
    decreases |items|
  {
    if items == [] then map[]
    else
      var last := items[|items| - 1];
      Attributions(items[..|items| - 1], config)[last.wallet := InitialAttributed(last, config)]
  }

  function StartLedger(items: seq<WalletTokenInventory>, config: ConsolidationConfig): Ledger {
    Ledger(Balances(items), Attributions(items, config))
  }

  function Move(amounts: map<string, int>, source: string, destination: string, amount: int): map<string, int>
    requires source in amounts && destination in amounts
  {
    var debited := amounts[source := amounts[source] - amount];
    debited[destination := debited[destination] + amount]
  }

  /** One transfer. Unattributed tokens of a non-operator move without attribution;
      an operator must have every token it sends attributed. */
  function Apply(ledger: Ledger, t: CanonicalTransfer, operators: seq<string>): Replayed
    requires ledger.inventory.Keys == ledger.attributed.Keys
  {
    var source, destination := t.sourceWallet, t.destinationWallet;
    if source !in ledger.inventory || destination !in ledger.inventory then Refused(MissingFeature)
    else if t.amountBaseUnits > ledger.inventory[source] then Refused(UnsupportedProtocolState)
    else if t.amountBaseUnits > ledger.attributed[source] && source in operators then
      Refused(UnknownProtocolState)
    else
      var moved := if t.amountBaseUnits > ledger.attributed[source] then 0 else t.amountBaseUnits;
      Applied(Ledger(Move(ledger.inventory, source, destination, t.amountBaseUnits),
                     Move(ledger.attributed, source, destination, moved)))
  }

  /** Replay transfers in order until one is refused. */
  function Replay(start: Ledger, ts: seq<CanonicalTransfer>, operators: seq<string>): (r: Replayed)
    requires start.inventory.Keys == start.attributed.Keys
    ensures r.Applied? ==>
              && r.ledger.inventory.Keys == start.inventory.Keys
              && r.ledger.attributed.Keys == start.inventory.Keys
    decreases |ts|
  {
    if ts == [] then Applied(start)
    else
      var before := Replay(start, ts[..|ts| - 1], operators);
      if before.Refused? then before else Apply(before.ledger, ts[|ts| - 1], operators)
  }

  // ---------- conservation ----------

  ghost function Total(amounts: map<string, int>, wallets: seq<string>): int
    requires forall k :: 0 <= k < |wallets| ==> wallets[k] in amounts
  {
    if wallets == [] then 0 else amounts[wallets[0]] + Total(amounts, wallets[1..])
  }

  lemma {:induction false} TotalUpdate(amounts: map<string, int>, wallets: seq<string>, w: string, v: int)
    requires Distinct(wallets) && forall k :: 0 <= k < |wallets| ==> wallets[k] in amounts
    requires w in amounts
    ensures Total(amounts[w := v], wallets)
            == Total(amounts, wallets) + if w in wallets then v - amounts[w] else 0
  {
    if wallets != [] {
      TotalUpdate(amounts, wallets[1..], w, v);
    }
  }

  lemma MoveKeepsTotal(
    amounts: map<string, int>, wallets: seq<string>, source: string, destination: string, amount: int)
    requires Distinct(wallets) && forall k :: 0 <= k < |wallets| ==> wallets[k] in amounts
    requires source in wallets && destination in wallets
    ensures source in amounts && destination in amounts
    ensures Total(Move(amounts, source, destination, amount), wallets) == Total(amounts, wallets)
  {
    var debited := amounts[source := amounts[source] - amount];
    TotalUpdate(amounts, wallets, source, amounts[source] - amount);
    TotalUpdate(debited, wallets, destination, debited[destination] + amount);
  }

  lemma {:induction false} TotalCovers(amounts: map<string, int>, wallets: seq<string>, w: string)
    requires forall k :: 0 <= k < |wallets| ==> wallets[k] in amounts && amounts[wallets[k]] >= 0
    requires w in wallets
    ensures amounts[w] <= Total(amounts, wallets)
  {
    TotalNonNegative(amounts, wallets[1..]);
    if w != wallets[0] {
      TotalCovers(amounts, wallets[1..], w);
    }
  }

  lemma {:induction false} TotalNonNegative(amounts: map<string, int>, wallets: seq<string>)
    requires forall k :: 0 <= k < |wallets| ==> wallets[k] in amounts && amounts[wallets[k]] >= 0
    ensures Total(amounts, wallets) >= 0
  {
    if wallets != [] {
      TotalNonNegative(amounts, wallets[1..]);
    }
  }

  /** What every replayed ledger keeps: the tracked wallets, the two totals,
      non-negative amounts, and operators never attributed more than they hold. */
  ghost predicate Kept(
    ledger: Ledger, wallets: seq<string>, operators: seq<string>, inventoryTotal: int, attributedTotal: int)
  {
    && Distinct(wallets)
    && ledger.inventory.Keys == ledger.attributed.Keys
    && (forall w :: w in ledger.inventory <==> w in wallets)
    && (forall w :: w in ledger.inventory ==> ledger.inventory[w] >= 0 && ledger.attributed[w] >= 0)
    && (forall w :: w in ledger.inventory && w in operators ==> ledger.attributed[w] <= ledger.inventory[w])
    && Total(ledger.inventory, wallets) == inventoryTotal
    && Total(ledger.attributed, wallets) == attributedTotal
  }

  lemma ApplyKeeps(
    ledger: Ledger, t: CanonicalTransfer, wallets: seq<string>, operators: seq<string>,
    inventoryTotal: int, attributedTotal: int)
    requires Kept(ledger, wallets, operators, inventoryTotal, attributedTotal)
    requires t.amountBaseUnits > 0 && t.sourceWallet != t.destinationWallet
    requires Apply(ledger, t, operators).Applied?
    ensures Kept(Apply(ledger, t, operators).ledger, wallets, operators, inventoryTotal, attributedTotal)
  {
    var source, destination := t.sourceWallet, t.destinationWallet;
    var moved := if t.amountBaseUnits > ledger.attributed[source] then 0 else t.amountBaseUnits;
    MoveKeepsTotal(ledger.inventory, wallets, source, destination, t.amountBaseUnits);
    MoveKeepsTotal(ledger.attributed, wallets, source, destination, moved);
  }

  lemma {:induction false} ReplayKeeps(
    start: Ledger, ts: seq<CanonicalTransfer>, wallets: seq<string>, operators: seq<string>,
    inventoryTotal: int, attributedTotal: int)
    requires Kept(start, wallets, operators, inventoryTotal, attributedTotal)
    requires forall k :: 0 <= k < |ts| ==>
               ts[k].amountBaseUnits > 0 && ts[k].sourceWallet != ts[k].destinationWallet
    requires Replay(start, ts, operators).Applied?
    ensures Kept(Replay(start, ts, operators).ledger, wallets, operators, inventoryTotal, attributedTotal)
    decreases |ts|
  {
    if ts != [] {
      var front := ts[..|ts| - 1];
      ReplayKeeps(start, front, wallets, operators, inventoryTotal, attributedTotal);
      ApplyKeeps(Replay(start, front, operators).ledger, ts[|ts| - 1], wallets, operators,
                 inventoryTotal, attributedTotal);
    }
  }

  /** Exactly when the sender stays covered: it sends attributed tokens, or its
      unattributed tokens cover the amount. Nobody else can become uncovered. */
  lemma SenderCoveredIff(ledger: Ledger, t: CanonicalTransfer, operators: seq<string>)
    requires ledger.inventory.Keys == ledger.attributed.Keys
    requires forall w :: w in ledger.inventory ==> ledger.attributed[w] <= ledger.inventory[w]
    requires t.amountBaseUnits > 0 && t.sourceWallet != t.destinationWallet
    requires Apply(ledger, t, operators).Applied?
    ensures var next := Apply(ledger, t, operators).ledger;
            && (next.attributed[t.sourceWallet] <= next.inventory[t.sourceWallet]
                <==> || t.amountBaseUnits <= ledger.attributed[t.sourceWallet]
                     || t.amountBaseUnits <= ledger.inventory[t.sourceWallet] - ledger.attributed[t.sourceWallet])
            && forall w :: w in next.inventory && w != t.sourceWallet ==> next.attributed[w] <= next.inventory[w]
  {
  }

  // ---------- the start ledger ----------

  ghost predicate WalletsUnique(items: seq<WalletTokenInventory>) {
    forall i, j :: 0 <= i < j < |items| ==> items[i].wallet != items[j].wallet
  }

  lemma AcceptedRows(items: seq<WalletTokenInventory>, config: ConsolidationConfig)
    requires InventoriesOk(items, config)
    ensures WalletsUnique(items) && Distinct(WalletsOf(items))
    ensures forall k :: 0 <= k < |items| ==> InventoryItemOk(items[k], config)
  {
  }

  lemma {:induction false} StartDomain(items: seq<WalletTokenInventory>, config: ConsolidationConfig)
    ensures Balances(items).Keys == Attributions(items, config).Keys
    ensures forall w :: w in Balances(items) ==> w in WalletsOf(items)
    decreases |items|
  {
    if items != [] {
      var front, last := items[..|items| - 1], items[|items| - 1];
      StartDomain(front, config);
      assert WalletsOf(items) == WalletsOf(front) + [last.wallet];
    }
  }

  lemma {:induction false} StartRow(items: seq<WalletTokenInventory>, config: ConsolidationConfig, k: nat)
    requires WalletsUnique(items) && k < |items|
    ensures items[k].wallet in Balances(items) && items[k].wallet in Attributions(items, config)
    ensures Balances(items)[items[k].wallet] == items[k].balanceBaseUnits
    ensures Attributions(items, config)[items[k].wallet] == InitialAttributed(items[k], config)
    decreases |items|
  {
    if k < |items| - 1 {
      StartRow(items[..|items| - 1], config, k);
      assert items[k].wallet != items[|items| - 1].wallet;
    }
  }

  lemma StartKeys(items: seq<WalletTokenInventory>, config: ConsolidationConfig)
    requires WalletsUnique(items)
    ensures Balances(items).Keys == Attributions(items, config).Keys
    ensures forall w :: w in Balances(items) ==> w in WalletsOf(items)
    ensures forall k :: 0 <= k < |items| ==>
              && items[k].wallet in Balances(items)
              && Balances(items)[items[k].wallet] == items[k].balanceBaseUnits
              && Attributions(items, config)[items[k].wallet] == InitialAttributed(items[k], config)
  {
    StartDomain(items, config);
    forall k | 0 <= k < |items|
      ensures items[k].wallet in Balances(items)
              && Balances(items)[items[k].wallet] == items[k].balanceBaseUnits
              && Attributions(items, config)[items[k].wallet] == InitialAttributed(items[k], config)
    {
      StartRow(items, config, k);
    }
  }

  lemma {:induction false} TotalOfRows(
    amounts: map<string, int>, items: seq<WalletTokenInventory>, values: seq<int>)
    requires |values| == |items|
    requires forall k :: 0 <= k < |items| ==> items[k].wallet in amounts && amounts[items[k].wallet] == values[k]
    ensures forall k :: 0 <= k < |items| ==> WalletsOf(items)[k] in amounts
    ensures Total(amounts, WalletsOf(items)) == Sum(values)
  {
    if items != [] {
      assert WalletsOf(items)[1..] == WalletsOf(items[1..]);
      TotalOfRows(amounts, items[1..], values[1..]);
    }
  }

  function InventoryTotal(items: seq<WalletTokenInventory>): int {
    Sum(MapSeq((item: WalletTokenInventory) => item.balanceBaseUnits, items))
  }

  lemma StartKept(items: seq<WalletTokenInventory>, config: ConsolidationConfig)
    requires InventoriesOk(items, config)
    ensures Kept(StartLedger(items, config), WalletsOf(items), config.operatorWallets,
                 InventoryTotal(items), OperatorInventory(items, config))
  {
    AcceptedRows(items, config);
    StartKeys(items, config);
    var wallets := WalletsOf(items);
    forall w | w in wallets ensures w in Balances(items) {
      var k :| 0 <= k < |wallets| && wallets[k] == w;
      assert items[k].wallet in Balances(items);
    }
    TotalOfRows(Balances(items), items, MapSeq((item: WalletTokenInventory) => item.balanceBaseUnits, items));
    TotalOfRows(Attributions(items, config), items,
                MapSeq((item: WalletTokenInventory) => InitialAttributed(item, config), items));
    forall w | w in Balances(items)
      ensures Balances(items)[w] >= 0 && 0 <= Attributions(items, config)[w] <= Balances(items)[w]
    {
      var k :| 0 <= k < |wallets| && wallets[k] == w;
      assert InventoryItemOk(items[k], config);
    }
  }
}
