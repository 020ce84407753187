/** How far a signal's attributed amount can be from what the named wallet holds:
    never ahead of it for an operator, and ahead of it on concrete accepted inputs
    for a wallet outside the operator set. */
module ConsolidationAttribution {
  import opened Domain
  import opened Ordering
  import opened Consolidation
  import opened ConsolidationLedger
  import opened ConsolidationDetector

  /** The ledger right after the transfer that raised a signal. */
  ghost predicate LedgerAtSignal(
    transfers: seq<CanonicalTransfer>, items: seq<WalletTokenInventory>, config: ConsolidationConfig,
    signal: ConsolidationSignal, ledger: Ledger)
    requires config.operatorSupplyBaseUnits > 0
  {
    StartAligned(items, config);
    var start, ordered := StartLedger(items, config), InOrder(transfers);
    exists n: nat ::
      && CrossesAt(start, ordered, n, items, config, signal)
      && Replay(start, ordered[..n + 1], config.operatorWallets) == Applied(ledger)
  }

  /** An operator wallet named by a signal holds at least the amount the signal reports. */
  lemma OperatorHoldsSignal(
    transfers: seq<CanonicalTransfer>, items: seq<WalletTokenInventory>, config: ConsolidationConfig,
    signal: ConsolidationSignal, ledger: Ledger)
    requires ValidInputs(transfers, items, config)
    requires LedgerAtSignal(transfers, items, config, signal, ledger)
    ensures signal.destinationWallet in ledger.inventory
    ensures signal.destinationWallet in config.operatorWallets ==>
              signal.consolidatedBaseUnits <= ledger.inventory[signal.destinationWallet]
  {
    StartAligned(items, config);
    var start, ordered := StartLedger(items, config), InOrder(transfers);
    var n: nat :|
      && CrossesAt(start, ordered, n, items, config, signal)
      && Replay(start, ordered[..n + 1], config.operatorWallets) == Applied(ledger);
    PrefixKept(transfers, items, config, n + 1);
  }

  // ---------- accepted inputs on which attribution outruns inventory ----------

  const MINT := "mint"
  const OP := "op"
  const A := "a"
  const WITNESS_CONFIG: ConsolidationConfig := ConsolidationConfig(9, MINT, [OP], 10, 600_000, true)
  const WITNESS_ITEMS: seq<WalletTokenInventory> :=
    [WalletTokenInventory(0, OP, MINT, 10, ["i1"]), WalletTokenInventory(0, A, MINT, 6, ["i2"])]

  const FIRST: CanonicalTransfer := CanonicalTransfer(1, 1, 0, 0, [1], ["t1"], OP, A, Token, MINT, 5)
  const SECOND: CanonicalTransfer := CanonicalTransfer(2, 2, 0, 0, [2], ["t2"], A, OP, Token, MINT, 11)
  const THIRD: CanonicalTransfer := CanonicalTransfer(3, 3, 0, 0, [3], ["t3"], OP, A, Token, MINT, 1)

  const TRANSFERS: seq<CanonicalTransfer> := [FIRST, SECOND, THIRD]

  function LedgerOf(opHolds: int, aHolds: int, opAttributed: int, aAttributed: int): Ledger {
    Ledger(map[OP := opHolds, A := aHolds], map[OP := opAttributed, A := aAttributed])
  }

  /** The ledger after the first `n` of the transfers. */
  function Stage(n: nat): Ledger {
    if n == 0 then LedgerOf(10, 6, 10, 0)
    else if n == 1 then LedgerOf(5, 11, 5, 5)
    else if n == 2 then LedgerOf(16, 0, 5, 5)
    else LedgerOf(15, 1, 4, 6)
  }

  lemma NamesDiffer()
    ensures OP != A && "i1" != "i2" && "t1" != "t2" && "t1" != "t3" && "t2" != "t3"
  {
    assert |OP| != |A|;
    assert "i1"[1] != "i2"[1] && "t1"[1] != "t2"[1] && "t1"[1] != "t3"[1] && "t2"[1] != "t3"[1];
  }

  lemma WitnessItemsOk()
    ensures InventoriesOk(WITNESS_ITEMS, WITNESS_CONFIG)
    ensures OP in WalletsOf(WITNESS_ITEMS) && OperatorInventory(WITNESS_ITEMS, WITNESS_CONFIG) == 10
  {
    NamesDiffer();
    assert WalletsOf(WITNESS_ITEMS)[0] == OP;
    var attributed := MapSeq((item: WalletTokenInventory) => InitialAttributed(item, WITNESS_CONFIG), WITNESS_ITEMS);
    assert attributed == [10] + [0];
    SumConcat([10], [0]);
    assert Sum(attributed) == 10;
  }

  lemma WitnessRowsOk()
    ensures TransferOk(FIRST, WITNESS_CONFIG) && TransferOk(SECOND, WITNESS_CONFIG) && TransferOk(THIRD, WITNESS_CONFIG)
    ensures Disjoint(FIRST.evidenceIds, SECOND.evidenceIds) && Disjoint(FIRST.evidenceIds, THIRD.evidenceIds)
            && Disjoint(SECOND.evidenceIds, THIRD.evidenceIds)
  {
    NamesDiffer();
  }

  lemma WitnessTransfersOk(n: nat)
    requires n <= |TRANSFERS|
    ensures TransfersOk(TRANSFERS[..n], WITNESS_CONFIG)
  {
    WitnessRowsOk();
    assert forall i, j :: 0 <= i < j < 3 ==> Identity(TRANSFERS[i]) != Identity(TRANSFERS[j]);
    PrefixClean(TRANSFERS, (t: CanonicalTransfer) => TransferOk(t, WITNESS_CONFIG), Identity,
                (t: CanonicalTransfer) => t.evidenceIds, n);
  }

  lemma WitnessInputsValid(n: nat)
    requires n <= |TRANSFERS|
    ensures ValidInputs(TRANSFERS[..n], WITNESS_ITEMS, WITNESS_CONFIG)
    ensures InOrder(TRANSFERS[..n]) == TRANSFERS[..n]
  {
    WitnessItemsOk();
    WitnessTransfersOk(n);
    SortOfOrdered(NotLater, TRANSFERS[..n]);
  }

  lemma WitnessStart()
    ensures StartLedger(WITNESS_ITEMS, WITNESS_CONFIG) == Stage(0)
  {
    NamesDiffer();
    var one := WITNESS_ITEMS[..1];
    assert WITNESS_ITEMS[..|WITNESS_ITEMS| - 1] == one && one[..0] == [];
    assert Balances(one) == map[OP := 10] && Attributions(one, WITNESS_CONFIG) == map[OP := 10];
  }

  lemma WitnessStep(n: nat)
    requires n < |TRANSFERS|
    ensures Stage(n).inventory.Keys == Stage(n).attributed.Keys == {OP, A}
    ensures Apply(Stage(n), TRANSFERS[n], [OP]) == Applied(Stage(n + 1))
  {
    NamesDiffer();
  }

  lemma {:induction false} WitnessReplay(n: nat)
    requires n <= |TRANSFERS|
    ensures Stage(0).inventory.Keys == Stage(0).attributed.Keys
    ensures Replay(Stage(0), TRANSFERS[..n], [OP]) == Applied(Stage(n))
  {
    if n > 0 {
      WitnessReplay(n - 1);
      WitnessStep(n - 1);
      ReplayNext(Stage(0), TRANSFERS, n - 1, [OP]);
    }
  }

  /** The ledger bound fails outside the operator set, on accepted inputs: "a" starts
      with 6 unattributed tokens, receives 5 attributed ones, sends all 11 back and is
      still attributed 5. */
  lemma NonOperatorCanExceedInventory()
    ensures ValidInputs([FIRST, SECOND], WITNESS_ITEMS, WITNESS_CONFIG)
    ensures var start := StartLedger(WITNESS_ITEMS, WITNESS_CONFIG);
            && start.inventory.Keys == start.attributed.Keys
            && Replay(start, InOrder([FIRST, SECOND]), WITNESS_CONFIG.operatorWallets)
               == Applied(Ledger(map[OP := 16, A := 0], map[OP := 5, A := 5]))
  {
    assert TRANSFERS[..2] == [FIRST, SECOND];
    WitnessStart();
    WitnessInputsValid(2);
    WitnessReplay(2);
  }

  lemma WitnessHolders()
    ensures !SomeHolder(Stage(1).attributed, WITNESS_CONFIG) && !SomeHolder(Stage(2).attributed, WITNESS_CONFIG)
    ensures LeastHolder(Stage(3).attributed, A, WITNESS_CONFIG)
  {
    NamesDiffer();
    StringIrreflexive(A);
  }

  lemma WitnessQuiet()
    ensures Stage(0).inventory.Keys == Stage(0).attributed.Keys
    ensures Quiet(Stage(0), TRANSFERS, 2, WITNESS_CONFIG)
  {
    WitnessReplay(1);
    WitnessReplay(2);
    WitnessHolders();
    assert QuietAt(Stage(0), TRANSFERS, 1, WITNESS_CONFIG) && QuietAt(Stage(0), TRANSFERS, 2, WITNESS_CONFIG);
  }

  lemma WitnessCrossing(signal: ConsolidationSignal)
    requires A in Stage(3).attributed
    requires signal == SignalFor(Stage(3).attributed, A, THIRD, WITNESS_ITEMS, WITNESS_CONFIG)
    ensures Stage(0).inventory.Keys == Stage(0).attributed.Keys
    ensures CrossesAt(Stage(0), TRANSFERS, 2, WITNESS_ITEMS, WITNESS_CONFIG, signal)
  {
    WitnessReplay(3);
    WitnessHolders();
    WitnessQuiet();
  }

  /** And the failure reaches the output: one more token sent to "a" raises a signal
      that reports 6 tokens while "a" holds 1. */
  lemma SignalCanExceedHolding() returns (signal: ConsolidationSignal)
    ensures ValidInputs(TRANSFERS, WITNESS_ITEMS, WITNESS_CONFIG)
    ensures Detects(TRANSFERS, WITNESS_ITEMS, WITNESS_CONFIG, Signaled(signal))
    ensures LedgerAtSignal(TRANSFERS, WITNESS_ITEMS, WITNESS_CONFIG, signal,
                           Ledger(map[OP := 15, A := 1], map[OP := 4, A := 6]))
    ensures signal.destinationWallet == A && signal.consolidatedBaseUnits == 6
  {
    assert TRANSFERS[..3] == TRANSFERS;
    WitnessStart();
    WitnessInputsValid(3);
    WitnessReplay(3);
    signal := SignalFor(Stage(3).attributed, A, THIRD, WITNESS_ITEMS, WITNESS_CONFIG);
    WitnessCrossing(signal);
  }

  // ---------- a sender named before anything was consolidated ----------

  lemma WitnessThirdAlone()
    ensures ValidInputs([THIRD], WITNESS_ITEMS, WITNESS_CONFIG) && InOrder([THIRD]) == [THIRD]
    ensures Stage(0).inventory.Keys == Stage(0).attributed.Keys
    ensures Replay(Stage(0), [THIRD], [OP]) == Applied(LedgerOf(9, 7, 9, 1))
  {
    NamesDiffer();
    WitnessItemsOk();
    WitnessRowsOk();
    SortOfOrdered(NotLater, [THIRD]);
    assert [THIRD][..0] == [];
    assert Replay(Stage(0), [], [OP]) == Applied(Stage(0));
    assert Apply(Stage(0), THIRD, [OP]) == Applied(LedgerOf(9, 7, 9, 1));
  }

  /** A wallet at the threshold before the first transfer is reported after it, even as
      its sender: "op" holds all ten tokens, sends one, and is named with nine. */
  lemma StartingHolderIsNamed() returns (signal: ConsolidationSignal)
    ensures ValidInputs([THIRD], WITNESS_ITEMS, WITNESS_CONFIG)
    ensures SomeHolder(StartLedger(WITNESS_ITEMS, WITNESS_CONFIG).attributed, WITNESS_CONFIG)
    ensures Detects([THIRD], WITNESS_ITEMS, WITNESS_CONFIG, Signaled(signal))
    ensures signal.destinationWallet == THIRD.sourceWallet == OP && signal.consolidatedBaseUnits == 9
  {
    NamesDiffer();
    WitnessStart();
    WitnessThirdAlone();
    assert [THIRD][..1] == [THIRD];
    assert Holds(Stage(0).attributed, OP, WITNESS_CONFIG);
    var attributed := LedgerOf(9, 7, 9, 1).attributed;
    StringIrreflexive(OP);
    assert LeastHolder(attributed, OP, WITNESS_CONFIG);
    signal := SignalFor(attributed, OP, THIRD, WITNESS_ITEMS, WITNESS_CONFIG);
    assert CrossesAt(Stage(0), [THIRD], 0, WITNESS_ITEMS, WITNESS_CONFIG, signal);
  }
}
