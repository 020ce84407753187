# Verified models of the rugbot decision cores

This project models, in Dafny, the decision code of `rugbot`: pure or single-loop
integer code that decides when to buy, how much, when to sell, and which evidence
to trust, and that abstains rather than guess. Each model takes the form of its
source. Code made of expressions and frozen records is functions and datatypes;
code that updates variables, dictionaries or queues in loops is methods, proved
against a specification. What the code promises is then proved of the
specification, for every input and, where the code is a step of a protocol, for
every run.

`dafny verify dfyconfig.toml` checks everything.

## The models

- **Playbook exits** (`PlaybookRules`, `ExitRules`, `ExitRuns`, `ExitFractions`). One evaluation
  picks timeout, big buy, stop loss, trailing stop or take profit, in that order. A
  run repeats evaluations on one position. The running error between the amount
  sold and the nominal fraction is bounded, level by level firing history is exact,
  and the condition under which a "sell everything" level closes the position is an
  if-and-only-if. Every sale sells the fraction of its own level, and a run ends at the
  greatest fraction of what fired.
- **Playbook entries** (`EntryRules`, `EntryRuns`, `EntryFigures`). When a buy happens, exactly;
  and what no run of opportunities can do: break the cooldown, buy a token twice,
  buy a dip level twice, or disturb another token's fills.
- **Transfer paths** (`HopSearch`, `TransferRanges`, `TransferEvidence`). A worklist
  with no visited set: it terminates because a weight of the queue falls, and it
  reports each simple transfer path once and nothing else.
- **Consolidation** (`Consolidation`, `ConsolidationLedger`,
  `ConsolidationDetector`, `ConsolidationCoverage`, `ConsolidationAttribution`,
  `ConsolidationFigures`). A ledger
  of inventories and attributed amounts, replayed in order until a transfer leaves some
  wallet at the threshold; when attribution stays within inventory over a whole replay;
  and when the wallet a signal names holds what the signal reports.
- **Backtest** (`Backtest`, `BacktestRisk`, `BacktestReport`, `BacktestRows`). Splits that
  keep listed train entities out of TEST, rows whose every count, sum and ratio is said of
  the launches that belong to them, exact shortfall and drawdown, and a report that does
  not depend on the order of its input.
- **Full-exit stress** (`FullExitStress`, `FullExitFigures`). Which point of a trajectory
  gives each stressed figure, and how the figures move with the haircut and the added cost.
- **Collapse detector** (`AdverseEvent`, `AdverseFigures`). A one-pass scan against the definition over
  all ordered pairs, and what a detected event reports of its pair and of the points after it.
- **Sizing** (`VolumeSizing`, `VolumeExact`; `LiquiditySizing`, `LiquiditySelection`,
  `LiquidityAudit`, `LiquidityFigures`; `TimingQuantiles`). A binary search over constant-product limits;
  a selector whose results an independent validator re-reads; and the coherence of
  dump-time quantiles with dump probabilities.
- **Take profit** (`TakeProfit`). An argmax over observed multiples that is optimal
  over all real thresholds.

`Domain` and `Ordering` hold the shared vocabulary: parts-per-million arithmetic,
floor division, sums and maxima, lexicographic orders, and a stable sort.

The modules named `Figures`, `ExitFractions`, `VolumeExact` and `BacktestRows` state results
without the functions that compute them: over the inputs, with floors written as
cross-multiplied bounds.

## What is false of the code, and when it holds

- A position can be nominally exited in full and still hold units
  (`FullFractionCanLeaveUnits`: three units, one left). A level that asks for the
  whole closes the position exactly when the position is not ahead of its nominal
  size or one unit is left (`WholeFractionClosesIff`). What stays behind is less than
  the number of sales that were not dust (`ResidueAfterFullExit`).
- On accepted inputs a wallet outside the operator set can be attributed more tokens
  than it holds (`NonOperatorCanExceedInventory`). Over a replay, every wallet stays
  covered if and only if each transfer that applies is within its sender's attributed or
  within its unattributed tokens (`AttributionCoveredIff`).
- A signal can report six tokens for a wallet that holds one (`SignalCanExceedHolding`).
  The wallet named holds what is reported if and only if the unattributed tokens it
  started with and received cover those it sent (`SignalHeldIff`); it always does when
  every transfer so far met the condition above (`GuardedSignalIsHeld`) or when it is an
  operator (`OperatorHoldsSignal`).
- A signal need not name the receiver of its transfer: a wallet at the threshold from the
  start is named after the first transfer, even as its sender (`StartingHolderIsNamed`).
  With no such wallet, a signal always names the receiver (`SignalNamesReceiver`).
- One entity can have a TRAIN and a TEST launch if it is not a listed train entity
  (`UnlistedEntityInBothSplits`). None can when every TRAIN launch's entity is listed
  (`ListedEntitiesSeparate`).
- A higher haircut can raise a figure (`HaircutCanRaise`), since a direct call of
  `stress_copy_trade_case` accepts negative outputs; on the usual route they are rejected
  first (src/rugbot/backtest/cases/case_builder.py:839-847,
  src/rugbot/backtest/runners/copytrade.py:335-343).
  Raising the haircut never raises an output if and only if the output is not negative
  (`HaircutMonotoneIff`), and a harder stress never raises a figure of a case if and
  only if the case has no negative output (`StressMonotoneIff`).
- A sizing result can be rejected by its own validator (`RejectedByItsValidator`). It is
  accepted if and only if some candidate fits, or every snapshot is within the failure
  and mismatch caps (`ResultAcceptedIff`); so a result whose reason is one of these two
  caps is always rejected (`RiskReasonsAreRejected`).

## Model

| member | source | states |
|---|---|---|
| `PlaybookRules.FirstUnfilled` | src/rugbot/decision/playbook_rules.py:1088-1098 | the level returned is unfilled and hit, and every earlier level is filled or not hit; `None` means no level qualifies |
| `PlaybookRules.SellLevelsIncrease` | src/rugbot/decision/playbook_rules.py:679-694 | the neighbour-by-neighbour check of sell levels makes the whole list strictly increasing |
| `PlaybookRules.DipLevelsIncrease` | src/rugbot/decision/playbook_rules.py:662-676 | likewise for dip levels |
| `PlaybookRules.TrailingFloorsIncrease` | src/rugbot/decision/playbook_rules.py:697-728 | only the first trailing level can lack a floor, and floors strictly increase over the whole list |
| `PlaybookRules.BigBuyRangesDisjoint` | src/rugbot/decision/playbook_rules.py:731-747 | accepted big-buy ranges are pairwise disjoint and increasing |
| `ExitRules.TrailingTierIsGreatestFloor` | src/rugbot/decision/playbook_rules.py:984-1047 | the trailing tier used is exactly the one with the greatest floor not above the market cap; none is used exactly when every floor is above it |
| `ExitRules.UnmeasuredMarketCap` | src/rugbot/decision/playbook_rules.py:984-1047 | without a market cap the floorless first tier is used, and without such a tier the evaluation abstains |
| `ExitRules.DecisionExplained` | src/rugbot/decision/playbook_rules.py:268-382 | which rule a decision comes from is explained by an independent ranking of the rules that fire: timeout, big buy, stop loss, trailing stop, take profit; a hold changes nothing (what a sale sells: `ExitFractions`) |
| `ExitRules.ExplanationUnique` | src/rugbot/decision/playbook_rules.py:268-382 | at most one reason can explain a decision, so the ranking determines it |
| `ExitRules.RefusalExplained` | src/rugbot/decision/playbook_rules.py:268-382 | on accepted inputs the evaluation abstains if and only if no timeout, big buy or stop loss fires and the trailing levels cannot be judged: a negative market cap, or none where every level has a floor |
| `ExitRuns.SellAmountBounds` | src/rugbot/decision/playbook_rules.py:1101-1159 | a sell is between 1 and the position; a share below one unit sells exactly 1; otherwise the amount is below its nominal share by less than a unit unless it empties the position |
| `ExitRuns.ExitDrift` | src/rugbot/decision/playbook_rules.py:1067-1159 | over every run, sold amounts sum to what left the position, the fraction stays within the whole, and the error `sold*10^6 - N*f` is at most 10^6 per dust sale and above -10^6 per other sale |
| `ExitRuns.DriftBound` | src/rugbot/decision/playbook_rules.py:1067-1159 | after n sells the amount sold is within n base units of N*f/10^6 on both sides |
| `ExitRuns.SalesChained` | src/rugbot/execution/position_runtime.py:116-181 | every sell takes between 1 and the current position, starts from the position and fraction the previous one left, and never lowers the fraction or raises it past the whole |
| `ExitRuns.ResidueAfterFullExit` | src/rugbot/decision/playbook_rules.py:1101-1159 | a run with the whole fraction exited holds nothing, or fewer units than it had non-dust sales |
| `ExitRuns.FullFractionCanLeaveUnits` | src/rugbot/decision/playbook_rules.py:1101-1159 | a concrete run that has exited the whole fraction and still holds a unit |
| `ExitRuns.WholeFractionClosesIff` | src/rugbot/decision/playbook_rules.py:1101-1159 | a level asking for the whole closes the position if and only if the position is at most its nominal size, or is one unit |
| `ExitRuns.DustAfterFullExit` | src/rugbot/decision/playbook_rules.py:1113-1121 | once the fraction is whole, every further level sells exactly one unit |
| `ExitRuns.TakeProfitNextInOrder` | src/rugbot/decision/playbook_rules.py:1088-1098 | a take-profit that fires is the next one in order |
| `ExitRuns.LevelsFireOnce` | src/rugbot/decision/playbook_rules.py:310-373 | over every run the filled lists are the firing history; take-profit indices are exactly 0, 1, ..., m-1, stop-loss and big-buy indices are distinct |
| `ExitRuns.NoLevelTwice` | src/rugbot/decision/playbook_rules.py:310-373 | no two sells of a run come from the same take-profit, stop-loss or big-buy level |
| `ExitRuns.TrailingSilencesTakeProfit` | src/rugbot/decision/playbook_rules.py:336-373 | with a trailing level configured at every step no take-profit fires |
| `ExitFractions.DecisionFraction` | src/rugbot/decision/playbook_rules.py:1067-1159 | a sell triggered by level i leaves the greater of the fraction before it and that very level's configured fraction; a trailing stop or a timeout leaves the whole; the decision reports the fraction it leaves |
| `ExitFractions.SaleFraction` | src/rugbot/decision/playbook_rules.py:268-382 | in a run, each sale does so with the rules of its own step |
| `ExitFractions.BigBuyIsCurrent` | src/rugbot/decision/playbook_rules.py:750-791 | a big-buy sale answers a buy of the position's own token, no later than the decision, within the range of the unfilled level that fires |
| `ExitFractions.FractionIsGreatestFired` | src/rugbot/decision/playbook_rules.py:1101-1159 | over any run with fixed rules the exited fraction is the greatest one configured for what fired, and 0 with no sale |
| `EntryRules.DipReached` | src/rugbot/decision/playbook_rules.py:955-973 | the floored drawdown reaches a threshold exactly when the cross-multiplied fall does |
| `EntryRules.DipBuyIff` | src/rugbot/decision/playbook_rules.py:927-981 | dip level i is bought if and only if it is unfilled and reached and every shallower level is filled |
| `EntryRules.BuyIff` | src/rugbot/decision/playbook_rules.py:187-265 | a buy happens if and only if the inputs are well formed, every configured filter passes, and a dip entry has a justified level |
| `EntryRules.DecisionState` | src/rugbot/decision/playbook_rules.py:187-265 | the state changes only on a buy, by that buy, and a bought dip level was not filled before |
| `EntryFigures.DecisionReason` | src/rugbot/decision/playbook_rules.py:187-265 | a decision names the first filter that stops the opportunity, or the buy, says truly what that filter found, and acts as the reason calls for |
| `EntryFigures.RefusalReason` | src/rugbot/decision/playbook_rules.py:803-924 | an abstention on well-formed inputs is one filter that cannot be measured, with the reason that fits what is missing or malformed, every earlier filter having passed |
| `EntryFigures.BuySize` | src/rugbot/decision/playbook_rules.py:927-981 | a dip buy spends the size of the level it names, any other buy the base size, and nothing else names a size or a level |
| `EntryRuns.CopytradesSpaced` | src/rugbot/decision/playbook_rules.py:842-871 | over every run with a positive cooldown, copytrade buys are at least a cooldown apart, also from the one remembered at the start |
| `EntryRuns.CooldownOverRun` | src/rugbot/decision/playbook_rules.py:842-871 | copytrade buy number k, counted from zero, comes at least k cooldowns after the first |
| `EntryRuns.BuyOnlyOnceOverRun` | src/rugbot/decision/playbook_rules.py:220-235 | with buy-only-once no token gets two copytrade buys, nor one if it was already bought |
| `EntryRuns.DipFillEffect` | src/rugbot/decision/playbook_rules.py:1162-1196 | a dip buy adds exactly its level and the reported fills to its token, and leaves every other token's fills untouched |
| `EntryRuns.DipLevelsGrow` | src/rugbot/decision/playbook_rules.py:1162-1196 | a step only adds filled levels, only for its own token, and records the level it bought |
| `EntryRuns.DipLevelsOnceOverRun` | src/rugbot/decision/playbook_rules.py:955-973 | over every run each dip level of each token is bought at most once |
| `EntryRuns.FilledAtStartNotBought` | src/rugbot/decision/playbook_rules.py:955-973 | a level filled before the run is not bought in it |
| `EntryRuns.EntriesUniqueOverRun` | src/rugbot/decision/playbook_rules.py:1162-1189 | the fill list keeps at most one entry per token |
| `HopSearch.LatestIsMaximal` | src/rugbot/decision/rugger_protection.py:379-396 | the transfer picked for an edge is maximal by slot and evidence |
| `HopSearch.PathTransfers` | src/rugbot/decision/rugger_protection.py:379-396 | the loop picks, edge by edge, the latest transfer of each edge that has one |
| `HopSearch.SelectedOnPath` | src/rugbot/decision/rugger_protection.py:379-396 | on a transfer path exactly one transfer is picked per edge |
| `HopSearch.Adjacency` | src/rugbot/decision/rugger_protection.py:337-343 | the table holds each wallet's outgoing transfers, sorted, and nothing else |
| `HopSearch.ChildrenWeighLess` | src/rugbot/decision/rugger_protection.py:347-375 | up to D continuations weigh less than the path they replace, which bounds the worklist |
| `HopSearch.FollowEdge` | src/rugbot/decision/rugger_protection.py:351-375 | one edge queues and records its simple extension, keeps the table sound, and adds at most one unit of weight |
| `HopSearch.ExpandPath` | src/rugbot/decision/rugger_protection.py:351-375 | expanding a path loses no reportable path and strictly lowers the weight of the queue |
| `HopSearch.Explore` | src/rugbot/decision/rugger_protection.py:345-375 | the worklist ends with sound rows for exactly the simple paths of 2 to max_hops hops |
| `HopSearch.MultiHops` | src/rugbot/decision/rugger_protection.py:330-376 | each simple transfer path from the target with 2 to max_hops hops is returned exactly once, in strict order, and nothing else is |
| `HopSearch.HopRow` | src/rugbot/decision/rugger_protection.py:355-371 | a reported hop has as many hops as transfers picked, one per edge of its path, and the slots and the evidence of those picks |
| `TransferRanges.GroupTransfers` | src/rugbot/decision/rugger_protection.py:291-299 | the grouping table holds, per key, all transfers with that key in order |
| `TransferRanges.BuildTransferRanges` | src/rugbot/decision/rugger_protection.py:287-327 | one range per occurring key, strictly ordered, each aggregating all transfers of its key |
| `TransferRanges.Conserved` | src/rugbot/decision/rugger_protection.py:287-327 | the ranges together count every transfer and every base unit exactly once |
| `TransferEvidence.RangesMeasure` | src/rugbot/decision/rugger_protection.py:287-327 | each range has the least and the greatest slot, the count, the amount and the increasing evidence list of exactly the transfers between its wallets in its asset; every transfer is in one range |
| `TransferRanges.PickIsLatestOnEdge` | src/rugbot/decision/rugger_protection.py:379-396 | the slot of the picked transfer is the latest last_slot among the edge's asset ranges |
| `TransferRanges.HopSlotsFromRanges` | src/rugbot/decision/rugger_protection.py:355-371 | a hop's last_slot and first_slot are the maximum and the minimum over its edges of that latest slot |
| `TransferEvidence.HopFromValidTransfers` | src/rugbot/decision/rugger_protection.py:205-232 | from validated transfers, a hop's slots lie within the cutoff and its evidence is the non-empty increasing list of its picked transfers' identifiers |
| `Consolidation.ConfigError` | src/rugbot/decision/consolidation_protection.py:215-263 | no rejection exactly for a complete, unambiguous configuration |
| `Consolidation.ScanRows` | src/rugbot/decision/consolidation_protection.py:278-378 | the set-growing scan accepts exactly the lists of acceptable rows with distinct keys and disjoint evidence, and otherwise stops at the first row that spoils the list |
| `Consolidation.ValidateInputs` | src/rugbot/decision/consolidation_protection.py:210-390 | no error exactly for valid inputs; otherwise the reason of the first failing check |
| `ConsolidationLedger.ApplyKeeps` | src/rugbot/decision/consolidation_protection.py:157-190 | a transfer keeps both totals, non-negative amounts, and operators attributed at most what they hold |
| `ConsolidationFigures.TransfersInOrder` | src/rugbot/decision/consolidation_protection.py:149-154 | transfers are replayed in order of slot, then transaction, then event, none lost |
| `ConsolidationFigures.StartMeans` | src/rugbot/decision/consolidation_protection.py:135-148 | the ledger starts with every wallet's balance, attributed in full for operators and not at all for others |
| `ConsolidationLedger.ReplayKeeps` | src/rugbot/decision/consolidation_protection.py:157-190 | so does every replayed sequence of transfers |
| `ConsolidationAttribution.NonOperatorCanExceedInventory` | src/rugbot/decision/consolidation_protection.py:157-190 | accepted inputs whose ordered replay leaves a non-operator attributed five tokens while it holds none |
| `ConsolidationAttribution.SignalCanExceedHolding` | src/rugbot/decision/consolidation_protection.py:157-212 | accepted inputs whose detection is a signal reporting six tokens for a wallet that holds one |
| `ConsolidationAttribution.OperatorHoldsSignal` | src/rugbot/decision/consolidation_protection.py:157-212 | an operator wallet named by a signal holds at least the amount the signal reports; for other wallets see `SignalHeldIff` |
| `ConsolidationAttribution.StartingHolderIsNamed` | src/rugbot/decision/consolidation_protection.py:192-212 | accepted inputs where a wallet at the threshold from the start is named as the sender of the first transfer |
| `ConsolidationCoverage.AttributionCoveredIff` | src/rugbot/decision/consolidation_protection.py:157-190 | on accepted inputs, every prefix of the replay leaves each wallet attributed at most what it holds if and only if each transfer that applies is within its sender's attributed or unattributed tokens |
| `ConsolidationCoverage.GuardedSignalIsHeld` | src/rugbot/decision/consolidation_protection.py:157-212 | if every transfer up to a signal's meets that condition, the wallet named holds the reported amount, whoever it is |
| `ConsolidationCoverage.SpareIsNet` | src/rugbot/decision/consolidation_protection.py:171-190 | what a wallet holds beyond its attribution is what it started with plus the unattributed tokens it received less those it sent |
| `ConsolidationCoverage.SignalHeldIff` | src/rugbot/decision/consolidation_protection.py:157-212 | the wallet named by a signal holds the reported amount if and only if its unattributed tokens, at the start and received, cover those it sent |
| `ConsolidationCoverage.SignalNamesReceiver` | src/rugbot/decision/consolidation_protection.py:157-212 | with no wallet at the threshold to begin with, a signal names the receiver of its transfer |
| `ConsolidationLedger.SenderCoveredIff` | src/rugbot/decision/consolidation_protection.py:175-190 | one transfer: from a covered ledger the sender stays covered if and only if the amount is within its attributed or its unattributed tokens, and nobody else becomes uncovered; over a run see `AttributionCoveredIff` |
| `ConsolidationLedger.StartKept` | src/rugbot/decision/consolidation_protection.py:135-148 | the starting tables satisfy the invariant, with the operator inventory as attributed total |
| `ConsolidationDetector.FindHolder` | src/rugbot/decision/consolidation_protection.py:192-197 | the scan returns the least wallet name at the threshold, and none exactly when no wallet is |
| `ConsolidationDetector.Post` | src/rugbot/decision/consolidation_protection.py:157-190 | the in-place update of both tables is the ledger step, with its three refusals |
| `ConsolidationDetector.Scan` | src/rugbot/decision/consolidation_protection.py:157-213 | the loop stops after the first transfer that leaves some wallet at the threshold, or at the first refusal; it is silent when neither occurs |
| `ConsolidationDetector.DetectConsolidationSignal` | src/rugbot/decision/consolidation_protection.py:114-213 | on valid inputs the result is that of the ordered replay; on others a refusal with the reason and slot of the first failing check |
| `ConsolidationDetector.DetectionUnique` | src/rugbot/decision/consolidation_protection.py:114-213 | valid inputs have exactly one detection; a signal is that of the first transfer after which some wallet is at the threshold, and names the least such wallet |
| `ConsolidationDetector.PrefixKept` | src/rugbot/decision/consolidation_protection.py:157-190 | every replayed prefix keeps the ledger invariant |
| `ConsolidationDetector.SignalAccepted` | src/rugbot/decision/consolidation_protection.py:63-111 | a signal's share lies between the threshold and the whole, and its validator accepts it at any later slot |
| `ConsolidationFigures.HoldsIffShare` | src/rugbot/decision/consolidation_protection.py:192-202 | a wallet is at the threshold if and only if its share, rounded down, is |
| `ConsolidationFigures.SignalReports` | src/rugbot/decision/consolidation_protection.py:192-213 | a signal reports its transfer, the wallet's attributed units, `share * supply <= units * 10^6 < (share + 1) * supply`, and the evidence of the inventories and of its transfer, each identifier once |
| `ConsolidationDetector.SignalSurvivesExtension` | src/rugbot/decision/consolidation_protection.py:148-213 | strictly later transfers never change a signal |
| `Backtest.ValidateHorizons` | src/rugbot/backtest/evaluation.py:532-551 | the loop over labels reports the first rejected row, each horizon having to exceed the one before |
| `Backtest.HorizonsIncrease` | src/rugbot/backtest/evaluation.py:532-551 | accepted labels have strictly increasing positive horizons |
| `Backtest.ActionError` | src/rugbot/backtest/evaluation.py:652-733 | an accepted launch has a fill status, an ordering and a result exactly when it was entered |
| `Backtest.InputError` | src/rugbot/backtest/evaluation.py:230-241 | no rejection exactly for a valid configuration and clean launches with unique ids |
| `BacktestRisk.TailIsWorst` | src/rugbot/backtest/evaluation.py:848-861 | no k of the results sum to less than the tail of k |
| `BacktestRisk.ShortfallIsWorstMean` | src/rugbot/backtest/evaluation.py:848-861 | the shortfall is the floored mean of k results, 1 <= k <= n, whose sum is the least over all k-element sub-collections; k is the tail share rounded up |
| `BacktestRisk.ShortfallBounds` | src/rugbot/backtest/evaluation.py:848-861 | it lies between the worst result and the floored overall mean |
| `BacktestRisk.ShortfallMonotone` | src/rugbot/backtest/evaluation.py:848-861 | it never falls as the tail fraction grows |
| `BacktestRisk.ScanDeepest` | src/rugbot/backtest/evaluation.py:864-874 | the one-pass drawdown is the maximum over i <= j of prefix sum i minus prefix sum j, the empty prefix counting as 0 |
| `BacktestReport.MaximumDrawdown` | src/rugbot/backtest/evaluation.py:864-874 | the loop computes that maximum, a missing result counting as 0 |
| `BacktestReport.CombinedEvidenceIds` | src/rugbot/backtest/evaluation.py:917-924 | every launch's and outcome's identifiers, first occurrences in order |
| `BacktestReport.BuildBacktestReport` | src/rugbot/backtest/evaluation.py:148-180 | accepted inputs give the specified report, whose rows `BacktestRows` says over the launches themselves; others the reason and slot of the first failing check |
| `BacktestRows.SplitIffBelongs` | src/rugbot/backtest/evaluation.py:760-770 | a launch is in STRESS exactly if its entity is a stress entity, and otherwise in TRAIN up to the train end, in TEST from the test start, and in VALIDATION strictly between |
| `BacktestRows.ReportRowAdds` | src/rugbot/backtest/evaluation.py:183-227 | each of the twelve counts and three results of row k is the total, over the launches that belong to split k by entity and slot, of what the figure counts; the row is marked non-empty exactly when one belongs |
| `BacktestRows.ReportRowRatios` | src/rugbot/backtest/evaluation.py:830-940 | coverage, fill failure, cost to gross profit and profit capture are the floored ratios of such totals, absent exactly when there is nothing to divide by |
| `BacktestRows.RowShortfall` | src/rugbot/backtest/evaluation.py:848-861 | a row's shortfall is the floored mean of the worst entered results of the row, as many as the tail's share rounded up, and absent when none was entered |
| `BacktestRows.LaunchesInOrder` | src/rugbot/backtest/evaluation.py:773-785 | launches are taken by decision slot, then index, then identifier, none lost |
| `BacktestRows.ReportCarries` | src/rugbot/backtest/evaluation.py:148-180 | a report carries each identifier of a launch or an outcome exactly once, counts every launch and names its configuration |
| `BacktestReport.ReportIgnoresOrder` | src/rugbot/backtest/evaluation.py:773-785 | every ordering of the same launches is accepted and gives the same report |
| `BacktestReport.SplitsPartition` | src/rugbot/backtest/evaluation.py:760-770 | the four splits partition the launches, as multisets |
| `BacktestReport.SplitSizes` | src/rugbot/backtest/evaluation.py:760-770 | and their sizes add up to the number of launches |
| `BacktestReport.UnlistedEntityInBothSplits` | src/rugbot/backtest/evaluation.py:403-418 | accepted launches of one entity, not listed as a train entity, in both TRAIN and TEST |
| `BacktestReport.ListedEntitiesSeparate` | src/rugbot/backtest/evaluation.py:403-418 | if every TRAIN launch's entity is a listed train entity, no entity has launches in both TRAIN and TEST |
| `BacktestReport.NoLeakage` | src/rugbot/backtest/evaluation.py:403-418 | no TEST launch belongs to a listed train entity, precedes the model freeze, or is as early as a TRAIN launch |
| `BacktestReport.Accounting` | src/rugbot/backtest/evaluation.py:665-699 | observed = attempted + skipped + abstained, attempted = filled + failed + expired + unfilled, and observed net result = attempted net result |
| `BacktestReport.ReportSound` | src/rugbot/backtest/evaluation.py:183-227 | each of the four rows adds up, with ratios in range, the exact drawdown and a bounded shortfall |
| `BacktestReport.ReportCoversLaunches` | src/rugbot/backtest/evaluation.py:148-180 | the observed counts of the rows add up to the source launch count |
| `FullExitStress.StressPoints` | src/rugbot/backtest/dataset.py:592-628 | the loop stresses every point, or abstains for an empty or future trajectory |
| `FullExitStress.StressOutcome` | src/rugbot/backtest/dataset.py:653-698 | the loop recomputes each uncensored horizon result (at the point that `FullExitFigures.RowPriced` names) and the maximum opportunity, and abstains exactly when a row has no point or the slots differ |
| `FullExitStress.StressCopyTradeCase` | src/rugbot/backtest/dataset.py:240-290 | a case is stressed throughout, each figure being the one `FullExitFigures.CaseFigures` describes, exactly when it is stressable, which depends on neither the haircut nor the cost; otherwise the abstention of the first failing check |
| `FullExitFigures.StressAllMeans` | src/rugbot/backtest/dataset.py:608-621 | a stressed output is the remaining share rounded down, between cross-multiplied bounds, and the cost grows by the addition |
| `FullExitFigures.RowPriced` | src/rugbot/backtest/dataset.py:664-681 | an uncensored horizon is priced at the point within it such that every later point of the trajectory is beyond it; a censored one is untouched |
| `FullExitFigures.RealizedIsBest` | src/rugbot/backtest/dataset.py:631-650 | the best exit is reached by a point before the event and is at least that of every such point, and is 0 when there is none |
| `FullExitFigures.CaseFigures` | src/rugbot/backtest/dataset.py:240-290 | so every figure of a stressed case, and of each history sample, is determined by its own points, and all else is unchanged |
| `FullExitStress.TimesKept` | src/rugbot/backtest/dataset.py:592-628 | stress changes amounts, not which points fall in a horizon or before the event |
| `FullExitStress.HaircutMonotoneIff` | src/rugbot/backtest/dataset.py:608-621 | raising the haircut never raises an output if and only if the output is not negative |
| `FullExitStress.StressMonotone` | src/rugbot/backtest/dataset.py:592-698 | a harder stress never raises a point output, an uncensored horizon result, a realized history result or the maximum opportunity: for any outputs when only the cost rises, with no negative output otherwise |
| `FullExitStress.HaircutCanRaise` | src/rugbot/backtest/dataset.py:592-698 | a stressable case with one output of -10 whose output, horizon result and maximum opportunity the full haircut raises to 0 |
| `FullExitStress.StressMonotoneIff` | src/rugbot/backtest/dataset.py:592-698 | for a stressable case, no harder stress ever raises a figure if and only if no output of the case is negative |
| `FullExitStress.FullHaircutPoint` | src/rugbot/backtest/dataset.py:608-621 | at a full haircut a point is worth minus its costs |
| `FullExitStress.FullHaircutNeverProfits` | src/rugbot/backtest/dataset.py:592-698 | at a full haircut no result of a case is positive |
| `AdverseEvent.DrawdownGrowsWithPeak` | src/rugbot/domain/adverse_event.py:663-670 | a higher peak never lowers the floored drawdown to the same trough |
| `AdverseEvent.DetectAdverseEvent` | src/rugbot/domain/adverse_event.py:137-201 | an event is returned if and only if some ordered pair is a material collapse, and it is the pair with the greatest drawdown, from the first highest price and at the first such trough (what it reports of that pair: `AdverseFigures`) |
| `AdverseFigures.DrawdownBracket` | src/rugbot/domain/adverse_event.py:663-670 | a drawdown is the fall in parts per million of the peak, rounded down, between cross-multiplied bounds |
| `AdverseFigures.RecoveryIsBestRise` | src/rugbot/domain/adverse_event.py:673-708 | a recovery is the greatest capped rise over the trough among the points later than it and within the window, and 0 if none rises |
| `AdverseFigures.DetectedEventMeans` | src/rugbot/domain/adverse_event.py:711-734 | a detected event names the slot, time and price of both points of the strongest pair, its floored drawdown, and the best rise after its trough |
| `AdverseEvent.StrongestUnique` | src/rugbot/domain/adverse_event.py:148-189 | there is only one such pair, so the report is determined |
| `AdverseEvent.DetectedEventAccepted` | src/rugbot/domain/adverse_event.py:462-529 | a detected drawdown is at least the minimum and below the whole, and the event passes the attribution validator |
| `VolumeSizing.CeilAgreesWithLimit` | src/rugbot/decision/volume_sizing.py:268-278 | the rounded-up impact is within the limit if and only if the cross-multiplied test passes |
| `VolumeSizing.NeverThreeTenths` | src/rugbot/decision/volume_sizing.py:268-284 | a size within an impact limit of at most 10^6 has 7q < 3R and takes less than three tenths of the pool's tokens |
| `VolumeSizing.ProductNeverDecreases` | src/rugbot/decision/volume_sizing.py:281-284 | the reserve product never decreases after the floored output leaves |
| `VolumeExact.OutputBracket` | src/rugbot/decision/volume_sizing.py:281-284 | `out * (R + q) <= T * q < (out + 1) * (R + q)` |
| `VolumeExact.OutputIsMost` | src/rugbot/decision/volume_sizing.py:281-284 | the output is the most tokens that can leave without lowering the reserve product |
| `VolumeExact.ImpactCeilBracket` | src/rugbot/decision/volume_sizing.py:268-278 | the reported impact is the least integer not below `((R + q)^2 - R^2) * 10^6 / R^2` |
| `VolumeSizing.LargestValidInput` | src/rugbot/decision/volume_sizing.py:256-265 | the binary search returns a boundary of the predicate, and the exact largest input when the predicate is downward closed |
| `VolumeSizing.LeastCapIsLargestSize` | src/rugbot/decision/volume_sizing.py:81-107 | a size meets all five limits if and only if it is at most the least cap |
| `VolumeSizing.LimitingIsViolatedNext` | src/rugbot/decision/volume_sizing.py:120-134 | a constraint is reported as limiting exactly when the next size violates it, a searched one only below the request |
| `VolumeSizing.SizeVolumeLiquidityAware` | src/rugbot/decision/volume_sizing.py:55-150 | the size is the largest meeting all five limits, which `VolumeExact` says of the pool alone, with its exact limiting set; the sizer abstains on a valid request only when no size meeting them yields a token |
| `VolumeExact.SizeIsExact` | src/rugbot/decision/volume_sizing.py:81-150 | said of the pool alone, with the exit limit and the impact cross-multiplied: the size is the largest that keeps every limit, and its output is bracketed on both sides |
| `VolumeExact.FiguresAreExact` | src/rugbot/decision/volume_sizing.py:81-150 | and so is every cap it reports, and its impact |
| `VolumeExact.NothingIsExact` | src/rugbot/decision/volume_sizing.py:109-118 | the abstention means exactly that no size that keeps every limit has `T * q >= R + q` |
| `VolumeSizing.SizeLeavesSevenTenths` | src/rugbot/decision/volume_sizing.py:55-150 | a produced size takes less than three tenths of the tokens and does not lower the reserve product |
| `LiquiditySizing.CountedUnique` | src/rugbot/decision/sizing.py:1377-1393 | the counting table has no count above one exactly when positions are unique |
| `LiquiditySizing.ValidateLiquiditySnapshots` | src/rugbot/decision/sizing.py:1366-1394 | the counting loop reports the first bad snapshot, then repeated positions, then positions that do not match the candidates |
| `LiquiditySelection.ViableIff` | src/rugbot/decision/sizing.py:575-599 | a candidate is viable if and only if it is within every cap and limit, the participation cap read without rounding |
| `LiquiditySelection.LargestViableIsFirst` | src/rugbot/decision/sizing.py:602-613 | the selected candidate is the first viable one that no viable one betters by quote amount, then hazard; none exactly when none is viable |
| `LiquiditySelection.NotViableFails` | src/rugbot/decision/sizing.py:652-727 | the seven reported checks together are exactly what viability needs |
| `LiquiditySelection.SelectLiquiditySize` | src/rugbot/decision/sizing.py:318-449 | a result exactly for valid inputs; otherwise the reason and slot of the first failing check |
| `LiquidityFigures.SelectionSpendsMost` | src/rugbot/decision/sizing.py:602-613 | the selected candidate fits, spends the most of those that fit, and has the lowest hazard among those that spend as much |
| `LiquidityFigures.ResultShows` | src/rugbot/decision/sizing.py:730-780 | a selected result shows every figure of the snapshot at its position; an empty one shows, of each figure, a value some snapshot has and none is worse than |
| `LiquidityFigures.CapIsLargest` | src/rugbot/decision/sizing.py:616-649 | an amount is within the reported entry cap if and only if it is within the four caps and, unrounded, the participation share |
| `LiquidityFigures.ReasonIsFirstExceeded` | src/rugbot/decision/sizing.py:652-727 | the reason of an empty result is the first, in order, whose unrounded limit some candidate exceeds at the snapshot of its position |
| `LiquidityFigures.ResultCollects` | src/rugbot/decision/sizing.py:792-807 | a result carries the evidence and the reason codes of all snapshots, each once |
| `LiquiditySelection.AcceptedSelectionIsWithinLimits` | src/rugbot/decision/sizing.py:2467-2541 | any loaded result the validator accepts holds a size within all of that result's caps and limits, wherever it came from |
| `LiquidityAudit.SelectionIsLargest` | src/rugbot/decision/sizing.py:348-361 | a size is selected exactly when some candidate fits its snapshot; it is the first of the fitting candidates that none betters |
| `LiquidityAudit.SelectedResultAccepted` | src/rugbot/decision/sizing.py:2242-2266 | every result with a selected size passes the independent validator |
| `LiquidityAudit.ResultAcceptedIff` | src/rugbot/decision/sizing.py:2242-2266 | on valid inputs the result passes if and only if some candidate fits, or every snapshot is within the failure and mismatch caps |
| `LiquidityAudit.RejectedByItsValidator` | src/rugbot/decision/sizing.py:2467-2498 | valid inputs whose result blames the failure cap and is rejected by its own validator |
| `LiquidityAudit.NoSelectionReasonIsFirstFailure` | src/rugbot/decision/sizing.py:652-727 | the reason reported is the first check, in order, that some candidate fails, and never the fall-through one |
| `LiquidityAudit.RiskReasonsAreRejected` | src/rugbot/decision/sizing.py:2467-2498 | a result that reports the failure or the mismatch cap is rejected by its own validator |
| `TimingQuantiles.ValidateQuantileProbability` | src/rugbot/decision/sizing.py:1073-1102 | the loop accepts exactly when the probability reaches the level at the first horizon not before the quantile and at none just before it |
| `TimingQuantiles.SupportedIffCoherent` | src/rugbot/decision/sizing.py:1073-1102 | with non-decreasing probabilities that one check means: at every horizon, the probability reaches the level if and only if the quantile has passed |
| `TimingQuantiles.ValidateTiming` | src/rugbot/decision/sizing.py:970-1070 | a timing estimate is accepted exactly when it is in range, ordered and coherent at every horizon for all three quantiles |
| `TimingQuantiles.CoherentEstimate` | src/rugbot/decision/sizing.py:1055-1113 | coherence, written out: at 1, 3, 5 and 10 seconds the dump is at least one in twenty, one in ten or one in two likely exactly when that quantile has passed |
| `TakeProfit.CandidatesList` | src/rugbot/decision/lite_profiler.py:286-288 | the candidates are the observed multiples, strictly increasing |
| `TakeProfit.SelectOptimalTp` | src/rugbot/decision/lite_profiler.py:275-309 | a take-profit is chosen exactly when some launch is scored, and it is optimal over every real threshold that meets the 70% floor, the lowest on ties |
| `TakeProfit.LowestAlwaysWins` | src/rugbot/decision/lite_profiler.py:286-309 | the lowest observed multiple is reached by every launch, so something always qualifies |
| `TakeProfit.ExpectationIsMeanPayoff` | src/rugbot/decision/lite_profiler.py:289-298 | the expectation is the mean of what the launches pay, the threshold for each that reaches it and minus the stake for each other, less the fee |
| `TakeProfit.FloorIsSevenInTen` | src/rugbot/decision/lite_profiler.py:289-298 | the winrate floor is met if and only if at least seven launches in ten reach the threshold |
| `TakeProfit.NextObserved` | src/rugbot/decision/lite_profiler.py:286-309 | any threshold that meets the floor is matched by an observed multiple with the same winrate and no lower expectation |
| `TakeProfit.OptimalUnique` | src/rugbot/decision/lite_profiler.py:286-309 | there is only one optimum |
| `Ordering.SortPermutation` | src/rugbot/backtest/evaluation.py:773-785 | sorting by unique keys does not see the input order |
| `Ordering.SortAppend` | src/rugbot/decision/consolidation_protection.py:149-154 | rows that come after all others are sorted on their own, after them |
| `Ordering.LexMeans` | src/rugbot/decision/rugger_protection.py:379-396 | one list precedes another exactly when it is a proper prefix or has the lesser element where they first differ |
| `Ordering.StringLessMeans` | src/rugbot/decision/rugger_protection.py:379-396 | strings compare by character codes at the first place where they differ, a prefix first |
| `Ordering.SortStable` | src/rugbot/backtest/evaluation.py:773-785 | rows of equal rank keep their input order |
| `Domain.DedupKeepsOrder` | src/rugbot/backtest/evaluation.py:917-924 | identifiers keep the order of their first occurrences |

## Left out

- Abstention messages, and checks that a value has the expected Python type: types replace them; reasons and slots are kept.
- Checks of type shape merge with the range check that follows them where both give the same reason.
- ExitRuns.Advance: the runtime's capacity checks, slot ordering and peak tracking (src/rugbot/execution/position_runtime.py) are not modelled; rules and evidence may change freely from step to step, which covers them.
- Single counters: `advance_root_loss_counter` in playbook_rules.py is one comparison.
- Roles, wallet histories, freshness and reason codes of the rugger snapshot: field checks and one subtraction.
- HopSearch.MultiHops: proved for every hop limit, not only the 1 to 8 that the request check allows.
- Python's `sorted` is modelled as a stable insertion sort, and the order in which a dictionary yields its values is left arbitrary, since the sort that follows has unique keys.
- Dump attribution of candidate sells, profile aggregation and decimal parsing in the profiler, dataset building and joining: filters and lookups.
- TakeProfit.SelectOptimalTp: uses exact reals. Floating-point rounding can move a winrate across the 70% floor and can reorder equal or nearly equal expectations, so optimality over every real threshold and the tie rule hold in exact arithmetic only.
- LiquiditySelection.LoadedError: the single reason code is an enumeration, so a result with missing or extra reason codes cannot be expressed.
- The policy-backed entry gate, quote validation and policy allowlists of sizing.py: field comparisons.
- Databases, network clients, the collector, command lines and formatting: input and output.
