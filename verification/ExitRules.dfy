/** One evaluation of the exit rules: which trigger wins, and how much it sells. */
module ExitRules {
  import opened Domain
  import opened PlaybookRules

  datatype LevelKind = TakeProfit | StopLoss | BigBuy | TrailingStop

  datatype ExitReason =
    | NoActivityTimeout
    | LevelTriggered(kind: LevelKind, index: nat)
    | TrailingActiveNoTrigger
    | NoExitTrigger

  datatype ExitAction = Hold | Sell

  datatype ExitRuleState = ExitRuleState(
    filledTakeProfit: seq<int>,
    filledStopLoss: seq<int>,
    filledBigBuy: seq<int>,
    exitedFractionPpm: int)

  const FRESH: ExitRuleState := ExitRuleState([], [], [], 0)

  datatype CanonicalBuy = CanonicalBuy(
    asOfSlot: int,
    slot: int,
    transactionIndex: int,
    eventIndex: int,
    signature: Bytes,
    evidenceIds: seq<string>,
    wallet: string,
    tokenMint: string,
    baseAmount: int,
    quoteAssetKind: WalletAssetKind,
    quoteAssetId: string,
    quoteAmount: int)

  datatype ExitRuleInput = ExitRuleInput(
    asOfSlot: int,
    currentPnlPpm: int,
    peakPnlPpm: int,
    marketCap: Option<int>,
    idleMs: int,
    tokenMint: Option<string>,
    bigBuy: Option<CanonicalBuy>)

  datatype ExitRuleDecision = ExitRuleDecision(
    action: ExitAction,
    asOfSlot: int,
    sellAmount: int,
    sellFractionPpm: int,
    reason: ExitReason,
    nextState: ExitRuleState)

  // ---------- validation ----------

  predicate ValidBigBuyEvidence(buy: CanonicalBuy, asOfSlot: int, tokenMint: Option<string>) {
    && 0 <= buy.slot <= buy.asOfSlot <= asOfSlot
    && buy.transactionIndex >= 0 && buy.eventIndex >= 0
    && buy.signature != [] && DistinctNonEmptyIds(buy.evidenceIds)
    && buy.wallet != "" && buy.tokenMint != ""
    && tokenMint == Some(buy.tokenMint)
    && buy.quoteAssetKind in {Native, Quote}
    && buy.quoteAssetId != ""
    && buy.baseAmount > 0 && buy.quoteAmount > 0
  }

  function ValidateExitInputs(
    rules: PlaybookRules, evidence: ExitRuleInput, state: ExitRuleState, current: int, original: int)
    : (r: Option<AbstainReason>)
  {
    if evidence.asOfSlot < 0 || evidence.idleMs < 0 then Some(UnsupportedProtocolState)
    else if evidence.bigBuy.Some?
            && !ValidBigBuyEvidence(evidence.bigBuy.value, evidence.asOfSlot, evidence.tokenMint) then
      Some(MissingFeature)
    else if evidence.peakPnlPpm < evidence.currentPnlPpm then Some(StaleState)
    else if !(0 < current <= original) then Some(UnsupportedProtocolState)
    else if !ProbabilityPpm(state.exitedFractionPpm) then Some(UnsupportedProtocolState)
    else if !ValidRules(rules) then Some(UnsupportedProtocolState)
    else None
  }

  // ---------- triggers ----------

  function BigBuyTrigger(rules: PlaybookRules, evidence: ExitRuleInput, state: ExitRuleState): Option<nat> {
    if evidence.bigBuy.None? then None
    else
      var amount := evidence.bigBuy.value.quoteAmount;
      FirstUnfilled(rules.sell.bigBuyLevels, Elements(state.filledBigBuy),
                    (level: BigBuySellLevel) => level.minQuote <= amount <= level.maxQuote, 0)
  }

  function StopLossTrigger(rules: PlaybookRules, evidence: ExitRuleInput, state: ExitRuleState): Option<nat> {
    FirstUnfilled(rules.sell.stopLossLevels, Elements(state.filledStopLoss),
                  (level: SellLevel) => evidence.currentPnlPpm <= level.triggerPnlPpm, 0)
  }

  function TakeProfitTrigger(rules: PlaybookRules, evidence: ExitRuleInput, state: ExitRuleState): Option<nat> {
    FirstUnfilled(rules.sell.takeProfitLevels, Elements(state.filledTakeProfit),
                  (level: SellLevel) => evidence.currentPnlPpm >= level.triggerPnlPpm, 0)
  }

  predicate Eligible(level: TrailingStopLevel, marketCap: int) {
    level.minMarketCap.None? || level.minMarketCap.value <= marketCap
  }

  /** The last eligible level below index `n`. */
  function LastEligible(levels: seq<TrailingStopLevel>, marketCap: int, n: nat): (r: Option<nat>)
    requires n <= |levels|
    ensures r.Some? ==>
              && r.value < n && Eligible(levels[r.value], marketCap)
              && forall k :: r.value < k < n ==> !Eligible(levels[k], marketCap)
    ensures r.None? ==> forall k :: 0 <= k < n ==> !Eligible(levels[k], marketCap)
  {
    if n == 0 then None
    else if Eligible(levels[n - 1], marketCap) then Some(n - 1)
    else LastEligible(levels, marketCap, n - 1)
  }

  /** The first level without a market-cap floor. */
  function DefaultTier(levels: seq<TrailingStopLevel>): Option<nat> {
    FirstUnfilled(levels, {}, (level: TrailingStopLevel) => level.minMarketCap.None?, 0)
  }

  datatype Tier = NoTier | Unmeasurable(reason: AbstainReason) | ActiveTier(index: nat)

  function SelectTier(levels: seq<TrailingStopLevel>, marketCap: Option<int>): (r: Tier)
    ensures r.ActiveTier? ==> r.index < |levels|
  {
    if levels == [] then NoTier
    else if marketCap.None? then
      var tier := DefaultTier(levels);
      if tier.None? then Unmeasurable(MissingFeature) else ActiveTier(tier.value)
    else if marketCap.value < 0 then Unmeasurable(UnsupportedProtocolState)
    else
      var tier := LastEligible(levels, marketCap.value, |levels|);
      if tier.None? then NoTier else ActiveTier(tier.value)
  }

  // ---------- the sell amount ----------

  function SellAmount(current: int, original: int, deltaPpm: int): int {
    Min(current, Max(1, original * deltaPpm / PPM))
  }

  function FillLevel(state: ExitRuleState, kind: LevelKind, index: nat, target: int): ExitRuleState {
    match kind
    case TakeProfit => state.(filledTakeProfit := state.filledTakeProfit + [index], exitedFractionPpm := target)
    case StopLoss => state.(filledStopLoss := state.filledStopLoss + [index], exitedFractionPpm := target)
    case BigBuy => state.(filledBigBuy := state.filledBigBuy + [index], exitedFractionPpm := target)
    case TrailingStop => state.(exitedFractionPpm := target)
  }

  function PartialExit(
    evidence: ExitRuleInput, state: ExitRuleState, kind: LevelKind, index: nat, fraction: int,
    current: int, original: int): ExitRuleDecision
  {
    var target := Max(state.exitedFractionPpm, fraction);
    var amount := SellAmount(current, original, target - state.exitedFractionPpm);
    ExitRuleDecision(Sell, evidence.asOfSlot, amount, target, LevelTriggered(kind, index),
                     FillLevel(state, kind, index, target))
  }

  function HoldDecision(evidence: ExitRuleInput, state: ExitRuleState, reason: ExitReason): ExitRuleDecision {
    ExitRuleDecision(Hold, evidence.asOfSlot, 0, state.exitedFractionPpm, reason, state)
  }

  predicate TimedOut(rules: PlaybookRules, evidence: ExitRuleInput) {
    rules.sell.noActivityTimeoutMs.Some? && evidence.idleMs >= rules.sell.noActivityTimeoutMs.value
  }

  // ---------- the evaluator ----------

  function EvaluateExitRules(
    rules: PlaybookRules, evidence: ExitRuleInput, state: ExitRuleState, current: int, original: int)
    : Outcome<ExitRuleDecision>
  {
    var error := ValidateExitInputs(rules, evidence, state, current, original);
    if error.Some? then Abstained(AbstainResult(error.value, evidence.asOfSlot))
    else if TimedOut(rules, evidence) then
      Produced(ExitRuleDecision(Sell, evidence.asOfSlot, current, PPM, NoActivityTimeout,
                                state.(exitedFractionPpm := PPM)))
    else
      var bigBuy := BigBuyTrigger(rules, evidence, state);
      if bigBuy.Some? then
        Produced(PartialExit(evidence, state, BigBuy, bigBuy.value,
                             rules.sell.bigBuyLevels[bigBuy.value].sellFractionPpm, current, original))
      else
        var stopLoss := StopLossTrigger(rules, evidence, state);
        if stopLoss.Some? then
          Produced(PartialExit(evidence, state, StopLoss, stopLoss.value,
                               rules.sell.stopLossLevels[stopLoss.value].sellFractionPpm, current, original))
        else EvaluateTrailingAndProfit(rules, evidence, state, current, original)
  }

  function EvaluateTrailingAndProfit(
    rules: PlaybookRules, evidence: ExitRuleInput, state: ExitRuleState, current: int, original: int)
    : Outcome<ExitRuleDecision>
  {
    var tier := SelectTier(rules.sell.trailingLevels, evidence.marketCap);
    if tier.Unmeasurable? then Abstained(AbstainResult(tier.reason, evidence.asOfSlot))
    else if tier.ActiveTier?
            && evidence.peakPnlPpm - evidence.currentPnlPpm
               >= rules.sell.trailingLevels[tier.index].drawdownPpm then
      Produced(PartialExit(evidence, state, TrailingStop, tier.index, PPM, current, original))
    else if rules.sell.trailingLevels != [] then
      Produced(HoldDecision(evidence, state, TrailingActiveNoTrigger))
    else
      var takeProfit := TakeProfitTrigger(rules, evidence, state);
      if takeProfit.Some? then
        Produced(PartialExit(evidence, state, TakeProfit, takeProfit.value,
                             rules.sell.takeProfitLevels[takeProfit.value].sellFractionPpm, current, original))
      else Produced(HoldDecision(evidence, state, NoExitTrigger))
  }

  // ---------- which tier is active ----------

  /** Tier `i` has the greatest floor among those not above the market cap; an
      absent floor is below every other. */
  ghost predicate GreatestFloor(levels: seq<TrailingStopLevel>, marketCap: int, i: nat) {
    && i < |levels|
    && Eligible(levels[i], marketCap)
    && forall j :: 0 <= j < |levels| && j != i && Eligible(levels[j], marketCap) ==>
         && levels[i].minMarketCap.Some?
         && (levels[j].minMarketCap.Some? ==> levels[j].minMarketCap.value < levels[i].minMarketCap.value)
  }

  lemma TrailingTierIsGreatestFloor(levels: seq<TrailingStopLevel>, marketCap: int, i: nat)
    requires ValidTrailingLevels(levels) && marketCap >= 0
    ensures SelectTier(levels, Some(marketCap)) == ActiveTier(i) <==> GreatestFloor(levels, marketCap, i)
    ensures SelectTier(levels, Some(marketCap)) == NoTier <==>
              forall j :: 0 <= j < |levels| ==> !Eligible(levels[j], marketCap)
  {
    forall a: nat, b: nat | a < b < |levels|
      ensures levels[b].minMarketCap.Some?
      ensures levels[a].minMarketCap.Some? ==> levels[a].minMarketCap.value < levels[b].minMarketCap.value
    {
      TrailingFloorsIncrease(levels, a, b);
    }
  }

  lemma UnmeasuredMarketCap(levels: seq<TrailingStopLevel>)
    requires ValidTrailingLevels(levels) && levels != []
    ensures SelectTier(levels, None)
            == if levels[0].minMarketCap.None? then ActiveTier(0) else Unmeasurable(MissingFeature)
  {
    var tier := DefaultTier(levels);
    if tier.Some? {
      assert levels[tier.value].minMarketCap.None?;
    }
  }

  // ---------- which rule wins ----------

  predicate Fires(rules: PlaybookRules, evidence: ExitRuleInput, state: ExitRuleState, kind: LevelKind, i: nat) {
    match kind
    case BigBuy =>
      && i < |rules.sell.bigBuyLevels| && i !in state.filledBigBuy && evidence.bigBuy.Some?
      && rules.sell.bigBuyLevels[i].minQuote <= evidence.bigBuy.value.quoteAmount
         <= rules.sell.bigBuyLevels[i].maxQuote
    case StopLoss =>
      && i < |rules.sell.stopLossLevels| && i !in state.filledStopLoss
      && evidence.currentPnlPpm <= rules.sell.stopLossLevels[i].triggerPnlPpm
    case TrailingStop =>
      && SelectTier(rules.sell.trailingLevels, evidence.marketCap) == ActiveTier(i)
      && i < |rules.sell.trailingLevels|
      && evidence.peakPnlPpm - evidence.currentPnlPpm >= rules.sell.trailingLevels[i].drawdownPpm
    case TakeProfit =>
      && rules.sell.trailingLevels == []
      && i < |rules.sell.takeProfitLevels| && i !in state.filledTakeProfit
      && evidence.currentPnlPpm >= rules.sell.takeProfitLevels[i].triggerPnlPpm
  }

  ghost predicate NoneFires(rules: PlaybookRules, evidence: ExitRuleInput, state: ExitRuleState, kind: LevelKind) {
    forall i: nat :: !Fires(rules, evidence, state, kind, i)
  }

  ghost predicate FiresFirst(
    rules: PlaybookRules, evidence: ExitRuleInput, state: ExitRuleState, kind: LevelKind, i: nat)
  {
    Fires(rules, evidence, state, kind, i) && forall k: nat :: k < i ==> !Fires(rules, evidence, state, kind, k)
  }

  /** Rank of a level kind: a sell of some kind means that nothing ranked before it fired. */
  function Rank(kind: LevelKind): nat {
    match kind case BigBuy => 0 case StopLoss => 1 case TrailingStop => 2 case TakeProfit => 3
  }

  /** The market has been idle for at least the configured timeout. */
  ghost predicate IdleTooLong(rules: PlaybookRules, evidence: ExitRuleInput) {
    exists limit :: rules.sell.noActivityTimeoutMs == Some(limit) && limit <= evidence.idleMs
  }

  lemma TimedOutIff(rules: PlaybookRules, evidence: ExitRuleInput)
    ensures TimedOut(rules, evidence) <==> IdleTooLong(rules, evidence)
  {
    if TimedOut(rules, evidence) {
      assert rules.sell.noActivityTimeoutMs == Some(rules.sell.noActivityTimeoutMs.value);
    }
  }

  ghost predicate Wins(
    rules: PlaybookRules, evidence: ExitRuleInput, state: ExitRuleState, kind: LevelKind, i: nat)
  {
    && !IdleTooLong(rules, evidence)
    && FiresFirst(rules, evidence, state, kind, i)
    && forall other :: Rank(other) < Rank(kind) ==> NoneFires(rules, evidence, state, other)
  }

  lemma BigBuyChoice(rules: PlaybookRules, evidence: ExitRuleInput, state: ExitRuleState)
    ensures var t := BigBuyTrigger(rules, evidence, state);
            && (t.Some? ==> FiresFirst(rules, evidence, state, BigBuy, t.value))
            && (t.None? <==> NoneFires(rules, evidence, state, BigBuy))
  {
  }

  lemma StopLossChoice(rules: PlaybookRules, evidence: ExitRuleInput, state: ExitRuleState)
    ensures var t := StopLossTrigger(rules, evidence, state);
            && (t.Some? ==> FiresFirst(rules, evidence, state, StopLoss, t.value))
            && (t.None? <==> NoneFires(rules, evidence, state, StopLoss))
  {
  }

  lemma TakeProfitChoice(rules: PlaybookRules, evidence: ExitRuleInput, state: ExitRuleState)
    requires rules.sell.trailingLevels == []
    ensures var t := TakeProfitTrigger(rules, evidence, state);
            && (t.Some? ==> FiresFirst(rules, evidence, state, TakeProfit, t.value))
            && (t.None? <==> NoneFires(rules, evidence, state, TakeProfit))
  {
  }

  /** What each reason, for a sell or a hold, says about the rules that fire. */
  ghost predicate Explains(
    rules: PlaybookRules, evidence: ExitRuleInput, state: ExitRuleState, reason: ExitReason)
  {
    match reason
    case NoActivityTimeout => IdleTooLong(rules, evidence)
    case LevelTriggered(kind, i) => Wins(rules, evidence, state, kind, i)
    case TrailingActiveNoTrigger =>
      && !IdleTooLong(rules, evidence) && rules.sell.trailingLevels != []
      && forall kind :: NoneFires(rules, evidence, state, kind)
    case NoExitTrigger =>
      && !IdleTooLong(rules, evidence) && rules.sell.trailingLevels == []
      && forall kind :: NoneFires(rules, evidence, state, kind)
  }

  lemma TrailingAndProfitExplained(
    rules: PlaybookRules, evidence: ExitRuleInput, state: ExitRuleState, current: int, original: int)
    requires EvaluateTrailingAndProfit(rules, evidence, state, current, original).Produced?
    requires !IdleTooLong(rules, evidence)
    requires NoneFires(rules, evidence, state, BigBuy) && NoneFires(rules, evidence, state, StopLoss)
    ensures Explains(rules, evidence, state,
                     EvaluateTrailingAndProfit(rules, evidence, state, current, original).value.reason)
  {
    var reason := EvaluateTrailingAndProfit(rules, evidence, state, current, original).value.reason;
    if rules.sell.trailingLevels == [] {
      assert NoneFires(rules, evidence, state, TrailingStop);
      TakeProfitChoice(rules, evidence, state);
    } else {
      assert NoneFires(rules, evidence, state, TakeProfit);
    }
    forall kind | reason.LevelTriggered? ==> Rank(kind) < Rank(reason.kind)
      ensures NoneFires(rules, evidence, state, kind)
    {
      match kind case BigBuy => case StopLoss => case TrailingStop => case TakeProfit =>
    }
  }

  /** Whatever is decided is explained by the rules that fire, ranked timeout, big
      buy, stop loss, trailing stop, take profit; a hold changes nothing. */
  lemma DecisionExplained(
    rules: PlaybookRules, evidence: ExitRuleInput, state: ExitRuleState, current: int, original: int)
    requires EvaluateExitRules(rules, evidence, state, current, original).Produced?
    ensures var d := EvaluateExitRules(rules, evidence, state, current, original).value;
            && Explains(rules, evidence, state, d.reason)
            && (d.action == Sell <==> d.reason.NoActivityTimeout? || d.reason.LevelTriggered?)
            && (d.action == Hold ==> d.sellAmount == 0 && d.nextState == state)
  {
    TimedOutIff(rules, evidence);
    BigBuyChoice(rules, evidence, state);
    StopLossChoice(rules, evidence, state);
    if !TimedOut(rules, evidence)
       && NoneFires(rules, evidence, state, BigBuy) && NoneFires(rules, evidence, state, StopLoss) {
      TrailingAndProfitExplained(rules, evidence, state, current, original);
    } else {
      forall kind | Rank(kind) < 1 ensures kind == BigBuy {
        match kind case BigBuy => case StopLoss => case TrailingStop => case TakeProfit =>
      }
    }
  }

  /** The trailing levels cannot be judged: a negative market cap, or none where every
      level has a floor. */
  ghost predicate TrailingUnmeasurable(rules: PlaybookRules, evidence: ExitRuleInput, reason: AbstainReason) {
    && rules.sell.trailingLevels != []
    && match evidence.marketCap
       case Some(cap) => cap < 0 && reason == UnsupportedProtocolState
       case None => rules.sell.trailingLevels[0].minMarketCap.Some? && reason == MissingFeature
  }

  /** On accepted inputs the evaluation abstains exactly when no earlier rule fires and the
      trailing levels cannot be judged. */
  lemma RefusalExplained(
    rules: PlaybookRules, evidence: ExitRuleInput, state: ExitRuleState, current: int, original: int,
    reason: AbstainReason)
    requires ValidateExitInputs(rules, evidence, state, current, original).None?
    ensures EvaluateExitRules(rules, evidence, state, current, original)
            == Abstained(AbstainResult(reason, evidence.asOfSlot))
            <==> && !IdleTooLong(rules, evidence)
                 && NoneFires(rules, evidence, state, BigBuy) && NoneFires(rules, evidence, state, StopLoss)
                 && TrailingUnmeasurable(rules, evidence, reason)
  {
    TimedOutIff(rules, evidence);
    BigBuyChoice(rules, evidence, state);
    StopLossChoice(rules, evidence, state);
    if rules.sell.trailingLevels != [] {
      assert ValidSellRules(rules.sell) && ValidTrailingLevels(rules.sell.trailingLevels);
      UnmeasuredMarketCap(rules.sell.trailingLevels);
    }
  }

  /** At most one reason can explain a decision, so the explanation decides. */
  lemma ExplanationUnique(
    rules: PlaybookRules, evidence: ExitRuleInput, state: ExitRuleState, a: ExitReason, b: ExitReason)
    requires Explains(rules, evidence, state, a) && Explains(rules, evidence, state, b)
    ensures a == b
  {
    assert a.LevelTriggered? && !b.NoActivityTimeout? && (b.LevelTriggered? ==> Rank(a.kind) < Rank(b.kind)) ==>
        NoneFires(rules, evidence, state, a.kind);
    assert b.LevelTriggered? && !a.NoActivityTimeout? && (a.LevelTriggered? ==> Rank(b.kind) < Rank(a.kind)) ==>
        NoneFires(rules, evidence, state, b.kind);
  }
}
