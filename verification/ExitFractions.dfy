/** Which fraction a sale leaves behind: each level sells its own configured
    fraction, and a run ends at the greatest fraction of what fired. */
module ExitFractions {
  import opened Domain
  import opened PlaybookRules
  import opened ExitRules
  import opened ExitRuns

  /** The fraction that the rules attach to a reason for selling; a trailing stop and a
      timeout sell everything. */
  ghost function ConfiguredFraction(rules: PlaybookRules, reason: ExitReason): Option<int> {
    match reason
    case NoActivityTimeout => Some(PPM)
    case LevelTriggered(kind, i) =>
      (match kind
       case TrailingStop => Some(PPM)
       case TakeProfit =>
         if i < |rules.sell.takeProfitLevels| then Some(rules.sell.takeProfitLevels[i].sellFractionPpm) else None
       case StopLoss =>
         if i < |rules.sell.stopLossLevels| then Some(rules.sell.stopLossLevels[i].sellFractionPpm) else None
       case BigBuy =>
         if i < |rules.sell.bigBuyLevels| then Some(rules.sell.bigBuyLevels[i].sellFractionPpm) else None)
    case TrailingActiveNoTrigger => None
    case NoExitTrigger => None
  }

  /** The sale leaves the greater of the fraction before it and the one its reason sells. */
  ghost predicate SellsItsFraction(rules: PlaybookRules, s: Sale) {
    var configured := ConfiguredFraction(rules, s.reason);
    && configured.Some?
    && configured.value <= s.fractionAfter && s.fractionBefore <= s.fractionAfter
    && (s.fractionAfter == configured.value || s.fractionAfter == s.fractionBefore)
  }

  /** A decision to sell reports the fraction it leaves, which is its reason's own fraction
      unless more was already sold. */
  lemma DecisionFraction(
    rules: PlaybookRules, evidence: ExitRuleInput, state: ExitRuleState, current: int, original: int)
    requires EvaluateExitRules(rules, evidence, state, current, original).Produced?
    ensures var d := EvaluateExitRules(rules, evidence, state, current, original).value;
            && d.asOfSlot == evidence.asOfSlot
            && d.sellFractionPpm == d.nextState.exitedFractionPpm
            && (d.action == Sell ==>
                  SellsItsFraction(rules, Sale(d.reason, d.sellAmount, current, state.exitedFractionPpm,
                                               d.nextState.exitedFractionPpm)))
  {
    assert ValidRules(rules) && ValidSellRules(rules.sell);
  }

  /** A big-buy sale answers a buy of the position's own token, observed no later than the
      decision, whose quote amount lies in the range of the level that fires. */
  lemma BigBuyIsCurrent(
    rules: PlaybookRules, evidence: ExitRuleInput, state: ExitRuleState, current: int, original: int, i: nat)
    requires EvaluateExitRules(rules, evidence, state, current, original).Produced?
    requires EvaluateExitRules(rules, evidence, state, current, original).value.reason == LevelTriggered(BigBuy, i)
    ensures evidence.bigBuy.Some? && i < |rules.sell.bigBuyLevels| && i !in state.filledBigBuy
    ensures var buy, level := evidence.bigBuy.value, rules.sell.bigBuyLevels[i];
            && evidence.tokenMint == Some(buy.tokenMint)
            && 0 <= buy.slot <= buy.asOfSlot <= evidence.asOfSlot
            && buy.quoteAssetKind != Token && buy.baseAmount > 0
            && 0 < buy.quoteAmount && level.minQuote <= buy.quoteAmount <= level.maxQuote
  {
    DecisionExplained(rules, evidence, state, current, original);
    assert Fires(rules, evidence, state, BigBuy, i);
  }

  /** Every sale of a run sells the fraction of its own level, in the rules of its step. */
  lemma SaleFraction(original: int, run: ExitRun, step: ExitStep)
    ensures var next := Advance(original, run, step);
            next != run && next.sales != run.sales ==>
              && next.sales != [] && next.sales[..|next.sales| - 1] == run.sales
              && SellsItsFraction(step.rules, next.sales[|next.sales| - 1])
  {
    if EvaluateExitRules(step.rules, step.evidence, run.state, run.position, original).Produced? {
      DecisionFraction(step.rules, step.evidence, run.state, run.position, original);
    }
  }

  /** `fraction` is the greatest fraction among those the sales were configured to sell,
      and 0 without a sale. */
  ghost predicate GreatestFired(rules: PlaybookRules, sales: seq<Sale>, fraction: int) {
    && (sales == [] ==> fraction == 0)
    && (forall k :: 0 <= k < |sales| ==>
          ConfiguredFraction(rules, sales[k].reason).Some?
          && ConfiguredFraction(rules, sales[k].reason).value <= fraction)
    && (sales != [] ==>
          exists k :: 0 <= k < |sales| && ConfiguredFraction(rules, sales[k].reason) == Some(fraction))
  }

  lemma GreatestStep(rules: PlaybookRules, sales: seq<Sale>, fraction: int, s: Sale)
    requires GreatestFired(rules, sales, fraction) && SellsItsFraction(rules, s) && s.fractionBefore == fraction
    requires sales == [] ==> s.fractionAfter == ConfiguredFraction(rules, s.reason).value
    ensures GreatestFired(rules, sales + [s], s.fractionAfter)
  {
    var all := sales + [s];
    if s.fractionAfter == ConfiguredFraction(rules, s.reason).value {
      assert all[|sales|] == s;
    } else {
      var k :| 0 <= k < |sales| && ConfiguredFraction(rules, sales[k].reason) == Some(fraction);
      assert all[k] == sales[k];
    }
  }

  /** The first sale of a run starts from nothing, so it leaves its own fraction. */
  lemma FirstSale(rules: PlaybookRules, s: Sale)
    requires ValidRules(rules) && SellsItsFraction(rules, s) && s.fractionBefore == 0
    ensures s.fractionAfter == ConfiguredFraction(rules, s.reason).value
  {
    assert ValidSellRules(rules.sell);
  }

  /** Over any run with fixed rules, the exited fraction is the greatest fraction
      configured for what fired, and 0 with no sale. */
  lemma {:induction false} FractionIsGreatestFired(original: int, rules: PlaybookRules, steps: seq<ExitStep>)
    requires original > 0 && forall k :: 0 <= k < |steps| ==> steps[k].rules == rules
    ensures var run := Run(original, steps); GreatestFired(rules, run.sales, run.state.exitedFractionPpm)
  {
    if steps != [] {
      var run, step, next := Run(original, steps[..|steps| - 1]), steps[|steps| - 1], Run(original, steps);
      FractionIsGreatestFired(original, rules, steps[..|steps| - 1]);
      AdvanceExtends(original, run, step);
      AdvanceFills(original, run, step);
      SaleFraction(original, run, step);
      if next != run {
        var s := next.sales[|next.sales| - 1];
        if run.sales == [] {
          FirstSale(rules, s);
        }
        GreatestStep(rules, run.sales, run.state.exitedFractionPpm, s);
      }
    }
  }
}
