/** What an entry decision says and spends: its reason, its action, its size, and the
    state a buy leaves behind. */
module EntryFigures {
  import opened Domain
  import opened PlaybookRules
  import opened EntryRules

  // ---------- the filters, one by one ----------

  /** A dip entry is measured at its current market cap when that is known. */
  lemma MarketCapMeasured(evidence: EntryRuleInput)
    ensures evidence.isBuyTheDip && evidence.currentMarketCap.Some? ==>
              EffectiveMarketCap(evidence) == evidence.currentMarketCap
    ensures !evidence.isBuyTheDip || evidence.currentMarketCap.None? ==>
              EffectiveMarketCap(evidence) == evidence.marketCap
  {
  }

  ghost predicate TooEarly(rules: PlaybookRules, evidence: EntryRuleInput) {
    evidence.nowMs - evidence.eventTimeMs < rules.snipeDelayMs
  }

  ghost predicate AgeBlocks(rules: PlaybookRules, evidence: EntryRuleInput) {
    evidence.isCopytrade && rules.maxTokenAgeMs.Some?
    && !(evidence.tokenCreatedMs.Some?
         && 0 <= evidence.tokenCreatedMs.value <= evidence.nowMs
         && evidence.nowMs - evidence.tokenCreatedMs.value <= rules.maxTokenAgeMs.value)
  }

  ghost predicate CooldownBlocks(rules: PlaybookRules, evidence: EntryRuleInput, state: EntryRuleState) {
    evidence.isCopytrade && rules.copytradeCooldownMs > 0 && state.lastCopytradeMs.Some?
    && !(state.lastCopytradeMs.value >= 0
         && evidence.nowMs - state.lastCopytradeMs.value >= rules.copytradeCooldownMs)
  }

  ghost predicate OnceBlocks(rules: PlaybookRules, evidence: EntryRuleInput, state: EntryRuleState) {
    evidence.isCopytrade && rules.buyOnlyOnce && evidence.tokenMint in state.boughtMints
  }

  /** The market cap that the bounds are compared with. */
  ghost function MeasuredCap(evidence: EntryRuleInput): Option<int> {
    if evidence.isBuyTheDip && evidence.currentMarketCap != None then evidence.currentMarketCap
    else evidence.marketCap
  }

  ghost predicate CapBlocks(rules: PlaybookRules, evidence: EntryRuleInput) {
    var cap := MeasuredCap(evidence);
    (rules.minMarketCap.Some? || rules.maxMarketCap.Some?)
    && !(cap.Some? && cap.value >= 0
         && (rules.minMarketCap.Some? ==> cap.value >= rules.minMarketCap.value)
         && (rules.maxMarketCap.Some? ==> cap.value <= rules.maxMarketCap.value))
  }

  ghost predicate LossesBlock(rules: PlaybookRules, state: EntryRuleState) {
    rules.maxConsecutiveLosses.Some? && state.rootConsecutiveLosses >= rules.maxConsecutiveLosses.value
  }

  /** Nothing before filter number `stage` stops the opportunity. */
  ghost predicate ReachesStage(rules: PlaybookRules, evidence: EntryRuleInput, state: EntryRuleState, stage: int) {
    && (stage > 0 ==> !TooEarly(rules, evidence))
    && (stage > 1 ==> !AgeBlocks(rules, evidence))
    && (stage > 2 ==> !CooldownBlocks(rules, evidence, state))
    && (stage > 3 ==> !OnceBlocks(rules, evidence, state))
    && (stage > 4 ==> !CapBlocks(rules, evidence))
    && (stage > 5 ==> !LossesBlock(rules, state))
  }

  // ---------- reasons ----------

  function ActionOf(reason: EntryReason): EntryAction {
    match reason
    case SnipeDelayActive => Wait
    case DipLevelNotReached => Wait
    case DipLevelReached(_) => Buy
    case EntryRulesPassed => Buy
    case _ => Abstain
  }

  /** What a reason says of the filter that gave it, every earlier one having passed. */
  ghost predicate ReasonMeans(
    rules: PlaybookRules, evidence: EntryRuleInput, state: EntryRuleState, reason: EntryReason)
  {
    var cap := MeasuredCap(evidence);
    match reason
    case SnipeDelayActive => TooEarly(rules, evidence)
    case MaxTokenAgeExceeded =>
      && ReachesStage(rules, evidence, state, 1) && AgeBlocks(rules, evidence)
      && evidence.tokenCreatedMs.Some? && 0 <= evidence.tokenCreatedMs.value <= evidence.nowMs
    case CopytradeCooldownActive =>
      && ReachesStage(rules, evidence, state, 2) && CooldownBlocks(rules, evidence, state)
      && 0 <= state.lastCopytradeMs.value <= evidence.nowMs
    case AlreadyBought => ReachesStage(rules, evidence, state, 3) && OnceBlocks(rules, evidence, state)
    case MarketCapBelowMinimum =>
      && ReachesStage(rules, evidence, state, 4) && CapBlocks(rules, evidence)
      && cap.Some? && cap.value >= 0 && rules.minMarketCap.Some? && cap.value < rules.minMarketCap.value
    case MarketCapAboveMaximum =>
      && ReachesStage(rules, evidence, state, 4) && CapBlocks(rules, evidence)
      && cap.Some? && cap.value >= 0 && rules.maxMarketCap.Some? && cap.value > rules.maxMarketCap.value
    case MaxConsecutiveLossesReached => ReachesStage(rules, evidence, state, 5) && LossesBlock(rules, state)
    case DipNotConfigured =>
      ReachesStage(rules, evidence, state, 6) && evidence.isBuyTheDip && rules.dipLevels == []
    case DipLevelReached(i) =>
      ReachesStage(rules, evidence, state, 6) && evidence.isBuyTheDip && DipJustified(rules, evidence, state, i)
    case DipLevelNotReached =>
      && ReachesStage(rules, evidence, state, 6) && evidence.isBuyTheDip && rules.dipLevels != []
      && forall i: nat :: !DipJustified(rules, evidence, state, i)
    case EntryRulesPassed => ReachesStage(rules, evidence, state, 6) && !evidence.isBuyTheDip
  }

  lemma DipReasonMeans(rules: PlaybookRules, evidence: EntryRuleInput, state: EntryRuleState)
    requires ValidRules(rules) && evidence.isBuyTheDip && ReachesStage(rules, evidence, state, 6)
    requires EvaluateDipLevels(rules, evidence, state).Produced?
    ensures var d := EvaluateDipLevels(rules, evidence, state).value;
            ReasonMeans(rules, evidence, state, d.reason) && d.action == ActionOf(d.reason)
  {
    var d := EvaluateDipLevels(rules, evidence, state).value;
    forall i: nat
      ensures d.action == Buy && d.dipLevelIndex == Some(i) <==> DipJustified(rules, evidence, state, i)
    {
      DipBuyIff(rules, evidence, state, i);
    }
  }

  lemma StagesPass(rules: PlaybookRules, evidence: EntryRuleInput, state: EntryRuleState)
    requires ValidRules(rules)
    ensures CopytradeGate(rules, evidence, state).Pass? <==>
              !AgeBlocks(rules, evidence) && !CooldownBlocks(rules, evidence, state)
              && !OnceBlocks(rules, evidence, state)
    ensures MarketCapGate(rules, evidence, state).Pass? <==> !CapBlocks(rules, evidence)
    ensures LossLimitReached(rules, state) <==> LossesBlock(rules, state)
  {
  }

  lemma CopytradeStopMeans(rules: PlaybookRules, evidence: EntryRuleInput, state: EntryRuleState)
    requires ValidRules(rules) && !TooEarly(rules, evidence)
    requires var gate := CopytradeGate(rules, evidence, state); gate.Stop? && gate.outcome.Produced?
    ensures var d := CopytradeGate(rules, evidence, state).outcome.value;
            ReasonMeans(rules, evidence, state, d.reason) && d.action == ActionOf(d.reason)
  {
  }

  lemma MarketCapStopMeans(rules: PlaybookRules, evidence: EntryRuleInput, state: EntryRuleState)
    requires ValidRules(rules) && ReachesStage(rules, evidence, state, 4)
    requires var gate := MarketCapGate(rules, evidence, state); gate.Stop? && gate.outcome.Produced?
    ensures var d := MarketCapGate(rules, evidence, state).outcome.value;
            ReasonMeans(rules, evidence, state, d.reason) && d.action == ActionOf(d.reason)
  {
  }

  /** Every decision gives the reason of the first filter that stops the opportunity, or
      of the buy, and acts as that reason calls for. */
  lemma DecisionReason(rules: PlaybookRules, evidence: EntryRuleInput, state: EntryRuleState, baseSize: int)
    requires EvaluateEntryRules(rules, evidence, state, baseSize).Produced?
    ensures var d := EvaluateEntryRules(rules, evidence, state, baseSize).value;
            && ReasonMeans(rules, evidence, state, d.reason) && d.action == ActionOf(d.reason)
            && d.asOfSlot == evidence.asOfSlot && d.tokenMint == evidence.tokenMint
  {
    assert ValidRules(rules);
    StagesPass(rules, evidence, state);
    if !TooEarly(rules, evidence) {
      if CopytradeGate(rules, evidence, state).Stop? {
        CopytradeStopMeans(rules, evidence, state);
      } else if MarketCapGate(rules, evidence, state).Stop? {
        MarketCapStopMeans(rules, evidence, state);
      } else if !LossesBlock(rules, state) && evidence.isBuyTheDip {
        DipReasonMeans(rules, evidence, state);
      }
    }
  }

  // ---------- refusals ----------

  ghost predicate RefusedFor(
    rules: PlaybookRules, evidence: EntryRuleInput, state: EntryRuleState, reason: AbstainReason)
  {
    var created, last, cap := evidence.tokenCreatedMs, state.lastCopytradeMs, MeasuredCap(evidence);
    || (ReachesStage(rules, evidence, state, 1) && AgeBlocks(rules, evidence)
        && reason == (if created == None then MissingFeature
                      else if created.value < 0 then UnsupportedProtocolState else StaleState)
        && (created.Some? ==> created.value < 0 || created.value > evidence.nowMs))
    || (ReachesStage(rules, evidence, state, 2) && CooldownBlocks(rules, evidence, state)
        && reason == (if last.value < 0 then UnsupportedProtocolState else StaleState)
        && (last.value < 0 || last.value > evidence.nowMs))
    || (ReachesStage(rules, evidence, state, 4) && CapBlocks(rules, evidence)
        && reason == (if cap == None then MissingFeature else UnsupportedProtocolState)
        && (cap.Some? ==> cap.value < 0))
    || (ReachesStage(rules, evidence, state, 6) && evidence.isBuyTheDip && rules.dipLevels != []
        && DipUnmeasured(evidence, reason))
  }

  ghost predicate DipUnmeasured(evidence: EntryRuleInput, reason: AbstainReason) {
    if evidence.athMarketCap == None || evidence.currentMarketCap == None then reason == MissingFeature
    else reason == UnsupportedProtocolState
         && (evidence.athMarketCap.value <= 0 || evidence.currentMarketCap.value < 0)
  }

  /** An abstention on well-formed inputs is one filter that cannot be measured, every
      earlier one having passed. */
  lemma RefusalReason(rules: PlaybookRules, evidence: EntryRuleInput, state: EntryRuleState, baseSize: int)
    requires ValidateEntryInputs(rules, evidence, state, baseSize).None?
    ensures var outcome := EvaluateEntryRules(rules, evidence, state, baseSize);
            outcome.Abstained? ==>
              outcome.abstain.asOfSlot == evidence.asOfSlot
              && RefusedFor(rules, evidence, state, outcome.abstain.reason)
  {
    StagesPass(rules, evidence, state);
  }

  // ---------- what a buy spends and leaves ----------

  /** A dip buy spends the size of the level it names; any other buy spends the base size. */
  lemma BuySize(rules: PlaybookRules, evidence: EntryRuleInput, state: EntryRuleState, baseSize: int)
    requires EvaluateEntryRules(rules, evidence, state, baseSize).Produced?
    ensures var d := EvaluateEntryRules(rules, evidence, state, baseSize).value;
            if d.action != Buy then d.quoteSizeLamports == None && d.dipLevelIndex == None
            else if evidence.isBuyTheDip then
              && d.dipLevelIndex.Some? && d.dipLevelIndex.value < |rules.dipLevels|
              && d.quoteSizeLamports == Some(rules.dipLevels[d.dipLevelIndex.value].quoteSizeLamports)
              && d.reason == DipLevelReached(d.dipLevelIndex.value)
            else d.dipLevelIndex == None && d.quoteSizeLamports == Some(baseSize)
  {
  }

  /** A buy lists its token once, remembers a copytrade's time, and keeps the losses; one
      that is not a dip buy keeps every dip fill. */
  lemma BuyLeaves(evidence: EntryRuleInput, state: EntryRuleState, dipLevel: Option<nat>, filled: seq<int>)
    ensures var next := StateAfterBuy(evidence, state, dipLevel, filled);
            && state.boughtMints <= next.boughtMints
            && (forall m :: m in next.boughtMints <==> m in state.boughtMints || m == evidence.tokenMint)
            && (Distinct(state.boughtMints) ==> Distinct(next.boughtMints))
            && next.lastCopytradeMs == (if evidence.isCopytrade then Some(evidence.nowMs) else state.lastCopytradeMs)
            && next.rootConsecutiveLosses == state.rootConsecutiveLosses
            && (dipLevel == None ==> next.dipFills == state.dipFills)
  {
  }
}
