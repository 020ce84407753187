/** One evaluation of the entry filters, and the entry state a buy leaves behind. */
module EntryRules {
  import opened Domain
  import opened Ordering
  import opened PlaybookRules

  datatype EntryAction = Buy | Wait | Abstain

  datatype EntryReason =
    | SnipeDelayActive
    | MaxTokenAgeExceeded
    | CopytradeCooldownActive
    | AlreadyBought
    | MarketCapBelowMinimum
    | MarketCapAboveMaximum
    | MaxConsecutiveLossesReached
    | DipNotConfigured
    | DipLevelReached(index: nat)
    | DipLevelNotReached
    | EntryRulesPassed

  datatype DipFill = DipFill(mint: string, indices: seq<int>)

  datatype EntryRuleState = EntryRuleState(
    boughtMints: seq<string>,
    lastCopytradeMs: Option<int>,
    rootConsecutiveLosses: int,
    dipFills: seq<DipFill>)

  datatype EntryRuleInput = EntryRuleInput(
    asOfSlot: int,
    tokenMint: string,
    nowMs: int,
    eventTimeMs: int,
    isCopytrade: bool,
    tokenCreatedMs: Option<int>,
    marketCap: Option<int>,
    isBuyTheDip: bool,
    athMarketCap: Option<int>,
    currentMarketCap: Option<int>,
    dipFilledIndices: seq<int>)

  datatype EntryRuleDecision = EntryRuleDecision(
    action: EntryAction,
    asOfSlot: int,
    tokenMint: string,
    quoteSizeLamports: Option<int>,
    dipLevelIndex: Option<nat>,
    reason: EntryReason,
    nextState: EntryRuleState)

  /** A filter either lets the opportunity through or ends the evaluation. */
  datatype Gate = Pass | Stop(outcome: Outcome<EntryRuleDecision>)

  // ---------- filters ----------

  function ValidateEntryInputs(
    rules: PlaybookRules, evidence: EntryRuleInput, state: EntryRuleState, baseSize: int): Option<AbstainReason>
  {
    if evidence.asOfSlot < 0 || evidence.tokenMint == "" then Some(UnsupportedProtocolState)
    else if evidence.nowMs < 0 || evidence.eventTimeMs < 0 then Some(UnsupportedProtocolState)
    else if evidence.nowMs < evidence.eventTimeMs then Some(StaleState)
    else if baseSize <= 0 || state.rootConsecutiveLosses < 0 then Some(UnsupportedProtocolState)
    else if !ValidRules(rules) then Some(UnsupportedProtocolState)
    else None
  }

  function Refuse(evidence: EntryRuleInput, reason: AbstainReason): Outcome<EntryRuleDecision> {
    Abstained(AbstainResult(reason, evidence.asOfSlot))
  }

  function NoBuy(
    action: EntryAction, evidence: EntryRuleInput, state: EntryRuleState, reason: EntryReason)
    : Outcome<EntryRuleDecision>
  {
    Produced(EntryRuleDecision(action, evidence.asOfSlot, evidence.tokenMint, None, None, reason, state))
  }

  function AgeGate(rules: PlaybookRules, evidence: EntryRuleInput, state: EntryRuleState): Gate {
    if rules.maxTokenAgeMs.None? then Pass
    else if evidence.tokenCreatedMs.None? then Stop(Refuse(evidence, MissingFeature))
    else if evidence.tokenCreatedMs.value < 0 then Stop(Refuse(evidence, UnsupportedProtocolState))
    else
      var age := evidence.nowMs - evidence.tokenCreatedMs.value;
      if age < 0 then Stop(Refuse(evidence, StaleState))
      else if age > rules.maxTokenAgeMs.value then Stop(NoBuy(Abstain, evidence, state, MaxTokenAgeExceeded))
      else Pass
  }

  function CooldownGate(rules: PlaybookRules, evidence: EntryRuleInput, state: EntryRuleState): Gate {
    if rules.copytradeCooldownMs <= 0 || state.lastCopytradeMs.None? then Pass
    else
      var last := state.lastCopytradeMs.value;
      if last < 0 then Stop(Refuse(evidence, UnsupportedProtocolState))
      else if evidence.nowMs < last then Stop(Refuse(evidence, StaleState))
      else if evidence.nowMs - last < rules.copytradeCooldownMs then
        Stop(NoBuy(Abstain, evidence, state, CopytradeCooldownActive))
      else Pass
  }

  function CopytradeGate(rules: PlaybookRules, evidence: EntryRuleInput, state: EntryRuleState): Gate {
    if !evidence.isCopytrade then Pass
    else
      var age := AgeGate(rules, evidence, state);
      if age.Stop? then age
      else
        var cooldown := CooldownGate(rules, evidence, state);
        if cooldown.Stop? then cooldown
        else if rules.buyOnlyOnce && evidence.tokenMint in state.boughtMints then
          Stop(NoBuy(Abstain, evidence, state, AlreadyBought))
        else Pass
  }

  function EffectiveMarketCap(evidence: EntryRuleInput): Option<int> {
    if evidence.isBuyTheDip && evidence.currentMarketCap.Some? then evidence.currentMarketCap
    else evidence.marketCap
  }

  function MarketCapGate(rules: PlaybookRules, evidence: EntryRuleInput, state: EntryRuleState): Gate {
    if rules.minMarketCap.None? && rules.maxMarketCap.None? then Pass
    else
      var cap := EffectiveMarketCap(evidence);
      if cap.None? then Stop(Refuse(evidence, MissingFeature))
      else if cap.value < 0 then Stop(Refuse(evidence, UnsupportedProtocolState))
      else if rules.minMarketCap.Some? && cap.value < rules.minMarketCap.value then
        Stop(NoBuy(Abstain, evidence, state, MarketCapBelowMinimum))
      else if rules.maxMarketCap.Some? && cap.value > rules.maxMarketCap.value then
        Stop(NoBuy(Abstain, evidence, state, MarketCapAboveMaximum))
      else Pass
  }

  // ---------- dip levels ----------

  predicate IntLe(a: int, b: int) {
    a <= b
  }

  /** The distinct indices of a list in increasing order. */
  function SortIndices(indices: seq<int>): seq<int> {
    SortBy(IntLe, Dedup(indices))
  }

  lemma SortIndicesMembers(indices: seq<int>)
    ensures forall k :: k in SortIndices(indices) <==> k in indices
    ensures forall i, j :: 0 <= i < j < |SortIndices(indices)| ==>
              SortIndices(indices)[i] < SortIndices(indices)[j]
  {
    var distinct := Dedup(indices);
    var sorted := SortBy(IntLe, distinct);
    SameMembers(IntLe, distinct);
    SortOrdered(IntLe, distinct);
    SortMultiset(IntLe, distinct);
    DistinctMultiset(distinct, sorted);
  }

  /** The first association entry of a token. */
  function FilledLevels(fills: seq<DipFill>, mint: string): seq<int> {
    if fills == [] then []
    else if fills[0].mint == mint then fills[0].indices
    else FilledLevels(fills[1..], mint)
  }

  function WithoutMint(fills: seq<DipFill>, mint: string): seq<DipFill> {
    Filter((fill: DipFill) => fill.mint != mint, fills)
  }

  function DrawdownPpm(ath: int, current: int): int
    requires ath > 0
  {
    Max(0, (ath - current) * PPM / ath)
  }

  function StateAfterBuy(
    evidence: EntryRuleInput, state: EntryRuleState, dipLevel: Option<nat>, alreadyFilled: seq<int>)
    : EntryRuleState
  {
    var mint := evidence.tokenMint;
    var bought := if mint in state.boughtMints then state.boughtMints else state.boughtMints + [mint];
    var last := if evidence.isCopytrade then Some(evidence.nowMs) else state.lastCopytradeMs;
    var fills :=
      if dipLevel.None? then state.dipFills
      else
        var levels := FilledLevels(state.dipFills, mint) + alreadyFilled + [dipLevel.value];
        WithoutMint(state.dipFills, mint) + [DipFill(mint, SortIndices(levels))];
    state.(boughtMints := bought, lastCopytradeMs := last, dipFills := fills)
  }

  function AlreadyFilled(evidence: EntryRuleInput, state: EntryRuleState): seq<int> {
    evidence.dipFilledIndices + FilledLevels(state.dipFills, evidence.tokenMint)
  }

  function EvaluateDipLevels(
    rules: PlaybookRules, evidence: EntryRuleInput, state: EntryRuleState): Outcome<EntryRuleDecision>
  {
    if rules.dipLevels == [] then NoBuy(Abstain, evidence, state, DipNotConfigured)
    else if evidence.athMarketCap.None? || evidence.currentMarketCap.None? then Refuse(evidence, MissingFeature)
    else if evidence.athMarketCap.value <= 0 || evidence.currentMarketCap.value < 0 then
      Refuse(evidence, UnsupportedProtocolState)
    else
      var drawdown := DrawdownPpm(evidence.athMarketCap.value, evidence.currentMarketCap.value);
      var filled := AlreadyFilled(evidence, state);
      var hit := FirstUnfilled(rules.dipLevels, Elements(filled),
                               (level: BuyTheDipLevel) => drawdown >= level.drawdownPpm, 0);
      if hit.None? then NoBuy(Wait, evidence, state, DipLevelNotReached)
      else
        Produced(EntryRuleDecision(Buy, evidence.asOfSlot, evidence.tokenMint,
                                   Some(rules.dipLevels[hit.value].quoteSizeLamports), hit,
                                   DipLevelReached(hit.value),
                                   StateAfterBuy(evidence, state, hit, filled)))
  }

  // ---------- the evaluator ----------

  predicate LossLimitReached(rules: PlaybookRules, state: EntryRuleState) {
    && rules.maxConsecutiveLosses.Some?
    && state.rootConsecutiveLosses >= rules.maxConsecutiveLosses.value > 0
  }

  function EvaluateEntryRules(
    rules: PlaybookRules, evidence: EntryRuleInput, state: EntryRuleState, baseSize: int)
    : Outcome<EntryRuleDecision>
  {
    var error := ValidateEntryInputs(rules, evidence, state, baseSize);
    if error.Some? then Refuse(evidence, error.value)
    else if evidence.nowMs < evidence.eventTimeMs + rules.snipeDelayMs then
      NoBuy(Wait, evidence, state, SnipeDelayActive)
    else
      var copytrade := CopytradeGate(rules, evidence, state);
      if copytrade.Stop? then copytrade.outcome
      else
        var marketCap := MarketCapGate(rules, evidence, state);
        if marketCap.Stop? then marketCap.outcome
        else if LossLimitReached(rules, state) then
          NoBuy(Abstain, evidence, state, MaxConsecutiveLossesReached)
        else if evidence.isBuyTheDip then EvaluateDipLevels(rules, evidence, state)
        else
          Produced(EntryRuleDecision(Buy, evidence.asOfSlot, evidence.tokenMint, Some(baseSize), None,
                                     EntryRulesPassed, StateAfterBuy(evidence, state, None, [])))
  }

  /** Every configured filter lets the opportunity through. */
  ghost predicate FiltersPass(rules: PlaybookRules, evidence: EntryRuleInput, state: EntryRuleState) {
    var cap := EffectiveMarketCap(evidence);
    && evidence.nowMs >= evidence.eventTimeMs + rules.snipeDelayMs
    && (evidence.isCopytrade && rules.maxTokenAgeMs.Some? ==>
          && evidence.tokenCreatedMs.Some?
          && 0 <= evidence.tokenCreatedMs.value <= evidence.nowMs
          && evidence.nowMs <= evidence.tokenCreatedMs.value + rules.maxTokenAgeMs.value)
    && (evidence.isCopytrade && rules.copytradeCooldownMs > 0 && state.lastCopytradeMs.Some? ==>
          && state.lastCopytradeMs.value >= 0
          && evidence.nowMs >= state.lastCopytradeMs.value + rules.copytradeCooldownMs)
    && (evidence.isCopytrade && rules.buyOnlyOnce ==> evidence.tokenMint !in state.boughtMints)
    && (rules.minMarketCap.Some? || rules.maxMarketCap.Some? ==> cap.Some? && cap.value >= 0)
    && (rules.minMarketCap.Some? ==> rules.minMarketCap.value <= cap.value)
    && (rules.maxMarketCap.Some? ==> cap.value <= rules.maxMarketCap.value)
    && (rules.maxConsecutiveLosses.Some? ==> state.rootConsecutiveLosses < rules.maxConsecutiveLosses.value)
  }

  /** The level bought is unfilled and reached, every shallower level is filled: the
      drawdown `(ath - current) / ath` covers the level's threshold. */
  ghost predicate DipJustified(
    rules: PlaybookRules, evidence: EntryRuleInput, state: EntryRuleState, index: nat)
  {
    && index < |rules.dipLevels|
    && index !in AlreadyFilled(evidence, state)
    && (forall k :: 0 <= k < index ==> k in AlreadyFilled(evidence, state))
    && evidence.athMarketCap.Some? && evidence.currentMarketCap.Some?
    && evidence.athMarketCap.value > 0 && evidence.currentMarketCap.value >= 0
    && rules.dipLevels[index].drawdownPpm * evidence.athMarketCap.value
       <= (evidence.athMarketCap.value - evidence.currentMarketCap.value) * PPM
  }

  lemma DipReached(ath: int, current: int, threshold: int)
    requires ath > 0 && threshold > 0
    ensures DrawdownPpm(ath, current) >= threshold <==> threshold * ath <= (ath - current) * PPM
  {
    FloorGalois(threshold, (ath - current) * PPM, ath);
  }

  lemma DipBuyIff(rules: PlaybookRules, evidence: EntryRuleInput, state: EntryRuleState, i: nat)
    requires ValidRules(rules)
    ensures var outcome := EvaluateDipLevels(rules, evidence, state);
            outcome.Produced? && outcome.value.action == Buy && outcome.value.dipLevelIndex == Some(i)
            <==> DipJustified(rules, evidence, state, i)
  {
    forall k: nat | k < |rules.dipLevels| && k != i && i < |rules.dipLevels|
      ensures rules.dipLevels[k].drawdownPpm < rules.dipLevels[i].drawdownPpm <==> k < i
    {
      if k < i { DipLevelsIncrease(rules.dipLevels, k, i); } else { DipLevelsIncrease(rules.dipLevels, i, k); }
    }
    if evidence.athMarketCap.Some? && evidence.currentMarketCap.Some? && evidence.athMarketCap.value > 0 {
      if i < |rules.dipLevels| {
        DipReached(evidence.athMarketCap.value, evidence.currentMarketCap.value, rules.dipLevels[i].drawdownPpm);
      }
    }
  }

  /** The gates, the snipe delay and the loss limit together are the filters. */
  lemma GatesAreFilters(rules: PlaybookRules, evidence: EntryRuleInput, state: EntryRuleState)
    requires ValidRules(rules)
    ensures FiltersPass(rules, evidence, state)
            <==> && evidence.nowMs >= evidence.eventTimeMs + rules.snipeDelayMs
                 && CopytradeGate(rules, evidence, state).Pass?
                 && MarketCapGate(rules, evidence, state).Pass?
                 && !LossLimitReached(rules, state)
  {
  }

  lemma SomeDipBuyIff(rules: PlaybookRules, evidence: EntryRuleInput, state: EntryRuleState)
    requires ValidRules(rules)
    ensures var outcome := EvaluateDipLevels(rules, evidence, state);
            outcome.Produced? && outcome.value.action == Buy
            <==> exists i: nat :: DipJustified(rules, evidence, state, i)
  {
    var dip := EvaluateDipLevels(rules, evidence, state);
    if dip.Produced? && dip.value.action == Buy {
      DipBuyIff(rules, evidence, state, dip.value.dipLevelIndex.value);
    }
    if i: nat :| DipJustified(rules, evidence, state, i) {
      DipBuyIff(rules, evidence, state, i);
    }
  }

  /** A buy happens exactly when the inputs are well formed, every filter passes and,
      for a dip entry, some level is justified. */
  lemma BuyIff(rules: PlaybookRules, evidence: EntryRuleInput, state: EntryRuleState, baseSize: int)
    ensures var outcome := EvaluateEntryRules(rules, evidence, state, baseSize);
            outcome.Produced? && outcome.value.action == Buy
            <==> && ValidateEntryInputs(rules, evidence, state, baseSize).None?
                 && FiltersPass(rules, evidence, state)
                 && (evidence.isBuyTheDip ==> exists i: nat :: DipJustified(rules, evidence, state, i))
  {
    if ValidateEntryInputs(rules, evidence, state, baseSize).None? {
      GatesAreFilters(rules, evidence, state);
      SomeDipBuyIff(rules, evidence, state);
    }
  }

  /** What a decision carries: the state moves only on a buy, and then only by that buy. */
  lemma DecisionState(rules: PlaybookRules, evidence: EntryRuleInput, state: EntryRuleState, baseSize: int)
    ensures var outcome := EvaluateEntryRules(rules, evidence, state, baseSize);
            outcome.Produced? ==>
              var d := outcome.value;
              && (d.action != Buy ==> d.nextState == state && d.quoteSizeLamports == None)
              && (d.action == Buy ==>
                    && d.dipLevelIndex.Some? == evidence.isBuyTheDip
                    && d.nextState
                       == StateAfterBuy(evidence, state, d.dipLevelIndex,
                                        if evidence.isBuyTheDip then AlreadyFilled(evidence, state) else [])
                    && (d.dipLevelIndex.Some? ==> d.dipLevelIndex.value !in AlreadyFilled(evidence, state)))
  {
  }
}
