/** Rule configuration of one rugger's playbook, its validation, and the
    first-match scan that every one-shot level list uses. */
module PlaybookRules {
  import opened Domain

  const MAX_DIP_LEVELS := 3
  const MAX_SELL_LEVELS := 5
  const MAX_BIG_BUY_LEVELS := 3

  datatype BuyTheDipLevel = BuyTheDipLevel(drawdownPpm: int, quoteSizeLamports: int)

  datatype SellLevel = SellLevel(triggerPnlPpm: int, sellFractionPpm: int)

  datatype BigBuySellLevel = BigBuySellLevel(minQuote: int, maxQuote: int, sellFractionPpm: int)

  datatype TrailingStopLevel = TrailingStopLevel(minMarketCap: Option<int>, drawdownPpm: int)

  datatype SellRules = SellRules(
    takeProfitLevels: seq<SellLevel>,
    stopLossLevels: seq<SellLevel>,
    trailingLevels: seq<TrailingStopLevel>,
    noActivityTimeoutMs: Option<int>,
    bigBuyLevels: seq<BigBuySellLevel>)

  datatype PlaybookRules = PlaybookRules(
    snipeDelayMs: int,
    minMarketCap: Option<int>,
    maxMarketCap: Option<int>,
    maxTokenAgeMs: Option<int>,
    copytradeCooldownMs: int,
    buyOnlyOnce: bool,
    dipLevels: seq<BuyTheDipLevel>,
    sell: SellRules,
    maxConsecutiveLosses: Option<int>)

  predicate NonNegativeIfSet(value: Option<int>) {
    value.Some? ==> value.value >= 0
  }

  predicate ValidDipLevels(levels: seq<BuyTheDipLevel>) {
    && (forall i :: 0 <= i < |levels| ==>
          0 < levels[i].drawdownPpm <= PPM && levels[i].quoteSizeLamports > 0)
    && (forall i :: 0 <= i < |levels| - 1 ==> levels[i].drawdownPpm < levels[i + 1].drawdownPpm)
  }

  predicate ValidSellLevels(levels: seq<SellLevel>, positive: bool) {
    && (forall i :: 0 <= i < |levels| ==>
          && (if positive then levels[i].triggerPnlPpm > 0 else levels[i].triggerPnlPpm < 0)
          && 0 < levels[i].sellFractionPpm <= PPM)
    && (forall i :: 0 <= i < |levels| - 1 ==> levels[i].triggerPnlPpm < levels[i + 1].triggerPnlPpm)
  }

  predicate ValidTrailingLevels(levels: seq<TrailingStopLevel>) {
    && (forall i :: 0 <= i < |levels| ==>
          NonNegativeIfSet(levels[i].minMarketCap) && 0 < levels[i].drawdownPpm <= PPM)
    && (forall i :: 0 <= i < |levels| - 1 ==>
          || levels[i].minMarketCap.None?
          || levels[i + 1].minMarketCap.None?
          || levels[i].minMarketCap.value < levels[i + 1].minMarketCap.value)
    && (forall i :: 0 <= i < |levels| && levels[i].minMarketCap.None? ==> i == 0)
  }

  predicate ValidBigBuyLevels(levels: seq<BigBuySellLevel>) {
    && (forall i :: 0 <= i < |levels| ==>
          && 0 <= levels[i].minQuote < levels[i].maxQuote
          && 0 < levels[i].sellFractionPpm <= PPM)
    && (forall i :: 0 <= i < |levels| - 1 ==> levels[i].maxQuote < levels[i + 1].minQuote)
  }

  predicate ValidSellRules(sell: SellRules) {
    && |sell.takeProfitLevels| <= MAX_SELL_LEVELS
    && |sell.stopLossLevels| <= MAX_SELL_LEVELS
    && |sell.trailingLevels| <= MAX_SELL_LEVELS
    && ValidSellLevels(sell.takeProfitLevels, true)
    && ValidSellLevels(sell.stopLossLevels, false)
    && ValidTrailingLevels(sell.trailingLevels)
    && |sell.bigBuyLevels| <= MAX_BIG_BUY_LEVELS
    && ValidBigBuyLevels(sell.bigBuyLevels)
    && (sell.noActivityTimeoutMs.Some? ==> sell.noActivityTimeoutMs.value > 0)
  }

  /** Every rejection of a rule set carries the same reason, so validity is a predicate. */
  predicate ValidRules(rules: PlaybookRules) {
    && rules.snipeDelayMs >= 0
    && rules.copytradeCooldownMs >= 0
    && NonNegativeIfSet(rules.maxTokenAgeMs)
    && NonNegativeIfSet(rules.minMarketCap)
    && NonNegativeIfSet(rules.maxMarketCap)
    && (rules.minMarketCap.Some? && rules.maxMarketCap.Some? ==>
          rules.minMarketCap.value <= rules.maxMarketCap.value)
    && (rules.maxConsecutiveLosses.Some? ==> rules.maxConsecutiveLosses.value > 0)
    && |rules.dipLevels| <= MAX_DIP_LEVELS
    && ValidDipLevels(rules.dipLevels)
    && ValidSellRules(rules.sell)
  }

  /** The least index at or after `start` whose level has not been filled and is hit. */
  function FirstUnfilled<T>(levels: seq<T>, filled: set<int>, hit: T -> bool, start: nat): (r: Option<nat>)
    requires start <= |levels|
    ensures r.Some? ==>
              && start <= r.value < |levels| && r.value !in filled && hit(levels[r.value])
              && forall k :: start <= k < r.value ==> k in filled || !hit(levels[k])
    ensures r.None? ==> forall k :: start <= k < |levels| ==> k in filled || !hit(levels[k])
    decreases |levels| - start
  {
    if start == |levels| then None
    else if start !in filled && hit(levels[start]) then Some(start)
    else FirstUnfilled(levels, filled, hit, start + 1)
  }

  function Elements(indices: seq<int>): (r: set<int>)
    ensures forall k :: k in r <==> k in indices
  {
    set k | k in indices
  }

  // ---------- pairwise checks imply strictly increasing lists ----------

  lemma {:induction false} SellLevelsIncrease(levels: seq<SellLevel>, positive: bool, i: nat, j: nat)
    requires ValidSellLevels(levels, positive) && i < j < |levels|
    ensures levels[i].triggerPnlPpm < levels[j].triggerPnlPpm
  {
    if i + 1 < j {
      SellLevelsIncrease(levels, positive, i, j - 1);
      assert levels[j - 1].triggerPnlPpm < levels[j - 1 + 1].triggerPnlPpm;
    }
  }

  lemma {:induction false} DipLevelsIncrease(levels: seq<BuyTheDipLevel>, i: nat, j: nat)
    requires ValidDipLevels(levels) && i < j < |levels|
    ensures levels[i].drawdownPpm < levels[j].drawdownPpm
  {
    if i + 1 < j {
      DipLevelsIncrease(levels, i, j - 1);
      assert levels[j - 1].drawdownPpm < levels[j - 1 + 1].drawdownPpm;
    }
  }

  /** An absent floor can only stand first; the floors after it strictly increase. */
  lemma {:induction false} TrailingFloorsIncrease(levels: seq<TrailingStopLevel>, i: nat, j: nat)
    requires ValidTrailingLevels(levels) && i < j < |levels|
    ensures levels[j].minMarketCap.Some?
    ensures levels[i].minMarketCap.Some? ==> levels[i].minMarketCap.value < levels[j].minMarketCap.value
  {
    if i + 1 < j {
      TrailingFloorsIncrease(levels, i, j - 1);
      assert levels[j - 1 + 1].minMarketCap.Some?;
    }
  }

  lemma {:induction false} BigBuyRangesDisjoint(levels: seq<BigBuySellLevel>, i: nat, j: nat)
    requires ValidBigBuyLevels(levels) && i < j < |levels|
    ensures levels[i].maxQuote < levels[j].minQuote
  {
    if i + 1 < j {
      BigBuyRangesDisjoint(levels, i, j - 1);
      assert levels[j - 1].maxQuote < levels[j - 1 + 1].minQuote;
    }
  }
}
