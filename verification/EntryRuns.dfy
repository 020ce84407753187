/** Runs of the entry rules: what no sequence of opportunities can make happen. */
module EntryRuns {
  import opened Domain
  import opened PlaybookRules
  import opened EntryRules

  datatype EntryStep = EntryStep(rules: PlaybookRules, evidence: EntryRuleInput, baseSize: int)

  datatype Purchase = Purchase(mint: string, nowMs: int, copytrade: bool, dipLevel: Option<nat>)

  datatype EntryRun = EntryRun(state: EntryRuleState, buys: seq<Purchase>)

  function Advance(run: EntryRun, step: EntryStep): EntryRun {
    var outcome := EvaluateEntryRules(step.rules, step.evidence, run.state, step.baseSize);
    if outcome.Abstained? then run
    else if outcome.value.action == Buy then
      var buy := Purchase(step.evidence.tokenMint, step.evidence.nowMs, step.evidence.isCopytrade,
                          outcome.value.dipLevelIndex);
      EntryRun(outcome.value.nextState, run.buys + [buy])
    else run.(state := outcome.value.nextState)
  }

  function Run(start: EntryRuleState, steps: seq<EntryStep>): EntryRun
    decreases |steps|
  {
    if steps == [] then EntryRun(start, [])
    else Advance(Run(start, steps[..|steps| - 1]), steps[|steps| - 1])
  }

  /** `next` is `run`, or `run` with one more purchase that passed the copytrade gate. */
  ghost predicate Extends(run: EntryRun, step: EntryStep, next: EntryRun) {
    next != run ==>
      && next.buys != [] && next.buys == run.buys + [next.buys[|next.buys| - 1]]
      && var buy := next.buys[|next.buys| - 1];
         && buy.mint == step.evidence.tokenMint
         && buy.nowMs == step.evidence.nowMs
         && buy.copytrade == step.evidence.isCopytrade
         && (buy.copytrade && step.rules.copytradeCooldownMs > 0 && run.state.lastCopytradeMs.Some? ==>
               buy.nowMs >= run.state.lastCopytradeMs.value + step.rules.copytradeCooldownMs)
         && (buy.copytrade && step.rules.buyOnlyOnce ==> buy.mint !in run.state.boughtMints)
         && (buy.dipLevel.Some? ==> buy.dipLevel.value !in FilledLevels(run.state.dipFills, buy.mint))
         && exists filled ::
              next.state == StateAfterBuy(step.evidence, run.state, buy.dipLevel, filled)
  }

  lemma AdvanceExtends(run: EntryRun, step: EntryStep)
    ensures Extends(run, step, Advance(run, step))
  {
    DecisionState(step.rules, step.evidence, run.state, step.baseSize);
    BuyIff(step.rules, step.evidence, run.state, step.baseSize);
  }

  // ---------- cooldown ----------

  function CopytradeTimes(buys: seq<Purchase>): seq<int> {
    if buys == [] then []
    else
      var earlier := CopytradeTimes(buys[..|buys| - 1]);
      var last := buys[|buys| - 1];
      if last.copytrade then earlier + [last.nowMs] else earlier
  }

  ghost predicate SpacedBy(times: seq<int>, cooldown: int) {
    forall k :: 0 <= k < |times| - 1 ==> times[k + 1] >= times[k] + cooldown
  }

  /** The state remembers the latest copytrade buy. */
  ghost predicate RemembersLast(start: EntryRuleState, run: EntryRun) {
    var times := CopytradeTimes(run.buys);
    run.state.lastCopytradeMs == if times == [] then start.lastCopytradeMs else Some(times[|times| - 1])
  }

  lemma CooldownStep(start: EntryRuleState, run: EntryRun, step: EntryStep, next: EntryRun, cooldown: int)
    requires 0 < cooldown <= step.rules.copytradeCooldownMs
    requires Extends(run, step, next) && RemembersLast(start, run)
    requires SpacedBy(CopytradeTimes(run.buys), cooldown)
    requires start.lastCopytradeMs.Some? && CopytradeTimes(run.buys) != [] ==>
               CopytradeTimes(run.buys)[0] >= start.lastCopytradeMs.value + cooldown
    ensures RemembersLast(start, next) && SpacedBy(CopytradeTimes(next.buys), cooldown)
    ensures start.lastCopytradeMs.Some? && CopytradeTimes(next.buys) != [] ==>
              CopytradeTimes(next.buys)[0] >= start.lastCopytradeMs.value + cooldown
  {
    if next != run {
      assert next.buys[..|next.buys| - 1] == run.buys;
    }
  }

  lemma {:induction false} CopytradesSpaced(start: EntryRuleState, steps: seq<EntryStep>, cooldown: int)
    requires cooldown > 0
    requires forall k :: 0 <= k < |steps| ==> steps[k].rules.copytradeCooldownMs >= cooldown
    ensures var times := CopytradeTimes(Run(start, steps).buys);
            && RemembersLast(start, Run(start, steps)) && SpacedBy(times, cooldown)
            && (start.lastCopytradeMs.Some? && times != [] ==>
                  times[0] >= start.lastCopytradeMs.value + cooldown)
  {
    if steps != [] {
      var run, step := Run(start, steps[..|steps| - 1]), steps[|steps| - 1];
      CopytradesSpaced(start, steps[..|steps| - 1], cooldown);
      AdvanceExtends(run, step);
      CooldownStep(start, run, step, Run(start, steps), cooldown);
    }
  }

  /** The copytrade buy numbered k, from zero, comes at least k cooldowns after the first. */
  lemma CooldownOverRun(start: EntryRuleState, steps: seq<EntryStep>, cooldown: int, k: nat)
    requires cooldown > 0
    requires forall i :: 0 <= i < |steps| ==> steps[i].rules.copytradeCooldownMs >= cooldown
    requires k < |CopytradeTimes(Run(start, steps).buys)|
    ensures var times := CopytradeTimes(Run(start, steps).buys);
            times[k] >= times[0] + k * cooldown
  {
    CopytradesSpaced(start, steps, cooldown);
    SpacingAccumulates(CopytradeTimes(Run(start, steps).buys), cooldown, k);
  }

  lemma {:induction false} SpacingAccumulates(times: seq<int>, cooldown: int, k: nat)
    requires SpacedBy(times, cooldown) && k < |times|
    ensures times[k] >= times[0] + k * cooldown
  {
    if k > 0 {
      SpacingAccumulates(times, cooldown, k - 1);
      assert times[k - 1 + 1] >= times[k - 1] + cooldown;
    }
  }

  // ---------- buy only once ----------

  function CopytradeMints(buys: seq<Purchase>): seq<string> {
    if buys == [] then []
    else
      var earlier := CopytradeMints(buys[..|buys| - 1]);
      var last := buys[|buys| - 1];
      if last.copytrade then earlier + [last.mint] else earlier
  }

  /** Whatever was bought before or during the run is on the state's list. */
  ghost predicate RemembersMints(start: EntryRuleState, run: EntryRun) {
    && (forall m :: m in start.boughtMints ==> m in run.state.boughtMints)
    && (forall k :: 0 <= k < |run.buys| ==> run.buys[k].mint in run.state.boughtMints)
    && (forall m :: m in CopytradeMints(run.buys) ==> m in run.state.boughtMints)
  }

  lemma MintsStep(start: EntryRuleState, run: EntryRun, step: EntryStep, next: EntryRun)
    requires Extends(run, step, next) && RemembersMints(start, run)
    ensures RemembersMints(start, next)
    ensures step.rules.buyOnlyOnce && Distinct(CopytradeMints(run.buys)) ==> Distinct(CopytradeMints(next.buys))
    ensures step.rules.buyOnlyOnce && (forall m :: m in CopytradeMints(run.buys) ==> m !in start.boughtMints) ==>
              forall m :: m in CopytradeMints(next.buys) ==> m !in start.boughtMints
  {
    if next != run {
      assert next.buys[..|next.buys| - 1] == run.buys;
    }
  }

  /** With buy-only-once in force, no token gets two copytrade buys, nor one after
      any earlier buy. */
  lemma {:induction false} BuyOnlyOnceOverRun(start: EntryRuleState, steps: seq<EntryStep>)
    requires forall k :: 0 <= k < |steps| ==> steps[k].rules.buyOnlyOnce
    ensures var mints := CopytradeMints(Run(start, steps).buys);
            && RemembersMints(start, Run(start, steps))
            && Distinct(mints) && forall m :: m in mints ==> m !in start.boughtMints
  {
    if steps != [] {
      var run, step := Run(start, steps[..|steps| - 1]), steps[|steps| - 1];
      BuyOnlyOnceOverRun(start, steps[..|steps| - 1]);
      AdvanceExtends(run, step);
      MintsStep(start, run, step, Run(start, steps));
    }
  }

  // ---------- dip levels ----------

  lemma {:induction false} FilterLookup(fills: seq<DipFill>, mint: string, other: string)
    ensures other != mint ==> FilledLevels(WithoutMint(fills, mint), other) == FilledLevels(fills, other)
    ensures FilledLevels(WithoutMint(fills, mint), mint) == []
    ensures forall k :: 0 <= k < |WithoutMint(fills, mint)| ==> WithoutMint(fills, mint)[k].mint != mint
  {
    if fills != [] {
      FilterLookup(fills[1..], mint, other);
    }
  }

  lemma {:induction false} AppendLookup(fills: seq<DipFill>, fill: DipFill, other: string)
    requires forall k :: 0 <= k < |fills| ==> fills[k].mint != fill.mint
    ensures FilledLevels(fills + [fill], other)
            == if other == fill.mint then fill.indices else FilledLevels(fills, other)
  {
    if fills != [] {
      assert (fills + [fill])[0] == fills[0] && (fills + [fill])[1..] == fills[1..] + [fill];
      AppendLookup(fills[1..], fill, other);
    }
  }

  /** A dip buy adds its level and keeps the token's earlier ones; every other token's
      levels are untouched. */
  lemma DipFillEffect(evidence: EntryRuleInput, state: EntryRuleState, level: nat, filled: seq<int>, other: string)
    ensures var next := StateAfterBuy(evidence, state, Some(level), filled);
            && (other != evidence.tokenMint ==>
                  FilledLevels(next.dipFills, other) == FilledLevels(state.dipFills, other))
            && (forall k :: k in FilledLevels(next.dipFills, evidence.tokenMint) <==>
                  k == level || k in filled || k in FilledLevels(state.dipFills, evidence.tokenMint))
  {
    var mint := evidence.tokenMint;
    var levels := FilledLevels(state.dipFills, mint) + filled + [level];
    var fill := DipFill(mint, SortIndices(levels));
    SortIndicesMembers(levels);
    FilterLookup(state.dipFills, mint, other);
    AppendLookup(WithoutMint(state.dipFills, mint), fill, other);
    AppendLookup(WithoutMint(state.dipFills, mint), fill, mint);
  }

  function DipPurchases(buys: seq<Purchase>): seq<(string, int)> {
    if buys == [] then []
    else
      var earlier := DipPurchases(buys[..|buys| - 1]);
      var last := buys[|buys| - 1];
      if last.dipLevel.Some? then earlier + [(last.mint, last.dipLevel.value)] else earlier
  }

  /** Every dip purchase of the run is recorded as filled, and nothing is forgotten. */
  ghost predicate RemembersDips(start: EntryRuleState, run: EntryRun) {
    && (forall m, k :: (m, k) in DipPurchases(run.buys) ==> k in FilledLevels(run.state.dipFills, m))
    && (forall m, k :: k in FilledLevels(start.dipFills, m) ==> k in FilledLevels(run.state.dipFills, m))
  }

  /** A step can only add to the filled levels, and only for its own token. */
  lemma DipLevelsGrow(run: EntryRun, step: EntryStep, next: EntryRun)
    requires Extends(run, step, next)
    ensures forall m, k :: k in FilledLevels(run.state.dipFills, m) ==> k in FilledLevels(next.state.dipFills, m)
    ensures forall m :: m != step.evidence.tokenMint ==>
              FilledLevels(next.state.dipFills, m) == FilledLevels(run.state.dipFills, m)
    ensures next != run && next.buys[|next.buys| - 1].dipLevel.Some? ==>
              next.buys[|next.buys| - 1].dipLevel.value in FilledLevels(next.state.dipFills, step.evidence.tokenMint)
  {
    if next != run {
      var buy := next.buys[|next.buys| - 1];
      var filled :| next.state == StateAfterBuy(step.evidence, run.state, buy.dipLevel, filled);
      if buy.dipLevel.Some? {
        forall m
          ensures m != step.evidence.tokenMint ==>
                    FilledLevels(next.state.dipFills, m) == FilledLevels(run.state.dipFills, m)
          ensures forall k :: k in FilledLevels(next.state.dipFills, step.evidence.tokenMint) <==>
                    k == buy.dipLevel.value || k in filled
                    || k in FilledLevels(run.state.dipFills, step.evidence.tokenMint)
        {
          DipFillEffect(step.evidence, run.state, buy.dipLevel.value, filled, m);
        }
      }
    }
  }

  lemma DipStep(start: EntryRuleState, run: EntryRun, step: EntryStep, next: EntryRun)
    requires Extends(run, step, next) && RemembersDips(start, run) && Distinct(DipPurchases(run.buys))
    ensures RemembersDips(start, next) && Distinct(DipPurchases(next.buys))
  {
    DipLevelsGrow(run, step, next);
    if next != run {
      var buy := next.buys[|next.buys| - 1];
      assert next.buys[..|next.buys| - 1] == run.buys;
      if buy.dipLevel.Some? {
        assert (buy.mint, buy.dipLevel.value) !in DipPurchases(run.buys);
      }
    }
  }

  /** Each dip level of each token is bought at most once over a run. */
  lemma {:induction false} DipLevelsOnceOverRun(start: EntryRuleState, steps: seq<EntryStep>)
    ensures RemembersDips(start, Run(start, steps))
    ensures Distinct(DipPurchases(Run(start, steps).buys))
  {
    if steps != [] {
      var run, step := Run(start, steps[..|steps| - 1]), steps[|steps| - 1];
      DipLevelsOnceOverRun(start, steps[..|steps| - 1]);
      AdvanceExtends(run, step);
      DipStep(start, run, step, Run(start, steps));
    }
  }

  /** A dip level already filled at the start is not bought during the run. */
  lemma {:induction false} FilledAtStartNotBought(start: EntryRuleState, steps: seq<EntryStep>, mint: string, k: int)
    requires k in FilledLevels(start.dipFills, mint)
    ensures (mint, k) !in DipPurchases(Run(start, steps).buys)
  {
    if steps != [] {
      var run, step := Run(start, steps[..|steps| - 1]), steps[|steps| - 1];
      FilledAtStartNotBought(start, steps[..|steps| - 1], mint, k);
      DipLevelsOnceOverRun(start, steps[..|steps| - 1]);
      AdvanceExtends(run, step);
      NotBoughtStep(start, run, step, Run(start, steps), mint, k);
    }
  }

  lemma NotBoughtStep(
    start: EntryRuleState, run: EntryRun, step: EntryStep, next: EntryRun, mint: string, k: int)
    requires Extends(run, step, next) && RemembersDips(start, run)
    requires k in FilledLevels(start.dipFills, mint) && (mint, k) !in DipPurchases(run.buys)
    ensures (mint, k) !in DipPurchases(next.buys)
  {
    if next != run {
      assert next.buys[..|next.buys| - 1] == run.buys;
    }
  }

  // ---------- one association entry per token ----------

  ghost predicate OneEntryPerMint(fills: seq<DipFill>) {
    forall i, j :: 0 <= i < j < |fills| ==> fills[i].mint != fills[j].mint
  }

  lemma {:induction false} WithoutKeepsUnique(fills: seq<DipFill>, mint: string)
    requires OneEntryPerMint(fills)
    ensures OneEntryPerMint(WithoutMint(fills, mint))
  {
    if fills != [] {
      WithoutKeepsUnique(fills[1..], mint);
      var rest := WithoutMint(fills[1..], mint);
      forall j | 0 <= j < |rest| ensures rest[j].mint != fills[0].mint {
        assert rest[j] in fills[1..];
      }
    }
  }

  lemma {:induction false} EntriesUniqueOverRun(start: EntryRuleState, steps: seq<EntryStep>)
    requires OneEntryPerMint(start.dipFills)
    ensures OneEntryPerMint(Run(start, steps).state.dipFills)
  {
    if steps != [] {
      var run, step := Run(start, steps[..|steps| - 1]), steps[|steps| - 1];
      EntriesUniqueOverRun(start, steps[..|steps| - 1]);
      AdvanceExtends(run, step);
      UniqueStep(run, step, Run(start, steps));
    }
  }

  lemma UniqueStep(run: EntryRun, step: EntryStep, next: EntryRun)
    requires Extends(run, step, next) && OneEntryPerMint(run.state.dipFills)
    ensures OneEntryPerMint(next.state.dipFills)
  {
    if next != run {
      WithoutKeepsUnique(run.state.dipFills, step.evidence.tokenMint);
      FilterLookup(run.state.dipFills, step.evidence.tokenMint, step.evidence.tokenMint);
    }
  }
}
