/** Runs of the exit rules over one position. Rules may change between steps, as
    the paper position does when a calibrated exit replaces them. */
module ExitRuns {
  import opened Domain
  import opened PlaybookRules
  import opened ExitRules

  datatype ExitStep = ExitStep(rules: PlaybookRules, evidence: ExitRuleInput)

  datatype Sale = Sale(reason: ExitReason, amount: int, positionBefore: int, fractionBefore: int, fractionAfter: int)

  datatype ExitRun = ExitRun(position: int, state: ExitRuleState, sales: seq<Sale>)

  /** One step: a sell subtracts its amount, an abstention leaves everything alone. */
  function Advance(original: int, run: ExitRun, step: ExitStep): ExitRun {
    var outcome := EvaluateExitRules(step.rules, step.evidence, run.state, run.position, original);
    if outcome.Abstained? then run
    else
      var d := outcome.value;
      if d.action == Hold then run.(state := d.nextState)
      else
        var sale := Sale(d.reason, d.sellAmount, run.position,
                         run.state.exitedFractionPpm, d.nextState.exitedFractionPpm);
        ExitRun(run.position - d.sellAmount, d.nextState, run.sales + [sale])
  }

  function Run(original: int, steps: seq<ExitStep>): ExitRun
    decreases |steps|
  {
    if steps == [] then ExitRun(original, FRESH, [])
    else Advance(original, Run(original, steps[..|steps| - 1]), steps[|steps| - 1])
  }

  function TotalSold(sales: seq<Sale>): int {
    if sales == [] then 0 else TotalSold(sales[..|sales| - 1]) + sales[|sales| - 1].amount
  }

  /** A sale whose share of the original position rounds to nothing. */
  predicate IsDust(original: int, sale: Sale) {
    original * (sale.fractionAfter - sale.fractionBefore) < PPM
  }

  function DustCount(original: int, sales: seq<Sale>): (r: nat)
    ensures r <= |sales|
  {
    if sales == [] then 0
    else DustCount(original, sales[..|sales| - 1]) + if IsDust(original, sales[|sales| - 1]) then 1 else 0
  }

  // ---------- how far the position drifts from the nominal fraction ----------

  lemma SellAmountBounds(current: int, original: int, delta: int)
    requires 0 < current <= original && 0 <= delta
    ensures var a := SellAmount(current, original, delta);
            && 1 <= a <= current
            && (original * delta < PPM ==> a == 1)
            && (original * delta >= PPM ==> a * PPM <= original * delta)
            && (a < current ==> original * delta - PPM < a * PPM)
  {
    assert original * delta >= 0;
    FloorBounds(original * delta, PPM);
    if original * delta >= PPM {
      FloorGalois(1, original * delta, PPM);
    }
  }

  /** The running error `sold * 10^6 - N * f`: each dust sale adds at most 10^6, each
      other sale takes away less than 10^6. */
  ghost predicate WithinDrift(original: int, run: ExitRun) {
    var error := (original - run.position) * PPM - original * run.state.exitedFractionPpm;
    var dust := DustCount(original, run.sales);
    && error <= dust * PPM
    && (error >= 0 || error > -((|run.sales| - dust) * PPM))
  }

  ghost predicate Accounted(original: int, run: ExitRun) {
    && 0 <= run.position <= original
    && ProbabilityPpm(run.state.exitedFractionPpm)
    && TotalSold(run.sales) == original - run.position
  }

  /** The sale that a sell decision records. */
  ghost predicate SaleFollows(original: int, run: ExitRun, s: Sale) {
    && 0 < run.position == s.positionBefore
    && s.fractionBefore == run.state.exitedFractionPpm <= s.fractionAfter <= PPM
    && (s.reason == NoActivityTimeout ==> s.amount == run.position && s.fractionAfter == PPM)
    && (s.reason != NoActivityTimeout ==>
          s.reason.LevelTriggered?
          && s.amount == SellAmount(run.position, original, s.fractionAfter - s.fractionBefore))
  }

  /** `next` is `run`, or `run` with one more sale. */
  ghost predicate Extends(original: int, run: ExitRun, next: ExitRun) {
    next != run ==>
      && next.sales != [] && next.sales == run.sales + [next.sales[|next.sales| - 1]]
      && var s := next.sales[|next.sales| - 1];
         && SaleFollows(original, run, s)
         && next.position == run.position - s.amount
         && next.state.exitedFractionPpm == s.fractionAfter
  }

  /** One evaluation either leaves the run alone or appends one sale. */
  lemma AdvanceExtends(original: int, run: ExitRun, step: ExitStep)
    ensures Extends(original, run, Advance(original, run, step))
  {
    assert ValidRules(step.rules) ==> ValidSellRules(step.rules.sell);
  }

  /** The error of one sale, `amount * 10^6 - N * delta`. */
  lemma SaleError(original: int, run: ExitRun, s: Sale)
    requires 0 < run.position <= original && SaleFollows(original, run, s)
    ensures 1 <= s.amount <= run.position
    ensures var error := s.amount * PPM - original * (s.fractionAfter - s.fractionBefore);
            && (IsDust(original, s) && s.reason != NoActivityTimeout ==> 0 <= error <= PPM)
            && (!IsDust(original, s) && s.reason != NoActivityTimeout ==> error <= 0)
            && (s.amount < run.position ==> error > -PPM)
  {
    SellAmountBounds(run.position, original, s.fractionAfter - s.fractionBefore);
  }

  lemma DriftSale(original: int, run: ExitRun, s: Sale, next: ExitRun)
    requires original > 0 && Accounted(original, run) && WithinDrift(original, run)
    requires SaleFollows(original, run, s)
    requires next.position == run.position - s.amount && next.sales == run.sales + [s]
    requires next.state.exitedFractionPpm == s.fractionAfter
    ensures Accounted(original, next) && WithinDrift(original, next)
  {
    SaleError(original, run, s);
    assert next.sales[..|next.sales| - 1] == run.sales;
    assert Accounted(original, next);
    var f := run.state.exitedFractionPpm;
    ErrorAdds(original, run.position, s.amount, f, s.fractionAfter);
    if next.position == 0 {
      NominalAtMostWhole(original, s.fractionAfter);
    }
  }

  lemma ErrorAdds(original: int, position: int, amount: int, f: int, g: int)
    ensures (original - (position - amount)) * PPM - original * g
            == (original - position) * PPM - original * f + (amount * PPM - original * (g - f))
  {
    assert original * g == original * f + original * (g - f);
  }

  lemma NominalAtMostWhole(original: int, f: int)
    requires original > 0 && f <= PPM
    ensures original * f <= original * PPM
  {
  }

  lemma {:induction false} ExitDrift(original: int, steps: seq<ExitStep>)
    requires original > 0
    ensures Accounted(original, Run(original, steps))
    ensures WithinDrift(original, Run(original, steps))
  {
    if steps != [] {
      var run, next := Run(original, steps[..|steps| - 1]), Run(original, steps);
      ExitDrift(original, steps[..|steps| - 1]);
      AdvanceExtends(original, run, steps[|steps| - 1]);
      if next != run {
        DriftSale(original, run, next.sales[|next.sales| - 1], next);
      }
    }
  }

  /** Sales follow one another: each takes at least one unit and at most what is
      left, starts from the position and fraction the previous one left, and
      never lowers the fraction. */
  ghost predicate Chained(original: int, run: ExitRun) {
    && (forall k :: 0 <= k < |run.sales| ==>
          && 1 <= run.sales[k].amount <= run.sales[k].positionBefore
          && run.sales[k].fractionBefore <= run.sales[k].fractionAfter <= PPM
          && run.sales[k].positionBefore
             == (if k == 0 then original else run.sales[k - 1].positionBefore - run.sales[k - 1].amount)
          && run.sales[k].fractionBefore == (if k == 0 then 0 else run.sales[k - 1].fractionAfter))
    && run.position == (if run.sales == [] then original
                        else run.sales[|run.sales| - 1].positionBefore - run.sales[|run.sales| - 1].amount)
    && run.state.exitedFractionPpm == (if run.sales == [] then 0 else run.sales[|run.sales| - 1].fractionAfter)
  }

  lemma ChainedStep(original: int, run: ExitRun, next: ExitRun)
    requires original > 0 && Accounted(original, run) && Chained(original, run) && Extends(original, run, next)
    ensures Chained(original, next)
  {
    if next != run {
      SaleError(original, run, next.sales[|next.sales| - 1]);
    }
  }

  lemma {:induction false} SalesChained(original: int, steps: seq<ExitStep>)
    requires original > 0
    ensures Chained(original, Run(original, steps))
  {
    if steps != [] {
      var run := Run(original, steps[..|steps| - 1]);
      SalesChained(original, steps[..|steps| - 1]);
      ExitDrift(original, steps[..|steps| - 1]);
      AdvanceExtends(original, run, steps[|steps| - 1]);
      ChainedStep(original, run, Run(original, steps));
    }
  }

  /** After n sales the amount sold is within n base units of the nominal amount
      N * f / 10^6, on both sides. */
  lemma DriftBound(original: int, steps: seq<ExitStep>)
    requires original > 0
    ensures var run := Run(original, steps);
            var error := TotalSold(run.sales) * PPM - original * run.state.exitedFractionPpm;
            -(|run.sales| * PPM) <= error <= |run.sales| * PPM
  {
    ExitDrift(original, steps);
    DustScale(DustCount(original, Run(original, steps).sales), |Run(original, steps).sales|);
  }

  lemma DustScale(dust: nat, n: nat)
    requires dust <= n
    ensures 0 <= dust * PPM <= n * PPM && 0 <= (n - dust) * PPM <= n * PPM
  {
  }

  /** A run that has nominally exited in full can still hold units, but fewer than
      the number of sales that were rounded down. */
  lemma ResidueAfterFullExit(original: int, steps: seq<ExitStep>)
    requires original > 0
    requires Run(original, steps).state.exitedFractionPpm == PPM
    ensures var run := Run(original, steps);
            run.position == 0 || run.position < |run.sales| - DustCount(original, run.sales)
  {
    ExitDrift(original, steps);
    ResidueBound(original, Run(original, steps));
  }

  lemma ResidueBound(original: int, run: ExitRun)
    requires Accounted(original, run) && WithinDrift(original, run)
    requires run.state.exitedFractionPpm == PPM
    ensures run.position == 0 || run.position < |run.sales| - DustCount(original, run.sales)
  {
    var rounded := |run.sales| - DustCount(original, run.sales);
    assert (original - run.position) * PPM - original * PPM == -(run.position * PPM);
    if run.position > 0 {
      assert run.position * PPM < rounded * PPM;
    }
  }

  function WitnessStep(slot: nat, pnl: int): ExitStep {
    var sell := SellRules([], [SellLevel(-100, 500_000)], [TrailingStopLevel(None, 1_000)], None, []);
    ExitStep(PlaybookRules(0, None, None, None, 0, false, [], sell, None),
             ExitRuleInput(slot, pnl, 0, None, 0, None, None))
  }

  lemma WitnessStopLoss()
    ensures var run := Advance(3, ExitRun(3, FRESH, []), WitnessStep(1, -200));
            run.position == 2 && run.state == ExitRuleState([], [0], [], 500_000)
  {
  }

  lemma WitnessTrailing(sales: seq<Sale>)
    ensures var run := Advance(3, ExitRun(2, ExitRuleState([], [0], [], 500_000), sales), WitnessStep(2, -2_000));
            run.position == 1 && run.state.exitedFractionPpm == PPM
  {
  }

  lemma RunTwo(original: int, a: ExitStep, b: ExitStep)
    ensures Run(original, [a, b]) == Advance(original, Advance(original, ExitRun(original, FRESH, []), a), b)
  {
    assert [a, b][..1] == [a] && [a][..0] == [];
    assert Run(original, [a]) == Advance(original, Run(original, []), a);
  }

  /** Three units, half sold by a stop loss (one unit), the rest by a trailing stop:
      the nominal fraction is whole and one unit is still held. */
  lemma FullFractionCanLeaveUnits()
    ensures var run := Run(3, [WitnessStep(1, -200), WitnessStep(2, -2_000)]);
            run.state.exitedFractionPpm == PPM && run.position == 1
  {
    RunTwo(3, WitnessStep(1, -200), WitnessStep(2, -2_000));
    WitnessStopLoss();
    var run := Advance(3, ExitRun(3, FRESH, []), WitnessStep(1, -200));
    WitnessTrailing(run.sales);
    assert run == ExitRun(2, ExitRuleState([], [0], [], 500_000), run.sales);
  }

  /** A level that asks for the whole position closes it exactly when the position
      is not ahead of its nominal size, or one unit is left. */
  lemma WholeFractionClosesIff(original: int, run: ExitRun, s: Sale)
    requires 0 < run.position <= original && SaleFollows(original, run, s)
    requires s.reason.LevelTriggered? && s.fractionAfter == PPM
    ensures s.amount == run.position
            <==> run.position == 1 || run.position * PPM <= original * (PPM - run.state.exitedFractionPpm)
  {
    var nominal := original * (PPM - run.state.exitedFractionPpm);
    FloorGalois(run.position, nominal, PPM);
    assert nominal >= 0;
  }

  /** Once the fraction is whole, every later level sells exactly one unit. */
  lemma DustAfterFullExit(original: int, run: ExitRun, s: Sale)
    requires 0 < run.position <= original && SaleFollows(original, run, s)
    requires s.reason.LevelTriggered? && run.state.exitedFractionPpm == PPM
    ensures s.amount == 1
  {
    assert original * (s.fractionAfter - s.fractionBefore) == 0;
    SellAmountBounds(run.position, original, 0);
  }

  // ---------- levels fire once ----------

  function Fired(sales: seq<Sale>, kind: LevelKind): seq<int> {
    if sales == [] then []
    else
      var earlier := Fired(sales[..|sales| - 1], kind);
      var last := sales[|sales| - 1].reason;
      if last.LevelTriggered? && last.kind == kind then earlier + [last.index] else earlier
  }

  ghost predicate CountsUp(indices: seq<int>) {
    forall k :: 0 <= k < |indices| ==> indices[k] == k
  }

  /** The state's index lists are the history of the sales. */
  ghost predicate OneShot(run: ExitRun) {
    && Fired(run.sales, TakeProfit) == run.state.filledTakeProfit
    && Fired(run.sales, StopLoss) == run.state.filledStopLoss
    && Fired(run.sales, BigBuy) == run.state.filledBigBuy
    && CountsUp(run.state.filledTakeProfit)
    && Distinct(run.state.filledStopLoss)
    && Distinct(run.state.filledBigBuy)
  }

  /** `next` is `run`, or `run` with one more sale at a level that fires first, or
      with one more timeout sale. */
  ghost predicate Fills(run: ExitRun, step: ExitStep, next: ExitRun) {
    next != run ==>
      && ValidRules(step.rules)
      && next.sales != [] && next.sales == run.sales + [next.sales[|next.sales| - 1]]
      && var s := next.sales[|next.sales| - 1];
         && (s.reason == NoActivityTimeout ==> next.state == run.state.(exitedFractionPpm := PPM))
         && (s.reason != NoActivityTimeout ==>
               && s.reason.LevelTriggered?
               && next.state == FillLevel(run.state, s.reason.kind, s.reason.index, s.fractionAfter)
               && FiresFirst(step.rules, step.evidence, run.state, s.reason.kind, s.reason.index))
  }

  lemma AdvanceFills(original: int, run: ExitRun, step: ExitStep)
    ensures Fills(run, step, Advance(original, run, step))
  {
    var outcome := EvaluateExitRules(step.rules, step.evidence, run.state, run.position, original);
    if outcome.Produced? {
      DecisionExplained(step.rules, step.evidence, run.state, run.position, original);
    }
  }

  lemma OneShotStep(run: ExitRun, step: ExitStep, next: ExitRun)
    requires OneShot(run) && Fills(run, step, next)
    ensures OneShot(next)
  {
    if next != run {
      var s := next.sales[|next.sales| - 1];
      assert next.sales[..|next.sales| - 1] == run.sales;
      if s.reason.LevelTriggered? {
        assert Fires(step.rules, step.evidence, run.state, s.reason.kind, s.reason.index);
        if s.reason.kind == TakeProfit {
          TakeProfitNextInOrder(step.rules, step.evidence, run.state, s.reason.index);
        }
      }
    }
  }

  /** Take-profit triggers increase, so the first unfilled level that is hit is the
      next one in order. */
  lemma TakeProfitNextInOrder(rules: PlaybookRules, evidence: ExitRuleInput, state: ExitRuleState, i: nat)
    requires ValidRules(rules) && CountsUp(state.filledTakeProfit)
    requires FiresFirst(rules, evidence, state, TakeProfit, i)
    ensures i == |state.filledTakeProfit|
  {
    var m := |state.filledTakeProfit|;
    forall k | 0 <= k < m ensures k in state.filledTakeProfit {
      assert state.filledTakeProfit[k] == k;
    }
    if m < i {
      SellLevelsIncrease(rules.sell.takeProfitLevels, true, m, i);
      assert Fires(rules, evidence, state, TakeProfit, m);
    }
  }

  lemma {:induction false} LevelsFireOnce(original: int, steps: seq<ExitStep>)
    ensures OneShot(Run(original, steps))
  {
    if steps != [] {
      var run, step := Run(original, steps[..|steps| - 1]), steps[|steps| - 1];
      LevelsFireOnce(original, steps[..|steps| - 1]);
      AdvanceFills(original, run, step);
      OneShotStep(run, step, Run(original, steps));
    }
  }

  /** No two sales of a run come from the same take-profit, stop-loss or big-buy level. */
  lemma {:induction false} NoLevelTwice(sales: seq<Sale>, kind: LevelKind, a: nat, b: nat)
    requires a < b < |sales| && Distinct(Fired(sales, kind))
    requires sales[a].reason.LevelTriggered? && sales[a].reason.kind == kind
    requires sales[b].reason.LevelTriggered? && sales[b].reason.kind == kind
    ensures sales[a].reason.index != sales[b].reason.index
  {
    var front := sales[..|sales| - 1];
    var fired := Fired(sales, kind);
    assert Distinct(Fired(front, kind)) by {
      assert Fired(front, kind) <= fired;
    }
    if b < |sales| - 1 {
      NoLevelTwice(front, kind, a, b);
    } else {
      assert front[a] == sales[a];
      FiredMember(front, kind, a);
      assert fired == Fired(front, kind) + [sales[b].reason.index];
      var earlier := Fired(front, kind);
      var k :| 0 <= k < |earlier| && earlier[k] == sales[a].reason.index;
      assert fired[k] == earlier[k] && fired[|earlier|] == sales[b].reason.index;
    }
  }

  lemma {:induction false} FiredMember(sales: seq<Sale>, kind: LevelKind, a: nat)
    requires a < |sales| && sales[a].reason.LevelTriggered? && sales[a].reason.kind == kind
    ensures sales[a].reason.index in Fired(sales, kind)
  {
    if a < |sales| - 1 {
      FiredMember(sales[..|sales| - 1], kind, a);
    }
  }

  lemma SilentStep(run: ExitRun, step: ExitStep, next: ExitRun)
    requires Fills(run, step, next) && step.rules.sell.trailingLevels != []
    ensures Fired(next.sales, TakeProfit) == Fired(run.sales, TakeProfit)
  {
    if next != run {
      assert next.sales[..|next.sales| - 1] == run.sales;
    }
  }

  /** With a trailing level configured at every step, no take-profit ever fires. */
  lemma {:induction false} TrailingSilencesTakeProfit(original: int, steps: seq<ExitStep>)
    requires forall k :: 0 <= k < |steps| ==> steps[k].rules.sell.trailingLevels != []
    ensures Fired(Run(original, steps).sales, TakeProfit) == []
  {
    if steps != [] {
      var run, step := Run(original, steps[..|steps| - 1]), steps[|steps| - 1];
      TrailingSilencesTakeProfit(original, steps[..|steps| - 1]);
      AdvanceFills(original, run, step);
      SilentStep(run, step, Run(original, steps));
    }
  }
}
