/** Integer full-exit stress of a copy-trade case, and how its figures move with
    the haircut and the added cost. */
module FullExitStress {
  import opened Domain
  import opened Backtest

  datatype ObservationPoint = ObservationPoint(
    asOfSlot: int,
    slot: int,
    eventIndex: int,
    elapsedMs: int,
    price: int,
    fullExitOutput: int,
    fullExitCost: int,
    evidenceIds: seq<string>)

  datatype HistorySample = HistorySample(
    asOfSlot: int,
    launchId: string,
    launchSlot: int,
    entryCost: int,
    realizedNetPnl: int,
    trajectory: seq<ObservationPoint>,
    adverseElapsedMs: Option<int>,
    evidenceIds: seq<string>)

  datatype LaunchCase = LaunchCase(
    asOfSlot: int,
    launchId: string,
    decisionSlot: int,
    history: seq<HistorySample>,
    trajectory: seq<ObservationPoint>,
    outcome: OutcomeLabels,
    evidenceIds: seq<string>)

  datatype StressConfig = StressConfig(asOfSlot: int, outputHaircutPpm: int, additionalCost: int)

  predicate ValidStress(c: StressConfig) {
    c.asOfSlot >= 0 && ProbabilityPpm(c.outputHaircutPpm) && c.additionalCost >= 0
  }

  // ---------- points ----------

  function StressedOutput(output: int, haircutPpm: int): int {
    output * (PPM - haircutPpm) / PPM
  }

  function StressPoint(p: ObservationPoint, c: StressConfig): ObservationPoint {
    p.(fullExitOutput := StressedOutput(p.fullExitOutput, c.outputHaircutPpm),
       fullExitCost := p.fullExitCost + c.additionalCost)
  }

  function StressAll(points: seq<ObservationPoint>, c: StressConfig): (r: seq<ObservationPoint>)
    ensures |r| == |points|
  {
    MapSeq((p: ObservationPoint) => StressPoint(p, c), points)
  }

  predicate Stressable(points: seq<ObservationPoint>, c: StressConfig) {
    points != [] && forall k :: 0 <= k < |points| ==> points[k].asOfSlot <= c.asOfSlot
  }

  method StressPoints(points: seq<ObservationPoint>, c: StressConfig)
    returns (r: Outcome<seq<ObservationPoint>>)
    ensures r == if Stressable(points, c) then Produced(StressAll(points, c))
                 else Abstained(AbstainResult(MissingFeature, c.asOfSlot))
  {
    if points == [] {
      return Abstained(AbstainResult(MissingFeature, c.asOfSlot));
    }
    var stressed: seq<ObservationPoint> := [];
    for i := 0 to |points|
      invariant stressed == StressAll(points, c)[..i]
      invariant forall k :: 0 <= k < i ==> points[k].asOfSlot <= c.asOfSlot
    {
      var point := points[i];
      if point.asOfSlot > c.asOfSlot {
        return Abstained(AbstainResult(MissingFeature, c.asOfSlot));
      }
      var output := point.fullExitOutput * (PPM - c.outputHaircutPpm);
      output := output / PPM;
      var cost := point.fullExitCost + c.additionalCost;
      stressed := stressed + [point.(fullExitOutput := output, fullExitCost := cost)];
    }
    assert StressAll(points, c)[..|points|] == StressAll(points, c);
    r := Produced(stressed);
  }

  // ---------- results of points ----------

  function PointPnl(p: ObservationPoint, entryCost: int): int {
    p.fullExitOutput - p.fullExitCost - entryCost
  }

  function PointPnls(points: seq<ObservationPoint>, entryCost: int): seq<int> {
    MapSeq((p: ObservationPoint) => PointPnl(p, entryCost), points)
  }

  function BeforeEvent(points: seq<ObservationPoint>, adverseElapsedMs: Option<int>): seq<ObservationPoint> {
    Filter((p: ObservationPoint) => adverseElapsedMs.None? || p.elapsedMs < adverseElapsedMs.value, points)
  }

  function HistoricalRealizedPnl(points: seq<ObservationPoint>, adverseElapsedMs: Option<int>, entryCost: int): int {
    var eligible := BeforeEvent(points, adverseElapsedMs);
    if eligible == [] then 0 else MaxOf(PointPnls(eligible, entryCost))
  }

  // ---------- outcome labels ----------

  function WithinHorizon(points: seq<ObservationPoint>, horizonMs: int): seq<ObservationPoint> {
    Filter((p: ObservationPoint) => p.elapsedMs <= horizonMs, points)
  }

  predicate RowStressable(row: HorizonLabel, points: seq<ObservationPoint>) {
    row.censored || WithinHorizon(points, row.horizonMs) != []
  }

  function StressRow(row: HorizonLabel, points: seq<ObservationPoint>, entryCost: int): HorizonLabel
    requires RowStressable(row, points)
  {
    if row.censored then row
    else
      var within := WithinHorizon(points, row.horizonMs);
      row.(fullExitNetPnl := Some(PointPnl(within[|within| - 1], entryCost)))
  }

  predicate OutcomeStressable(o: OutcomeLabels, points: seq<ObservationPoint>) {
    forall k :: 0 <= k < |o.horizonLabels| ==> RowStressable(o.horizonLabels[k], points)
  }

  /** The stressed outcome: same labels, with recomputed uncensored results and maximum. */
  ghost predicate OutcomeStressed(
    o: OutcomeLabels, points: seq<ObservationPoint>, entryCost: int, r: OutcomeLabels)
  {
    && OutcomeStressable(o, points)
    && |r.horizonLabels| == |o.horizonLabels|
    && (forall k :: 0 <= k < |o.horizonLabels| ==>
          r.horizonLabels[k] == StressRow(o.horizonLabels[k], points, entryCost))
    && r == o.(maxOpportunity := Some(HistoricalRealizedPnl(points, o.adverseEventElapsedMs, entryCost)),
               horizonLabels := r.horizonLabels,
               reasonCodes := Dedup(o.reasonCodes + ["full_exit_stress_applied"]))
  }

  method StressOutcome(o: OutcomeLabels, points: seq<ObservationPoint>, entryCost: int)
    returns (r: Outcome<OutcomeLabels>)
    requires points != []
    ensures o.asOfSlot != points[0].asOfSlot ==>
              r == Abstained(AbstainResult(StaleState, points[0].asOfSlot))
    ensures o.asOfSlot == points[0].asOfSlot && !OutcomeStressable(o, points) ==>
              r == Abstained(AbstainResult(MissingFeature, o.asOfSlot))
    ensures o.asOfSlot == points[0].asOfSlot && OutcomeStressable(o, points) ==>
              r.Produced? && OutcomeStressed(o, points, entryCost, r.value)
  {
    if o.asOfSlot != points[0].asOfSlot {
      return Abstained(AbstainResult(StaleState, points[0].asOfSlot));
    }
    var rows: seq<HorizonLabel> := [];
    for i := 0 to |o.horizonLabels|
      invariant |rows| == i
      invariant forall k :: 0 <= k < i ==>
                  && RowStressable(o.horizonLabels[k], points)
                  && rows[k] == StressRow(o.horizonLabels[k], points, entryCost)
    {
      var row := o.horizonLabels[i];
      var within := WithinHorizon(points, row.horizonMs);
      if row.censored {
        rows := rows + [row];
      } else if within == [] {
        return Abstained(AbstainResult(MissingFeature, o.asOfSlot));
      } else {
        var point := within[|within| - 1];
        var pnl := point.fullExitOutput - point.fullExitCost - entryCost;
        rows := rows + [row.(fullExitNetPnl := Some(pnl))];
      }
    }
    var maximum := HistoricalRealizedPnl(points, o.adverseEventElapsedMs, entryCost);
    r := Produced(o.(maxOpportunity := Some(maximum), horizonLabels := rows,
                     reasonCodes := Dedup(o.reasonCodes + ["full_exit_stress_applied"])));
  }

  // ---------- the case ----------

  function StressSample(s: HistorySample, c: StressConfig): HistorySample {
    var points := StressAll(s.trajectory, c);
    s.(trajectory := points,
       realizedNetPnl := HistoricalRealizedPnl(points, s.adverseElapsedMs, s.entryCost))
  }

  /** Which cases can be stressed; the haircut and the added cost play no part. */
  predicate CaseStressable(k: LaunchCase, asOfSlot: int) {
    var c := StressConfig(asOfSlot, 0, 0);
    && k.asOfSlot == asOfSlot
    && Stressable(k.trajectory, c)
    && (forall i :: 0 <= i < |k.history| ==> Stressable(k.history[i].trajectory, c))
    && k.outcome.asOfSlot == k.trajectory[0].asOfSlot
    && OutcomeStressable(k.outcome, k.trajectory)
  }

  /** Why a case cannot be stressed. */
  function CaseAbstain(k: LaunchCase, asOfSlot: int): AbstainResult {
    var c := StressConfig(asOfSlot, 0, 0);
    if k.asOfSlot != asOfSlot then AbstainResult(StaleState, asOfSlot)
    else if || !Stressable(k.trajectory, c)
            || (exists i :: 0 <= i < |k.history| && !Stressable(k.history[i].trajectory, c)) then
      AbstainResult(MissingFeature, asOfSlot)
    else if k.outcome.asOfSlot != k.trajectory[0].asOfSlot then AbstainResult(StaleState, k.trajectory[0].asOfSlot)
    else AbstainResult(MissingFeature, k.outcome.asOfSlot)
  }

  ghost predicate CaseStressed(k: LaunchCase, entryCost: int, c: StressConfig, r: LaunchCase) {
    && r == k.(history := r.history, trajectory := StressAll(k.trajectory, c), outcome := r.outcome)
    && |r.history| == |k.history|
    && (forall i :: 0 <= i < |k.history| ==> r.history[i] == StressSample(k.history[i], c))
    && OutcomeStressed(k.outcome, r.trajectory, entryCost, r.outcome)
  }

  lemma StressHead(points: seq<ObservationPoint>, c: StressConfig)
    requires points != []
    ensures StressAll(points, c) == [StressPoint(points[0], c)] + StressAll(points[1..], c)
  {
    var stressed := [StressPoint(points[0], c)] + StressAll(points[1..], c);
    assert forall k :: 0 <= k < |points| ==> StressAll(points, c)[k] == stressed[k];
  }

  lemma {:induction false} FilterOfStressed(
    keep: ObservationPoint -> bool, points: seq<ObservationPoint>, c: StressConfig)
    requires forall p :: keep(StressPoint(p, c)) == keep(p)
    ensures Filter(keep, StressAll(points, c)) == StressAll(Filter(keep, points), c)
  {
    if points != [] {
      var head, rest := points[0], points[1..];
      FilterOfStressed(keep, rest, c);
      StressHead(points, c);
      if keep(head) {
        assert ([head] + Filter(keep, rest))[1..] == Filter(keep, rest);
        StressHead([head] + Filter(keep, rest), c);
      }
    }
  }

  /** Stress changes amounts, not times. */
  lemma TimesKept(points: seq<ObservationPoint>, c: StressConfig)
    ensures forall horizonMs ::
              WithinHorizon(StressAll(points, c), horizonMs) == StressAll(WithinHorizon(points, horizonMs), c)
    ensures forall event ::
              BeforeEvent(StressAll(points, c), event) == StressAll(BeforeEvent(points, event), c)
  {
    forall horizonMs
      ensures WithinHorizon(StressAll(points, c), horizonMs) == StressAll(WithinHorizon(points, horizonMs), c)
    {
      FilterOfStressed((p: ObservationPoint) => p.elapsedMs <= horizonMs, points, c);
    }
    forall event: Option<int>
      ensures BeforeEvent(StressAll(points, c), event) == StressAll(BeforeEvent(points, event), c)
    {
      FilterOfStressed((p: ObservationPoint) => event.None? || p.elapsedMs < event.value, points, c);
    }
  }

  lemma OutcomeStressableKept(o: OutcomeLabels, points: seq<ObservationPoint>, c: StressConfig)
    ensures OutcomeStressable(o, StressAll(points, c)) <==> OutcomeStressable(o, points)
  {
    TimesKept(points, c);
    forall k | 0 <= k < |o.horizonLabels|
      ensures RowStressable(o.horizonLabels[k], StressAll(points, c)) <==> RowStressable(o.horizonLabels[k], points)
    {
      assert |WithinHorizon(StressAll(points, c), o.horizonLabels[k].horizonMs)|
          == |WithinHorizon(points, o.horizonLabels[k].horizonMs)|;
    }
  }

  method StressCopyTradeCase(k: LaunchCase, entryCost: int, c: StressConfig) returns (r: Outcome<LaunchCase>)
    ensures !ValidStress(c) ==> r == Abstained(AbstainResult(UnsupportedProtocolState, c.asOfSlot))
    ensures ValidStress(c) ==> (r.Produced? <==> CaseStressable(k, c.asOfSlot))
    ensures ValidStress(c) && r.Produced? ==> CaseStressed(k, entryCost, c, r.value)
    ensures ValidStress(c) && r.Abstained? ==> r.abstain == CaseAbstain(k, c.asOfSlot)
  {
    if !ValidStress(c) {
      return Abstained(AbstainResult(UnsupportedProtocolState, c.asOfSlot));
    }
    if k.asOfSlot != c.asOfSlot {
      return Abstained(AbstainResult(StaleState, c.asOfSlot));
    }
    var trajectory := StressPoints(k.trajectory, c);
    if trajectory.Abstained? {
      return Abstained(trajectory.abstain);
    }
    var history: seq<HistorySample> := [];
    for i := 0 to |k.history|
      invariant |history| == i
      invariant forall j :: 0 <= j < i ==>
                  Stressable(k.history[j].trajectory, c) && history[j] == StressSample(k.history[j], c)
    {
      var sample := k.history[i];
      var points := StressPoints(sample.trajectory, c);
      if points.Abstained? {
        return Abstained(points.abstain);
      }
      var realized := HistoricalRealizedPnl(points.value, sample.adverseElapsedMs, sample.entryCost);
      history := history + [sample.(trajectory := points.value, realizedNetPnl := realized)];
    }
    OutcomeStressableKept(k.outcome, k.trajectory, c);
    var outcome := StressOutcome(k.outcome, trajectory.value, entryCost);
    if outcome.Abstained? {
      return Abstained(outcome.abstain);
    }
    r := Produced(k.(history := history, trajectory := trajectory.value, outcome := outcome.value));
  }

  // ---------- monotonicity ----------

  /** Raising the haircut never raises an output exactly when the output is not
      negative; a negative output, which the code does not reject, moves the other way. */
  lemma HaircutMonotoneIff(output: int)
    ensures (forall low, high :: 0 <= low <= high <= PPM ==>
               StressedOutput(output, high) <= StressedOutput(output, low))
            <==> output >= 0
  {
    if output >= 0 {
      forall low, high | 0 <= low <= high <= PPM
        ensures StressedOutput(output, high) <= StressedOutput(output, low)
      {
        OutputFalls(output, low, high);
      }
    } else {
      assert StressedOutput(output, 0) == output;
      assert StressedOutput(output, PPM) == 0;
    }
  }

  lemma OutputFalls(output: int, low: int, high: int)
    requires output >= 0 && low <= high <= PPM
    ensures 0 <= StressedOutput(output, high) <= StressedOutput(output, low)
  {
    assert output * (PPM - high) <= output * (PPM - low);
    FloorMonotone(output * (PPM - high), output * (PPM - low), PPM);
    assert output * (PPM - high) >= 0;
    FloorGalois(0, output * (PPM - high), PPM);
  }

  ghost predicate NonNegativeOutputs(points: seq<ObservationPoint>) {
    forall k :: 0 <= k < |points| ==> points[k].fullExitOutput >= 0
  }

  /** The stresses differ in cost alone, or no output is negative. */
  ghost predicate Orderable(points: seq<ObservationPoint>, mild: StressConfig, hard: StressConfig) {
    mild.outputHaircutPpm == hard.outputHaircutPpm || NonNegativeOutputs(points)
  }

  /** The second stress is at least as hard as the first. */
  ghost predicate Harder(mild: StressConfig, hard: StressConfig) {
    && ValidStress(mild) && ValidStress(hard) && mild.asOfSlot == hard.asOfSlot
    && mild.outputHaircutPpm <= hard.outputHaircutPpm && mild.additionalCost <= hard.additionalCost
  }

  lemma PointFalls(p: ObservationPoint, mild: StressConfig, hard: StressConfig, entryCost: int)
    requires Harder(mild, hard)
    requires mild.outputHaircutPpm == hard.outputHaircutPpm || p.fullExitOutput >= 0
    ensures StressPoint(p, hard).fullExitOutput <= StressPoint(p, mild).fullExitOutput
    ensures StressPoint(p, mild).fullExitCost <= StressPoint(p, hard).fullExitCost
    ensures PointPnl(StressPoint(p, hard), entryCost) <= PointPnl(StressPoint(p, mild), entryCost)
  {
    if p.fullExitOutput >= 0 {
      OutputFalls(p.fullExitOutput, mild.outputHaircutPpm, hard.outputHaircutPpm);
    }
  }

  lemma MaxFalls(a: seq<int>, b: seq<int>)
    requires |a| == |b| && a != [] && forall k :: 0 <= k < |a| ==> a[k] <= b[k]
    ensures MaxOf(a) <= MaxOf(b)
  {
    var k :| 0 <= k < |a| && a[k] == MaxOf(a);
    assert b[k] in b;
  }

  lemma RealizedFalls(
    points: seq<ObservationPoint>, event: Option<int>, entryCost: int, mild: StressConfig, hard: StressConfig)
    requires Harder(mild, hard) && Orderable(points, mild, hard)
    ensures HistoricalRealizedPnl(StressAll(points, hard), event, entryCost)
            <= HistoricalRealizedPnl(StressAll(points, mild), event, entryCost)
  {
    TimesKept(points, mild);
    TimesKept(points, hard);
    var eligible := BeforeEvent(points, event);
    if eligible != [] {
      var a, b := PointPnls(StressAll(eligible, hard), entryCost), PointPnls(StressAll(eligible, mild), entryCost);
      forall k | 0 <= k < |eligible| ensures a[k] <= b[k] {
        EligibleIsPoint(points, event, k);
        PointFalls(eligible[k], mild, hard, entryCost);
      }
      MaxFalls(a, b);
    }
  }

  lemma EligibleIsPoint(points: seq<ObservationPoint>, event: Option<int>, k: nat)
    requires k < |BeforeEvent(points, event)|
    ensures NonNegativeOutputs(points) ==> BeforeEvent(points, event)[k].fullExitOutput >= 0
  {
    var p := BeforeEvent(points, event)[k];
    assert p in points;
  }

  lemma RowFalls(
    row: HorizonLabel, points: seq<ObservationPoint>, entryCost: int, mild: StressConfig, hard: StressConfig)
    requires Harder(mild, hard) && Orderable(points, mild, hard)
    requires RowStressable(row, StressAll(points, mild)) && RowStressable(row, StressAll(points, hard))
    ensures var m, h := StressRow(row, StressAll(points, mild), entryCost),
                        StressRow(row, StressAll(points, hard), entryCost);
            if row.censored then m == h == row
            else m.fullExitNetPnl.Some? && h.fullExitNetPnl.Some?
                 && h.fullExitNetPnl.value <= m.fullExitNetPnl.value
  {
    TimesKept(points, mild);
    TimesKept(points, hard);
    if !row.censored {
      var within := WithinHorizon(points, row.horizonMs);
      var last := within[|within| - 1];
      assert last in points;
      PointFalls(last, mild, hard, entryCost);
    }
  }

  ghost predicate PointsBelow(hard: seq<ObservationPoint>, mild: seq<ObservationPoint>) {
    |hard| == |mild|
    && forall k :: 0 <= k < |hard| ==>
         hard[k].fullExitOutput <= mild[k].fullExitOutput && mild[k].fullExitCost <= hard[k].fullExitCost
  }

  /** No figure of the harder case exceeds that of the milder one. */
  ghost predicate CaseBelow(hard: LaunchCase, mild: LaunchCase) {
    && PointsBelow(hard.trajectory, mild.trajectory)
    && |hard.history| == |mild.history|
    && (forall i :: 0 <= i < |hard.history| ==>
          && PointsBelow(hard.history[i].trajectory, mild.history[i].trajectory)
          && hard.history[i].realizedNetPnl <= mild.history[i].realizedNetPnl)
    && |hard.outcome.horizonLabels| == |mild.outcome.horizonLabels|
    && (forall k :: 0 <= k < |hard.outcome.horizonLabels| ==>
          RowBelow(hard.outcome.horizonLabels[k], mild.outcome.horizonLabels[k]))
    && hard.outcome.maxOpportunity.Some? && mild.outcome.maxOpportunity.Some?
    && hard.outcome.maxOpportunity.value <= mild.outcome.maxOpportunity.value
  }

  ghost predicate RowBelow(hard: HorizonLabel, mild: HorizonLabel) {
    && hard.censored == mild.censored
    && (hard.censored ==> hard == mild)
    && (!hard.censored ==>
          hard.fullExitNetPnl.Some? && mild.fullExitNetPnl.Some?
          && hard.fullExitNetPnl.value <= mild.fullExitNetPnl.value)
  }

  ghost predicate CaseNonNegative(k: LaunchCase) {
    && NonNegativeOutputs(k.trajectory)
    && forall i :: 0 <= i < |k.history| ==> NonNegativeOutputs(k.history[i].trajectory)
  }

  lemma TrajectoryFalls(points: seq<ObservationPoint>, mild: StressConfig, hard: StressConfig)
    requires Harder(mild, hard) && Orderable(points, mild, hard)
    ensures PointsBelow(StressAll(points, hard), StressAll(points, mild))
  {
    forall k | 0 <= k < |points|
      ensures StressPoint(points[k], hard).fullExitOutput <= StressPoint(points[k], mild).fullExitOutput
              && StressPoint(points[k], mild).fullExitCost <= StressPoint(points[k], hard).fullExitCost
    {
      PointFalls(points[k], mild, hard, 0);
    }
  }

  /** A harder stress never raises a stressed point output, an uncensored horizon
      result, a realized history result or the maximum opportunity: whatever the
      outputs when only the cost rises, and with no negative output otherwise. */
  lemma StressMonotone(
    k: LaunchCase, entryCost: int, mild: StressConfig, hard: StressConfig, m: LaunchCase, h: LaunchCase)
    requires Harder(mild, hard) && (mild.outputHaircutPpm == hard.outputHaircutPpm || CaseNonNegative(k))
    requires CaseStressed(k, entryCost, mild, m) && CaseStressed(k, entryCost, hard, h)
    ensures CaseBelow(h, m)
  {
    TrajectoryFalls(k.trajectory, mild, hard);
    forall i | 0 <= i < |k.history|
      ensures PointsBelow(h.history[i].trajectory, m.history[i].trajectory)
              && h.history[i].realizedNetPnl <= m.history[i].realizedNetPnl
    {
      TrajectoryFalls(k.history[i].trajectory, mild, hard);
      RealizedFalls(k.history[i].trajectory, k.history[i].adverseElapsedMs, k.history[i].entryCost, mild, hard);
    }
    forall i | 0 <= i < |k.outcome.horizonLabels|
      ensures RowBelow(h.outcome.horizonLabels[i], m.outcome.horizonLabels[i])
    {
      RowFalls(k.outcome.horizonLabels[i], k.trajectory, entryCost, mild, hard);
    }
    RealizedFalls(k.trajectory, k.outcome.adverseEventElapsedMs, entryCost, mild, hard);
  }

  /** The stressed case, spelled out. */
  function StressedCase(k: LaunchCase, entryCost: int, c: StressConfig): LaunchCase
    requires OutcomeStressable(k.outcome, StressAll(k.trajectory, c))
  {
    var points := StressAll(k.trajectory, c);
    var rows := seq(|k.outcome.horizonLabels|,
                    i requires 0 <= i < |k.outcome.horizonLabels| =>
                      StressRow(k.outcome.horizonLabels[i], points, entryCost));
    k.(history := MapSeq((s: HistorySample) => StressSample(s, c), k.history),
       trajectory := points,
       outcome := k.outcome.(
         maxOpportunity := Some(HistoricalRealizedPnl(points, k.outcome.adverseEventElapsedMs, entryCost)),
         horizonLabels := rows,
         reasonCodes := Dedup(k.outcome.reasonCodes + ["full_exit_stress_applied"])))
  }

  lemma StressedCaseExists(k: LaunchCase, entryCost: int, c: StressConfig)
    requires OutcomeStressable(k.outcome, k.trajectory)
    ensures OutcomeStressable(k.outcome, StressAll(k.trajectory, c))
    ensures CaseStressed(k, entryCost, c, StressedCase(k, entryCost, c))
  {
    OutcomeStressableKept(k.outcome, k.trajectory, c);
  }

  /** No harder stress of the case ever raises a figure. */
  ghost predicate AlwaysFalls(k: LaunchCase, entryCost: int, asOfSlot: int) {
    forall mild, hard, m, h ::
      Harder(mild, hard) && mild.asOfSlot == asOfSlot
      && CaseStressed(k, entryCost, mild, m) && CaseStressed(k, entryCost, hard, h) ==>
        CaseBelow(h, m)
  }

  lemma FallingPointsNonNegative(points: seq<ObservationPoint>, none: StressConfig, full: StressConfig)
    requires none.outputHaircutPpm == 0 && full.outputHaircutPpm == PPM
    requires PointsBelow(StressAll(points, full), StressAll(points, none))
    ensures NonNegativeOutputs(points)
  {
    forall k | 0 <= k < |points| ensures points[k].fullExitOutput >= 0 {
      assert StressAll(points, none)[k].fullExitOutput == points[k].fullExitOutput;
      assert StressAll(points, full)[k].fullExitOutput == 0;
    }
  }

  /** For a case that can be stressed, a harder stress never raises a figure if and
      only if no output of the case is negative. */
  lemma StressMonotoneIff(k: LaunchCase, entryCost: int, asOfSlot: int)
    requires asOfSlot >= 0 && CaseStressable(k, asOfSlot)
    ensures AlwaysFalls(k, entryCost, asOfSlot) <==> CaseNonNegative(k)
  {
    if CaseNonNegative(k) {
      forall mild, hard, m, h |
        && Harder(mild, hard) && mild.asOfSlot == asOfSlot
        && CaseStressed(k, entryCost, mild, m) && CaseStressed(k, entryCost, hard, h)
        ensures CaseBelow(h, m)
      {
        StressMonotone(k, entryCost, mild, hard, m, h);
      }
    }
    if AlwaysFalls(k, entryCost, asOfSlot) {
      FallingIsNonNegative(k, entryCost, asOfSlot);
    }
  }

  lemma FallingIsNonNegative(k: LaunchCase, entryCost: int, asOfSlot: int)
    requires asOfSlot >= 0 && CaseStressable(k, asOfSlot) && AlwaysFalls(k, entryCost, asOfSlot)
    ensures CaseNonNegative(k)
  {
    var none, full := StressConfig(asOfSlot, 0, 0), StressConfig(asOfSlot, PPM, 0);
    StressedCaseExists(k, entryCost, none);
    StressedCaseExists(k, entryCost, full);
    var m, h := StressedCase(k, entryCost, none), StressedCase(k, entryCost, full);
    assert Harder(none, full) && CaseBelow(h, m);
    BelowIsNonNegative(k, entryCost, none, full, m, h);
  }

  lemma BelowIsNonNegative(
    k: LaunchCase, entryCost: int, none: StressConfig, full: StressConfig, m: LaunchCase, h: LaunchCase)
    requires none.outputHaircutPpm == 0 && full.outputHaircutPpm == PPM
    requires CaseStressed(k, entryCost, none, m) && CaseStressed(k, entryCost, full, h) && CaseBelow(h, m)
    ensures CaseNonNegative(k)
  {
    FallingPointsNonNegative(k.trajectory, none, full);
    forall i | 0 <= i < |k.history| ensures NonNegativeOutputs(k.history[i].trajectory) {
      assert PointsBelow(h.history[i].trajectory, m.history[i].trajectory);
      FallingPointsNonNegative(k.history[i].trajectory, none, full);
    }
  }

  const NEGATIVE_POINT: ObservationPoint := ObservationPoint(0, 0, 0, 5, 1, -10, 0, ["p"])
  const NEGATIVE_ROW: HorizonLabel :=
    HorizonLabel(0, "launch", "mint", 10, false, Some(0), Some(0), Some(0), Some(0), Some(0), "v", ["h"])
  const NEGATIVE_CASE: LaunchCase :=
    LaunchCase(0, "launch", 0, [], [NEGATIVE_POINT],
               OutcomeLabels(0, "launch", "mint", "v", None, None, Some(0), [NEGATIVE_ROW], 1, ["o"], ["r"]), ["c"])
  const NO_STRESS: StressConfig := StressConfig(0, 0, 0)
  const FULL_HAIRCUT: StressConfig := StressConfig(0, PPM, 0)

  lemma SinglePoint(p: ObservationPoint)
    requires p.elapsedMs == 5
    ensures WithinHorizon([p], 10) == [p]
    ensures HistoricalRealizedPnl([p], None, 0) == PointPnl(p, 0)
  {
    assert [p][1..] == [];
    assert BeforeEvent([p], None) == [p];
    assert PointPnls([p], 0) == [PointPnl(p, 0)];
  }

  /** The case has one point and one uncensored horizon, and each of its figures is `output`. */
  ghost predicate EveryFigure(r: LaunchCase, output: int) {
    && |r.trajectory| == |r.outcome.horizonLabels| == 1
    && r.trajectory[0].fullExitOutput == output
    && !r.outcome.horizonLabels[0].censored && r.outcome.horizonLabels[0].fullExitNetPnl == Some(output)
    && r.outcome.maxOpportunity == Some(output)
  }

  lemma NegativeFigures(c: StressConfig, r: LaunchCase)
    requires c.additionalCost == 0 && CaseStressed(NEGATIVE_CASE, 0, c, r)
    ensures EveryFigure(r, StressedOutput(-10, c.outputHaircutPpm))
  {
    var p := StressPoint(NEGATIVE_POINT, c);
    assert StressAll([NEGATIVE_POINT], c) == [p];
    SinglePoint(p);
    assert r.outcome.horizonLabels[0] == StressRow(NEGATIVE_ROW, [p], 0);
  }

  lemma NegativeStressed(c: StressConfig) returns (r: LaunchCase)
    requires c.additionalCost == 0
    ensures CaseStressed(NEGATIVE_CASE, 0, c, r) && EveryFigure(r, StressedOutput(-10, c.outputHaircutPpm))
  {
    NegativeStressable();
    StressedCaseExists(NEGATIVE_CASE, 0, c);
    r := StressedCase(NEGATIVE_CASE, 0, c);
    NegativeFigures(c, r);
  }

  lemma NegativeStressable()
    ensures CaseStressable(NEGATIVE_CASE, 0)
  {
    SinglePoint(NEGATIVE_POINT);
    assert NEGATIVE_CASE.trajectory == [NEGATIVE_POINT];
    assert RowStressable(NEGATIVE_ROW, [NEGATIVE_POINT]);
  }

  lemma ExtremeHaircuts(output: int)
    ensures StressedOutput(output, 0) == output && StressedOutput(output, PPM) == 0
  {
  }

  /** One point with output -10: the full haircut raises the point's output, the horizon
      result and the maximum opportunity, each from -10 to 0. */
  lemma HaircutCanRaise() returns (m: LaunchCase, h: LaunchCase)
    ensures CaseStressable(NEGATIVE_CASE, 0) && Harder(NO_STRESS, FULL_HAIRCUT)
    ensures CaseStressed(NEGATIVE_CASE, 0, NO_STRESS, m) && EveryFigure(m, -10)
    ensures CaseStressed(NEGATIVE_CASE, 0, FULL_HAIRCUT, h) && EveryFigure(h, 0)
  {
    NegativeStressable();
    m := NegativeStressed(NO_STRESS);
    h := NegativeStressed(FULL_HAIRCUT);
    ExtremeHaircuts(-10);
  }

  // ---------- the full haircut ----------

  ghost predicate NonNegativeCosts(points: seq<ObservationPoint>) {
    forall k :: 0 <= k < |points| ==> points[k].fullExitCost >= 0
  }

  /** At a full haircut a point is worth minus its costs. */
  lemma FullHaircutPoint(p: ObservationPoint, c: StressConfig, entryCost: int)
    requires c.outputHaircutPpm == PPM
    ensures PointPnl(StressPoint(p, c), entryCost) == -(p.fullExitCost + c.additionalCost + entryCost)
  {
    assert p.fullExitOutput * 0 == 0;
  }

  lemma FullHaircutRealized(points: seq<ObservationPoint>, event: Option<int>, entryCost: int, c: StressConfig)
    requires ValidStress(c) && c.outputHaircutPpm == PPM && entryCost >= 0 && NonNegativeCosts(points)
    ensures HistoricalRealizedPnl(StressAll(points, c), event, entryCost) <= 0
  {
    TimesKept(points, c);
    var eligible := BeforeEvent(points, event);
    if eligible != [] {
      var pnls := PointPnls(StressAll(eligible, c), entryCost);
      var k :| 0 <= k < |pnls| && pnls[k] == MaxOf(pnls);
      assert eligible[k] in eligible;
      assert eligible[k] in points;
      FullHaircutPoint(eligible[k], c, entryCost);
    }
  }

  lemma FullHaircutRow(row: HorizonLabel, points: seq<ObservationPoint>, entryCost: int, c: StressConfig)
    requires ValidStress(c) && c.outputHaircutPpm == PPM && entryCost >= 0 && NonNegativeCosts(points)
    requires !row.censored && RowStressable(row, StressAll(points, c))
    ensures StressRow(row, StressAll(points, c), entryCost).fullExitNetPnl.value <= 0
  {
    TimesKept(points, c);
    var within := WithinHorizon(points, row.horizonMs);
    var last := within[|within| - 1];
    assert last in points;
    FullHaircutPoint(last, c, entryCost);
  }

  /** With a full haircut no result of a case is positive. */
  lemma FullHaircutNeverProfits(k: LaunchCase, entryCost: int, c: StressConfig, r: LaunchCase)
    requires ValidStress(c) && c.outputHaircutPpm == PPM && entryCost >= 0
    requires NonNegativeCosts(k.trajectory)
    requires forall i :: 0 <= i < |k.history| ==>
               NonNegativeCosts(k.history[i].trajectory) && k.history[i].entryCost >= 0
    requires CaseStressed(k, entryCost, c, r)
    ensures forall i :: 0 <= i < |r.history| ==> r.history[i].realizedNetPnl <= 0
    ensures forall i :: 0 <= i < |r.outcome.horizonLabels| && !r.outcome.horizonLabels[i].censored ==>
              r.outcome.horizonLabels[i].fullExitNetPnl.Some?
              && r.outcome.horizonLabels[i].fullExitNetPnl.value <= 0
    ensures r.outcome.maxOpportunity.Some? && r.outcome.maxOpportunity.value <= 0
  {
    forall i | 0 <= i < |r.history| ensures r.history[i].realizedNetPnl <= 0 {
      FullHaircutRealized(k.history[i].trajectory, k.history[i].adverseElapsedMs, k.history[i].entryCost, c);
    }
    forall i | 0 <= i < |r.outcome.horizonLabels| && !r.outcome.horizonLabels[i].censored
      ensures r.outcome.horizonLabels[i].fullExitNetPnl.Some?
              && r.outcome.horizonLabels[i].fullExitNetPnl.value <= 0
    {
      FullHaircutRow(k.outcome.horizonLabels[i], k.trajectory, entryCost, c);
    }
    FullHaircutRealized(k.trajectory, k.outcome.adverseEventElapsedMs, entryCost, c);
  }
}
