/** What each figure of a stressed case is, in terms of the points of the case itself. */
module FullExitFigures {
  import opened Domain
  import opened Backtest
  import opened FullExitStress

  // ---------- points ----------

  /** A stressed point: the remaining share of the output, rounded down, and the cost with
      the addition; times, prices and evidence are as before. */
  ghost predicate PointStressed(p: ObservationPoint, c: StressConfig, r: ObservationPoint) {
    && r.fullExitOutput * PPM <= p.fullExitOutput * (PPM - c.outputHaircutPpm) < (r.fullExitOutput + 1) * PPM
    && r.fullExitCost == p.fullExitCost + c.additionalCost
    && r.asOfSlot == p.asOfSlot && r.slot == p.slot && r.eventIndex == p.eventIndex
    && r.elapsedMs == p.elapsedMs && r.price == p.price && r.evidenceIds == p.evidenceIds
  }

  ghost predicate PointsStressed(points: seq<ObservationPoint>, c: StressConfig, stressed: seq<ObservationPoint>) {
    |stressed| == |points| && forall i :: 0 <= i < |points| ==> PointStressed(points[i], c, stressed[i])
  }

  lemma StressAllMeans(points: seq<ObservationPoint>, c: StressConfig)
    ensures PointsStressed(points, c, StressAll(points, c))
  {
    forall i | 0 <= i < |points| ensures PointStressed(points[i], c, StressAll(points, c)[i]) {
      FloorBounds(points[i].fullExitOutput * (PPM - c.outputHaircutPpm), PPM);
    }
  }

  /** What a full exit at a point brings in, net of its cost and the entry cost. */
  ghost function ExitPnl(p: ObservationPoint, entryCost: int): int {
    p.fullExitOutput - p.fullExitCost - entryCost
  }

  // ---------- horizons ----------

  /** `result` is the result of exiting at the last point of the trajectory, in its own
      order, that is not beyond the horizon. */
  ghost predicate PricedAtLast(points: seq<ObservationPoint>, horizonMs: int, entryCost: int, result: Option<int>) {
    exists i ::
      && 0 <= i < |points| && points[i].elapsedMs <= horizonMs
      && (forall j :: i < j < |points| ==> points[j].elapsedMs > horizonMs)
      && result == Some(ExitPnl(points[i], entryCost))
  }

  lemma {:induction false} FilterLast(keep: ObservationPoint -> bool, points: seq<ObservationPoint>) returns (i: nat)
    requires Filter(keep, points) != []
    ensures i < |points| && keep(points[i]) && forall j :: i < j < |points| ==> !keep(points[j])
    ensures Filter(keep, points)[|Filter(keep, points)| - 1] == points[i]
  {
    var rest := points[1..];
    if Filter(keep, rest) != [] {
      var k := FilterLast(keep, rest);
      i := k + 1;
    } else {
      i := 0;
      forall j | 0 < j < |points| ensures !keep(points[j]) {
        assert points[j] == rest[j - 1];
        assert rest[j - 1] in rest;
      }
    }
  }

  lemma RowPriced(row: HorizonLabel, points: seq<ObservationPoint>, entryCost: int)
    requires RowStressable(row, points)
    ensures !row.censored ==>
              PricedAtLast(points, row.horizonMs, entryCost, StressRow(row, points, entryCost).fullExitNetPnl)
    ensures row.censored ==> StressRow(row, points, entryCost) == row
  {
    if !row.censored {
      var keep := (p: ObservationPoint) => p.elapsedMs <= row.horizonMs;
      var i := FilterLast(keep, points);
      assert WithinHorizon(points, row.horizonMs) == Filter(keep, points);
    }
  }

  // ---------- the best exit before an event ----------

  ghost predicate Precedes(p: ObservationPoint, event: Option<int>) {
    event.None? || p.elapsedMs < event.value
  }

  /** `best` is the greatest result of a point before the event, and 0 if there is none. */
  ghost predicate IsBestExit(points: seq<ObservationPoint>, event: Option<int>, entryCost: int, best: int) {
    && (forall i :: 0 <= i < |points| && Precedes(points[i], event) ==> ExitPnl(points[i], entryCost) <= best)
    && (if exists i :: 0 <= i < |points| && Precedes(points[i], event)
        then exists i :: 0 <= i < |points| && Precedes(points[i], event) && ExitPnl(points[i], entryCost) == best
        else best == 0)
  }

  lemma EligiblePoints(points: seq<ObservationPoint>, event: Option<int>)
    ensures forall p :: p in BeforeEvent(points, event) <==> p in points && Precedes(p, event)
  {
  }

  lemma RealizedIsBest(points: seq<ObservationPoint>, event: Option<int>, entryCost: int)
    ensures IsBestExit(points, event, entryCost, HistoricalRealizedPnl(points, event, entryCost))
  {
    var eligible := BeforeEvent(points, event);
    var pnls := PointPnls(eligible, entryCost);
    EligiblePoints(points, event);
    forall i | 0 <= i < |points| && Precedes(points[i], event)
      ensures eligible != [] && ExitPnl(points[i], entryCost) <= MaxOf(pnls)
    {
      assert points[i] in eligible;
      var k :| 0 <= k < |eligible| && eligible[k] == points[i];
      assert pnls[k] in pnls;
    }
    if eligible != [] {
      var k :| 0 <= k < |pnls| && pnls[k] == MaxOf(pnls);
      assert eligible[k] in eligible;
      var i :| 0 <= i < |points| && points[i] == eligible[k];
      assert Precedes(points[i], event);
    }
  }

  // ---------- the case ----------

  /** Every figure of a stressed sample: its points, and the best exit before its event at
      its own entry cost. The rest of the sample is as before. */
  ghost predicate SampleMeans(s: HistorySample, c: StressConfig, r: HistorySample) {
    && PointsStressed(s.trajectory, c, r.trajectory)
    && IsBestExit(r.trajectory, s.adverseElapsedMs, s.entryCost, r.realizedNetPnl)
    && r == s.(trajectory := r.trajectory, realizedNetPnl := r.realizedNetPnl)
  }

  /** Every figure of a stressed outcome: uncensored horizons priced at their last point,
      censored ones untouched, and the best exit before the event. */
  ghost predicate OutcomeMeans(
    o: OutcomeLabels, points: seq<ObservationPoint>, entryCost: int, r: OutcomeLabels)
  {
    && |r.horizonLabels| == |o.horizonLabels|
    && (forall k :: 0 <= k < |o.horizonLabels| ==> RowMeans(o.horizonLabels[k], points, entryCost, r.horizonLabels[k]))
    && r.maxOpportunity.Some?
    && IsBestExit(points, o.adverseEventElapsedMs, entryCost, r.maxOpportunity.value)
    && r == o.(maxOpportunity := r.maxOpportunity, horizonLabels := r.horizonLabels, reasonCodes := r.reasonCodes)
    && (forall code :: code in r.reasonCodes <==> code in o.reasonCodes || code == "full_exit_stress_applied")
    && Distinct(r.reasonCodes)
  }

  ghost predicate RowMeans(row: HorizonLabel, points: seq<ObservationPoint>, entryCost: int, r: HorizonLabel) {
    && (row.censored ==> r == row)
    && (!row.censored ==> PricedAtLast(points, row.horizonMs, entryCost, r.fullExitNetPnl))
    && r == row.(fullExitNetPnl := r.fullExitNetPnl)
  }

  ghost predicate CaseMeans(k: LaunchCase, entryCost: int, c: StressConfig, r: LaunchCase) {
    && PointsStressed(k.trajectory, c, r.trajectory)
    && |r.history| == |k.history|
    && (forall i :: 0 <= i < |k.history| ==> SampleMeans(k.history[i], c, r.history[i]))
    && OutcomeMeans(k.outcome, r.trajectory, entryCost, r.outcome)
    && r == k.(history := r.history, trajectory := r.trajectory, outcome := r.outcome)
  }

  lemma SampleHolds(s: HistorySample, c: StressConfig)
    ensures SampleMeans(s, c, StressSample(s, c))
  {
    StressAllMeans(s.trajectory, c);
    RealizedIsBest(StressAll(s.trajectory, c), s.adverseElapsedMs, s.entryCost);
  }

  lemma OutcomeHolds(o: OutcomeLabels, points: seq<ObservationPoint>, entryCost: int, r: OutcomeLabels)
    requires OutcomeStressed(o, points, entryCost, r)
    ensures OutcomeMeans(o, points, entryCost, r)
  {
    forall k | 0 <= k < |o.horizonLabels|
      ensures RowMeans(o.horizonLabels[k], points, entryCost, r.horizonLabels[k])
    {
      RowPriced(o.horizonLabels[k], points, entryCost);
    }
    RealizedIsBest(points, o.adverseEventElapsedMs, entryCost);
    CodesAdded(o.reasonCodes, r.reasonCodes);
  }

  lemma CodesAdded(before: seq<string>, after: seq<string>)
    requires after == Dedup(before + ["full_exit_stress_applied"])
    ensures forall code :: code in after <==> code in before || code == "full_exit_stress_applied"
  {
    assert forall code :: code in before + ["full_exit_stress_applied"] <==>
        code in before || code == "full_exit_stress_applied";
  }

  /** Every figure of a stressed case is determined by the points it was built from. */
  lemma CaseFigures(k: LaunchCase, entryCost: int, c: StressConfig, r: LaunchCase)
    requires CaseStressed(k, entryCost, c, r)
    ensures CaseMeans(k, entryCost, c, r)
  {
    StressAllMeans(k.trajectory, c);
    forall i | 0 <= i < |k.history| ensures SampleMeans(k.history[i], c, r.history[i]) {
      SampleHolds(k.history[i], c);
    }
    OutcomeHolds(k.outcome, r.trajectory, entryCost, r.outcome);
  }
}
