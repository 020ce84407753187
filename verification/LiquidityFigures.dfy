/** What a sizing result reports: which candidate it prefers, whose figures it shows, and
    what its reason says. */
module LiquidityFigures {
  import opened Domain
  import opened LiquiditySizing
  import opened LiquiditySelection
  import opened LiquidityAudit

  /** The selected candidate fits and spends the most of those that fit, at the lowest
      hazard among those that spend as much. */
  lemma SelectionSpendsMost(
    candidates: seq<CandidateEntrySize>, snapshots: seq<LiquiditySnapshot>, c: SizingConstraints)
    requires ValidInputs(candidates, snapshots, c)
    ensures var selected := SelectionFor(candidates, snapshots, c).selected;
            selected.Some? ==>
              && Fits(selected.value, snapshots, c)
              && (exists i :: 0 <= i < |candidates| && candidates[i] == selected.value)
              && forall k :: 0 <= k < |candidates| && Fits(candidates[k], snapshots, c) ==>
                   && candidates[k].quoteAmount <= selected.value.quoteAmount
                   && (candidates[k].quoteAmount == selected.value.quoteAmount ==>
                         selected.value.hazardPpm <= candidates[k].hazardPpm)
  {
    SelectionIsLargest(candidates, snapshots, c);
    var fits := candidate => Fits(candidate, snapshots, c);
    var selected := SelectionFor(candidates, snapshots, c).selected;
    if selected.Some? {
      assert Chosen(fits, candidates, selected.value);
      var i :| FirstLargest(fits, candidates, i) && candidates[i] == selected.value;
      forall k | 0 <= k < |candidates| && Fits(candidates[k], snapshots, c)
        ensures !Better(candidates[k], candidates[i])
      {
        assert fits(candidates[k]);
      }
      assert fits(candidates[i]);
    }
  }

  // ---------- the figures shown ----------

  /** The result shows the figures of the snapshot. */
  ghost predicate Shows(r: LiquiditySizingResult, s: LiquiditySnapshot) {
    && r.dataStartSlot == s.dataStartSlot && r.dataEndSlot == s.dataEndSlot && r.versions == s.versions
    && r.maxOneShotExit == s.maxOneShotExit
    && r.currentExitOutput == s.currentExitOutput && r.stressedExitOutput == s.stressedExitOutput
    && r.failurePpm == s.failurePpm && r.recentVolume == s.recentVolume && r.mismatchCount == s.mismatchCount
  }

  /** The value is the least of a measure over the snapshots. */
  ghost predicate IsLeast(field: LiquiditySnapshot -> int, snapshots: seq<LiquiditySnapshot>, value: int) {
    && (forall k :: 0 <= k < |snapshots| ==> value <= field(snapshots[k]))
    && (exists k :: 0 <= k < |snapshots| && field(snapshots[k]) == value)
  }

  ghost predicate IsGreatest(field: LiquiditySnapshot -> int, snapshots: seq<LiquiditySnapshot>, value: int) {
    && (forall k :: 0 <= k < |snapshots| ==> field(snapshots[k]) <= value)
    && (exists k :: 0 <= k < |snapshots| && field(snapshots[k]) == value)
  }

  lemma LeastIsLeast(field: LiquiditySnapshot -> int, snapshots: seq<LiquiditySnapshot>)
    requires snapshots != []
    ensures IsLeast(field, snapshots, Least(field, snapshots))
  {
    LeastAtLeast(field, snapshots, Least(field, snapshots));
    var values := MapSeq(field, snapshots);
    var i :| 0 <= i < |values| && values[i] == MinOf(values);
    assert field(snapshots[i]) == Least(field, snapshots);
  }

  lemma GreatestIsGreatest(field: LiquiditySnapshot -> int, snapshots: seq<LiquiditySnapshot>)
    requires snapshots != []
    ensures IsGreatest(field, snapshots, Greatest(field, snapshots))
  {
    GreatestAtMost(field, snapshots, Greatest(field, snapshots));
    var values := MapSeq(field, snapshots);
    var i :| 0 <= i < |values| && values[i] == MaxOf(values);
    assert field(snapshots[i]) == Greatest(field, snapshots);
  }

  function DataStart(s: LiquiditySnapshot): int { s.dataStartSlot }
  function DataEnd(s: LiquiditySnapshot): int { s.dataEndSlot }
  function OneShotExit(s: LiquiditySnapshot): int { s.maxOneShotExit }
  function CurrentExit(s: LiquiditySnapshot): int { s.currentExitOutput }
  function StressedExit(s: LiquiditySnapshot): int { s.stressedExitOutput }
  function FailureRate(s: LiquiditySnapshot): int { s.failurePpm }
  function Volume(s: LiquiditySnapshot): int { s.recentVolume }
  function Mismatches(s: LiquiditySnapshot): int { s.mismatchCount }

  /** The result shows, of each measure, the worst over all snapshots. */
  ghost predicate ShowsWorst(r: LiquiditySizingResult, snapshots: seq<LiquiditySnapshot>) {
    && snapshots != [] && r.versions == snapshots[0].versions
    && IsLeast(DataStart, snapshots, r.dataStartSlot) && IsGreatest(DataEnd, snapshots, r.dataEndSlot)
    && IsLeast(OneShotExit, snapshots, r.maxOneShotExit)
    && IsLeast(CurrentExit, snapshots, r.currentExitOutput)
    && IsLeast(StressedExit, snapshots, r.stressedExitOutput)
    && IsGreatest(FailureRate, snapshots, r.failurePpm)
    && IsLeast(Volume, snapshots, r.recentVolume)
    && IsGreatest(Mismatches, snapshots, r.mismatchCount)
  }

  lemma AggregateShowsWorst(snapshots: seq<LiquiditySnapshot>, c: SizingConstraints, r: LiquiditySizingResult)
    requires snapshots != [] && Shows(r, AggregateSnapshot(snapshots, c))
    ensures ShowsWorst(r, snapshots)
  {
    LeastIsLeast((s: LiquiditySnapshot) => s.dataStartSlot, snapshots);
    GreatestIsGreatest((s: LiquiditySnapshot) => s.dataEndSlot, snapshots);
    LeastIsLeast((s: LiquiditySnapshot) => s.maxOneShotExit, snapshots);
    LeastIsLeast((s: LiquiditySnapshot) => s.currentExitOutput, snapshots);
    LeastIsLeast((s: LiquiditySnapshot) => s.stressedExitOutput, snapshots);
    GreatestIsGreatest((s: LiquiditySnapshot) => s.failurePpm, snapshots);
    LeastIsLeast((s: LiquiditySnapshot) => s.recentVolume, snapshots);
    GreatestIsGreatest((s: LiquiditySnapshot) => s.mismatchCount, snapshots);
  }

  /** A selected result shows the snapshot at its position; an empty one shows the worst of
      every measure. */
  lemma ResultShows(
    candidates: seq<CandidateEntrySize>, snapshots: seq<LiquiditySnapshot>, c: SizingConstraints)
    requires ValidInputs(candidates, snapshots, c)
    ensures var r := SelectionFor(candidates, snapshots, c);
            if r.selected == None then ShowsWorst(r, snapshots) && r.selectedPosition == 0
            else r.selectedPosition == r.selected.value.expectedPosition
                 && exists k :: 0 <= k < |snapshots| && snapshots[k].position == r.selectedPosition
                                && Shows(r, snapshots[k])
  {
    var r := SelectionFor(candidates, snapshots, c);
    if Selected(candidates, snapshots, c).Some? {
      var liquidity := SelectedFacts(candidates, snapshots, c);
      assert Shows(r, liquidity);
      assert liquidity.position == r.selectedPosition;
    } else {
      assert Shows(r, AggregateSnapshot(snapshots, c));
      AggregateShowsWorst(snapshots, c, r);
    }
  }

  /** The entry cap of a result is the largest amount within its four caps and within the
      participation share of its volume. */
  lemma CapIsLargest(
    candidates: seq<CandidateEntrySize>, snapshots: seq<LiquiditySnapshot>, c: SizingConstraints, quote: int)
    requires ValidInputs(candidates, snapshots, c)
    ensures var r := SelectionFor(candidates, snapshots, c);
            && r.caps == c.caps && r.limits == c.limits && r.accepted == c.accepted && r.asOfSlot == c.asOfSlot
            && (quote <= r.volumeCap <==> quote * PPM <= r.recentVolume * c.limits.maxParticipationPpm)
            && (quote <= r.maxEntryQuote
                <==> && quote <= c.caps.fixed && quote <= c.caps.bankrollRisk
                     && quote <= c.caps.poolDepth && quote <= c.caps.stressedExit
                     && quote * PPM <= r.recentVolume * c.limits.maxParticipationPpm)
  {
    var r := SelectionFor(candidates, snapshots, c);
    FloorGalois(quote, r.recentVolume * c.limits.maxParticipationPpm, PPM);
  }

  // ---------- the reasons ----------

  /** What a candidate fails under each reason, without rounding. */
  ghost predicate Exceeds(
    reason: SelectionReason, candidate: CandidateEntrySize, s: LiquiditySnapshot, c: SizingConstraints)
  {
    match reason
    case QuoteAboveCap =>
      || candidate.quoteAmount > c.caps.fixed || candidate.quoteAmount > c.caps.bankrollRisk
      || candidate.quoteAmount > c.caps.poolDepth || candidate.quoteAmount > c.caps.stressedExit
    case QuoteAboveVolumeCap => candidate.quoteAmount * PPM > s.recentVolume * c.limits.maxParticipationPpm
    case PositionAboveExitCapacity => candidate.expectedPosition > s.maxOneShotExit
    case ImmediateLossAboveCap => candidate.immediateExitLoss > c.limits.maxImmediateExitLoss
    case HazardAboveCap => candidate.hazardPpm > c.limits.maxHazardPpm
    case FailureAboveCap => s.failurePpm > c.limits.maxFailurePpm
    case MismatchAboveCap => s.mismatchCount > c.limits.maxMismatchCount
    case SelectedLiquiditySize => false
    case NoCandidateWithinCaps => false
  }

  lemma FailsIffExceeds(
    reason: SelectionReason, candidate: CandidateEntrySize, s: LiquiditySnapshot, c: SizingConstraints)
    ensures FailsCheck(reason, candidate, s, c) <==> Exceeds(reason, candidate, s, c)
  {
    FloorGalois(candidate.quoteAmount, s.recentVolume * c.limits.maxParticipationPpm, PPM);
  }

  /** Some candidate exceeds the limit of `reason` at the snapshot of its position. */
  ghost predicate SomeExceeds(
    reason: SelectionReason, candidates: seq<CandidateEntrySize>, snapshots: seq<LiquiditySnapshot>,
    c: SizingConstraints)
  {
    exists i, k :: 0 <= i < |candidates| && 0 <= k < |snapshots|
                   && snapshots[k].position == candidates[i].expectedPosition
                   && Exceeds(reason, candidates[i], snapshots[k], c)
  }

  lemma AnyFailsIffSomeExceeds(
    reason: SelectionReason, candidates: seq<CandidateEntrySize>, snapshots: seq<LiquiditySnapshot>,
    c: SizingConstraints)
    requires ValidInputs(candidates, snapshots, c)
    ensures AnyFails(reason, candidates, snapshots, c) <==> SomeExceeds(reason, candidates, snapshots, c)
  {
    forall i, k | 0 <= i < |candidates| && 0 <= k < |snapshots|
                  && snapshots[k].position == candidates[i].expectedPosition
      ensures LiquidityAt(snapshots, candidates[i].expectedPosition) == snapshots[k]
      ensures FailsCheck(reason, candidates[i], snapshots[k], c) <==> Exceeds(reason, candidates[i], snapshots[k], c)
    {
      SnapshotCovered(candidates, snapshots, c, k);
      FailsIffExceeds(reason, candidates[i], snapshots[k], c);
    }
    if AnyFails(reason, candidates, snapshots, c) {
      var i :| 0 <= i < |candidates| && HasPosition(snapshots, candidates[i].expectedPosition)
               && FailsCheck(reason, candidates[i], LiquidityAt(snapshots, candidates[i].expectedPosition), c);
      var k := LastIndex(snapshots, candidates[i].expectedPosition);
      assert Exceeds(reason, candidates[i], snapshots[k], c);
    }
  }

  const REPORTED_ORDER: seq<SelectionReason> :=
    [QuoteAboveCap, QuoteAboveVolumeCap, PositionAboveExitCapacity, ImmediateLossAboveCap, HazardAboveCap,
     FailureAboveCap, MismatchAboveCap]

  /** The reason of an empty result is the first, in the reported order, under which some
      candidate exceeds a limit. */
  lemma ReasonIsFirstExceeded(
    candidates: seq<CandidateEntrySize>, snapshots: seq<LiquiditySnapshot>, c: SizingConstraints)
    requires ValidInputs(candidates, snapshots, c)
    ensures var r := SelectionFor(candidates, snapshots, c);
            if r.selected != None then r.reason == SelectedLiquiditySize
            else exists n ::
                   && 0 <= n < |REPORTED_ORDER| && r.reason == REPORTED_ORDER[n]
                   && SomeExceeds(r.reason, candidates, snapshots, c)
                   && forall m :: 0 <= m < n ==> !SomeExceeds(REPORTED_ORDER[m], candidates, snapshots, c)
  {
    var r := SelectionFor(candidates, snapshots, c);
    NoSelectionReasonIsFirstFailure(candidates, snapshots, c);
    if r.selected == None {
      forall reason
        ensures AnyFails(reason, candidates, snapshots, c) <==> SomeExceeds(reason, candidates, snapshots, c)
      {
        AnyFailsIffSomeExceeds(reason, candidates, snapshots, c);
      }
      FirstInOrder(r.reason, candidates, snapshots, c);
    }
  }

  lemma FirstInOrder(
    reason: SelectionReason, candidates: seq<CandidateEntrySize>, snapshots: seq<LiquiditySnapshot>,
    c: SizingConstraints)
    requires FirstFailure(reason, candidates, snapshots, c)
    requires forall other ::
               AnyFails(other, candidates, snapshots, c) <==> SomeExceeds(other, candidates, snapshots, c)
    ensures exists n ::
              && 0 <= n < |REPORTED_ORDER| && reason == REPORTED_ORDER[n]
              && SomeExceeds(reason, candidates, snapshots, c)
              && forall m :: 0 <= m < n ==> !SomeExceeds(REPORTED_ORDER[m], candidates, snapshots, c)
  {
    assert reason !in {SelectedLiquiditySize, NoCandidateWithinCaps};
    var n := Rank(reason) - 1;
    assert reason == REPORTED_ORDER[n];
    forall m | 0 <= m < n ensures !SomeExceeds(REPORTED_ORDER[m], candidates, snapshots, c) {
      assert Rank(REPORTED_ORDER[m]) == m + 1;
    }
  }

  // ---------- evidence ----------

  /** The list holds each identifier of some snapshot's list once, and nothing else. */
  ghost predicate Collects(ids: seq<string>, lists: seq<seq<string>>) {
    Distinct(ids) && forall e :: e in ids <==> exists k :: 0 <= k < |lists| && e in lists[k]
  }

  /** A result carries the evidence and the reason codes of all snapshots, each once. */
  lemma ResultCollects(
    candidates: seq<CandidateEntrySize>, snapshots: seq<LiquiditySnapshot>, c: SizingConstraints,
    evidence: seq<seq<string>>, codes: seq<seq<string>>)
    requires ValidInputs(candidates, snapshots, c)
    requires |evidence| == |codes| == |snapshots|
    requires forall k :: 0 <= k < |snapshots| ==>
               evidence[k] == snapshots[k].evidenceIds && codes[k] == snapshots[k].reasonCodes
    ensures Collects(SelectionFor(candidates, snapshots, c).evidenceIds, evidence)
    ensures Collects(SelectionFor(candidates, snapshots, c).liquidityReasonCodes, codes)
  {
    assert evidence == MapSeq((s: LiquiditySnapshot) => s.evidenceIds, snapshots);
    assert codes == MapSeq((s: LiquiditySnapshot) => s.reasonCodes, snapshots);
  }
}
