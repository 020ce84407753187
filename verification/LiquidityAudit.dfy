/** What the entry-size selector guarantees, and when its results survive the
    validator that later re-reads them. */
module LiquidityAudit {
  import opened Domain
  import opened LiquiditySizing
  import opened LiquiditySelection

  /** Some snapshot taken at the candidate's position lets it through every limit. */
  ghost predicate Fits(candidate: CandidateEntrySize, snapshots: seq<LiquiditySnapshot>, c: SizingConstraints) {
    exists k :: 0 <= k < |snapshots| && snapshots[k].position == candidate.expectedPosition
                && WithinLimits(candidate, c.caps, c.limits, snapshots[k].recentVolume, snapshots[k].maxOneShotExit,
                                snapshots[k].failurePpm, snapshots[k].mismatchCount)
  }

  ghost predicate HasCandidate(candidates: seq<CandidateEntrySize>, position: int) {
    exists k :: 0 <= k < |candidates| && candidates[k].expectedPosition == position
  }

  /** Equal position sets: each candidate has a snapshot, and each snapshot a candidate. */
  lemma CoversMeans(snapshots: seq<LiquiditySnapshot>, candidates: seq<CandidateEntrySize>)
    requires Covers(snapshots, candidates)
    ensures forall i :: 0 <= i < |candidates| ==> HasPosition(snapshots, candidates[i].expectedPosition)
    ensures forall i :: 0 <= i < |snapshots| ==> HasCandidate(candidates, snapshots[i].position)
  {
    var at := set i | 0 <= i < |snapshots| :: snapshots[i].position;
    var wanted := set i | 0 <= i < |candidates| :: candidates[i].expectedPosition;
    forall i | 0 <= i < |candidates| ensures HasPosition(snapshots, candidates[i].expectedPosition) {
      assert candidates[i].expectedPosition in wanted;
      assert candidates[i].expectedPosition in at;
    }
    forall i | 0 <= i < |snapshots| ensures HasCandidate(candidates, snapshots[i].position) {
      assert snapshots[i].position in at;
      assert snapshots[i].position in wanted;
    }
  }

  lemma UniqueIsFound(snapshots: seq<LiquiditySnapshot>, i: nat)
    requires i < |snapshots| && UniquePositions(snapshots)
    ensures HasPosition(snapshots, snapshots[i].position)
    ensures LiquidityAt(snapshots, snapshots[i].position) == snapshots[i]
  {
    var found := LiquidityAt(snapshots, snapshots[i].position);
    var j :| 0 <= j < |snapshots| && snapshots[j] == found;
    assert i == j;
  }

  lemma CandidateCovered(
    candidates: seq<CandidateEntrySize>, snapshots: seq<LiquiditySnapshot>, c: SizingConstraints, i: nat)
    requires ValidInputs(candidates, snapshots, c) && i < |candidates|
    ensures HasPosition(snapshots, candidates[i].expectedPosition)
    ensures CandidateError(candidates[i], c.asOfSlot).None?
  {
    CoversMeans(snapshots, candidates);
  }

  lemma SnapshotCovered(
    candidates: seq<CandidateEntrySize>, snapshots: seq<LiquiditySnapshot>, c: SizingConstraints, i: nat)
    requires ValidInputs(candidates, snapshots, c) && i < |snapshots|
    ensures SnapshotError(snapshots[i], c).None?
    ensures HasPosition(snapshots, snapshots[i].position)
    ensures LiquidityAt(snapshots, snapshots[i].position) == snapshots[i]
    ensures HasCandidate(candidates, snapshots[i].position)
  {
    CoversMeans(snapshots, candidates);
    UniqueIsFound(snapshots, i);
  }

  lemma ViableIffFits(
    candidates: seq<CandidateEntrySize>, snapshots: seq<LiquiditySnapshot>, c: SizingConstraints,
    candidate: CandidateEntrySize)
    requires ValidInputs(candidates, snapshots, c)
    ensures Viable(candidate, snapshots, c) <==> Fits(candidate, snapshots, c)
  {
    forall k | 0 <= k < |snapshots| && snapshots[k].position == candidate.expectedPosition
      ensures LiquidityAt(snapshots, candidate.expectedPosition) == snapshots[k]
      ensures CandidateIsViable(candidate, snapshots[k], c) <==>
              WithinLimits(candidate, c.caps, c.limits, snapshots[k].recentVolume, snapshots[k].maxOneShotExit,
                           snapshots[k].failurePpm, snapshots[k].mismatchCount)
    {
      SnapshotCovered(candidates, snapshots, c, k);
      ViableIff(candidate, snapshots[k], c);
    }
  }

  /** A size is selected exactly when some candidate fits. The selected one is the
      first of the fitting candidates that none of them betters. */
  lemma SelectionIsLargest(
    candidates: seq<CandidateEntrySize>, snapshots: seq<LiquiditySnapshot>, c: SizingConstraints)
    requires ValidInputs(candidates, snapshots, c)
    ensures SelectionFor(candidates, snapshots, c).selected.None? <==>
            NoneViable(candidate => Fits(candidate, snapshots, c), candidates)
    ensures SelectionFor(candidates, snapshots, c).selected.Some? ==>
              Chosen(candidate => Fits(candidate, snapshots, c), candidates,
                     SelectionFor(candidates, snapshots, c).selected.value)
  {
    var viable := candidate => Viable(candidate, snapshots, c);
    var fits := candidate => Fits(candidate, snapshots, c);
    forall k | 0 <= k < |candidates| ensures viable(candidates[k]) <==> fits(candidates[k]) {
      ViableIffFits(candidates, snapshots, c, candidates[k]);
    }
    LargestViableIsFirst(viable, candidates);
    var selected := SelectionFor(candidates, snapshots, c).selected;
    assert selected == LargestViable(viable, candidates);
    if selected.Some? {
      var i :| FirstLargest(viable, candidates, i) && candidates[i] == selected.value;
      assert FirstLargest(fits, candidates, i);
      assert Chosen(fits, candidates, selected.value);
    }
  }

  // ---------- results and their validator ----------

  /** A snapshot whose report can pass the checks that do not concern risk caps. */
  ghost predicate Reportable(s: LiquiditySnapshot, c: SizingConstraints) {
    && 0 <= s.dataStartSlot <= s.dataEndSlot == c.asOfSlot
    && VersionsOk(s.versions, c.accepted)
    && s.maxOneShotExit > 0 && s.currentExitOutput > 0 && s.stressedExitOutput > 0
    && s.recentVolume >= 0 && s.mismatchCount >= 0 && ProbabilityPpm(s.failurePpm)
  }

  lemma CombinedIds(xss: seq<seq<string>>)
    requires xss != [] && forall k :: 0 <= k < |xss| ==> NonEmptyIds(xss[k])
    ensures NonEmptyIds(Dedup(Flatten(xss)))
  {
    var ids := Dedup(Flatten(xss));
    assert xss[0][0] in xss[0];
    assert xss[0][0] in ids;
    forall k | 0 <= k < |ids| ensures ids[k] != "" {
      assert ids[k] in Flatten(xss);
    }
  }

  lemma CombinedIdsOk(
    candidates: seq<CandidateEntrySize>, snapshots: seq<LiquiditySnapshot>, c: SizingConstraints)
    requires ValidInputs(candidates, snapshots, c)
    ensures NonEmptyIds(CombinedEvidenceIds(snapshots)) && NonEmptyIds(CombinedReasonCodes(snapshots))
  {
    forall k | 0 <= k < |snapshots| ensures SnapshotError(snapshots[k], c).None? {
      SnapshotCovered(candidates, snapshots, c, k);
    }
    CombinedIds(MapSeq((s: LiquiditySnapshot) => s.evidenceIds, snapshots));
    CombinedIds(MapSeq((s: LiquiditySnapshot) => s.reasonCodes, snapshots));
  }

  /** A report without a selected size is accepted exactly when it is within the risk caps. */
  lemma ReportAccepted(
    candidates: seq<CandidateEntrySize>, snapshots: seq<LiquiditySnapshot>, c: SizingConstraints,
    liquidity: LiquiditySnapshot, reason: SelectionReason)
    requires ValidInputs(candidates, snapshots, c) && Reportable(liquidity, c)
    ensures LoadedError(Report(None, liquidity, snapshots, c, reason)).None? <==>
            liquidity.failurePpm <= c.limits.maxFailurePpm && liquidity.mismatchCount <= c.limits.maxMismatchCount
  {
    CombinedIdsOk(candidates, snapshots, c);
    FloorGalois(0, liquidity.recentVolume * c.limits.maxParticipationPpm, PPM);
  }

  /** The selected candidate is an accepted one and is viable at its snapshot, which is reportable. */
  lemma SelectedFacts(
    candidates: seq<CandidateEntrySize>, snapshots: seq<LiquiditySnapshot>, c: SizingConstraints)
    returns (liquidity: LiquiditySnapshot)
    requires ValidInputs(candidates, snapshots, c) && Selected(candidates, snapshots, c).Some?
    ensures var selected := Selected(candidates, snapshots, c);
            && CandidateError(selected.value, c.asOfSlot).None?
            && CandidateIsViable(selected.value, liquidity, c)
            && liquidity == ReportedLiquidity(selected, snapshots, c)
            && HasPosition(snapshots, selected.value.expectedPosition)
            && liquidity == LiquidityAt(snapshots, selected.value.expectedPosition)
    ensures Reportable(liquidity, c)
  {
    var viable := candidate => Viable(candidate, snapshots, c);
    LargestViableIsFirst(viable, candidates);
    var selected := Selected(candidates, snapshots, c).value;
    var i :| FirstLargest(viable, candidates, i) && candidates[i] == selected;
    CandidateCovered(candidates, snapshots, c, i);
    liquidity := LiquidityAt(snapshots, selected.expectedPosition);
    SnapshotCovered(candidates, snapshots, c, LastIndex(snapshots, selected.expectedPosition));
  }

  /** Every result with a selected size passes the independent validator. */
  lemma SelectedResultAccepted(
    candidates: seq<CandidateEntrySize>, snapshots: seq<LiquiditySnapshot>, c: SizingConstraints)
    requires ValidInputs(candidates, snapshots, c)
    ensures SelectionFor(candidates, snapshots, c).selected.Some? ==>
              LoadedError(SelectionFor(candidates, snapshots, c)).None?
  {
    if Selected(candidates, snapshots, c).Some? {
      var liquidity := SelectedFacts(candidates, snapshots, c);
      ReportAccepted(candidates, snapshots, c, liquidity, SelectedLiquiditySize);
      SelectionAddsNoError(Selected(candidates, snapshots, c).value, liquidity, snapshots, c);
    }
  }

  lemma SelectionAddsNoError(
    selected: CandidateEntrySize, liquidity: LiquiditySnapshot, snapshots: seq<LiquiditySnapshot>,
    c: SizingConstraints)
    requires CandidateError(selected, c.asOfSlot).None? && CandidateIsViable(selected, liquidity, c)
    requires LoadedError(Report(None, liquidity, snapshots, c, SelectedLiquiditySize)).None?
    ensures LoadedError(Report(Some(selected), liquidity, snapshots, c, SelectedLiquiditySize)).None?
  {
    assert LoadedRiskCapsOk(Report(Some(selected), liquidity, snapshots, c, SelectedLiquiditySize));
    assert SelectedSizeOk(selected, Report(Some(selected), liquidity, snapshots, c, SelectedLiquiditySize));
  }

  lemma GreatestAtMost(field: LiquiditySnapshot -> int, snapshots: seq<LiquiditySnapshot>, bound: int)
    requires snapshots != []
    ensures Greatest(field, snapshots) <= bound <==> forall k :: 0 <= k < |snapshots| ==> field(snapshots[k]) <= bound
  {
    var values := MapSeq(field, snapshots);
    forall k | 0 <= k < |snapshots| ensures field(snapshots[k]) <= Greatest(field, snapshots) {
      assert values[k] in values;
    }
    var i :| 0 <= i < |values| && values[i] == MaxOf(values);
  }

  lemma LeastAtLeast(field: LiquiditySnapshot -> int, snapshots: seq<LiquiditySnapshot>, bound: int)
    requires snapshots != []
    ensures Least(field, snapshots) >= bound <==> forall k :: 0 <= k < |snapshots| ==> field(snapshots[k]) >= bound
  {
    var values := MapSeq(field, snapshots);
    forall k | 0 <= k < |snapshots| ensures field(snapshots[k]) >= Least(field, snapshots) {
      assert values[k] in values;
    }
    var i :| 0 <= i < |values| && values[i] == MinOf(values);
  }

  lemma AggregateReportable(
    candidates: seq<CandidateEntrySize>, snapshots: seq<LiquiditySnapshot>, c: SizingConstraints)
    requires ValidInputs(candidates, snapshots, c)
    ensures Reportable(AggregateSnapshot(snapshots, c), c)
  {
    forall k | 0 <= k < |snapshots| ensures SnapshotError(snapshots[k], c).None? {
      SnapshotCovered(candidates, snapshots, c, k);
    }
    AggregateLeasts(snapshots, c);
    AggregateGreatests(snapshots, c);
    AggregateInterval(snapshots, c);
  }

  lemma AggregateLeasts(snapshots: seq<LiquiditySnapshot>, c: SizingConstraints)
    requires snapshots != [] && forall k :: 0 <= k < |snapshots| ==> SnapshotError(snapshots[k], c).None?
    ensures var s := AggregateSnapshot(snapshots, c);
            s.maxOneShotExit > 0 && s.currentExitOutput > 0 && s.stressedExitOutput > 0 && s.recentVolume >= 0
  {
    LeastAtLeast((s: LiquiditySnapshot) => s.maxOneShotExit, snapshots, 1);
    LeastAtLeast((s: LiquiditySnapshot) => s.currentExitOutput, snapshots, 1);
    LeastAtLeast((s: LiquiditySnapshot) => s.stressedExitOutput, snapshots, 1);
    LeastAtLeast((s: LiquiditySnapshot) => s.recentVolume, snapshots, 0);
  }

  lemma AggregateGreatests(snapshots: seq<LiquiditySnapshot>, c: SizingConstraints)
    requires snapshots != [] && forall k :: 0 <= k < |snapshots| ==> SnapshotError(snapshots[k], c).None?
    ensures var s := AggregateSnapshot(snapshots, c); s.mismatchCount >= 0 && ProbabilityPpm(s.failurePpm)
  {
    GreatestAtMost((s: LiquiditySnapshot) => s.mismatchCount, snapshots, -1);
    GreatestAtMost((s: LiquiditySnapshot) => s.failurePpm, snapshots, -1);
    GreatestAtMost((s: LiquiditySnapshot) => s.failurePpm, snapshots, PPM);
  }

  lemma AggregateInterval(snapshots: seq<LiquiditySnapshot>, c: SizingConstraints)
    requires snapshots != [] && forall k :: 0 <= k < |snapshots| ==> SnapshotError(snapshots[k], c).None?
    ensures 0 <= AggregateSnapshot(snapshots, c).dataStartSlot <= AggregateSnapshot(snapshots, c).dataEndSlot
            == c.asOfSlot
  {
    LeastAtLeast((s: LiquiditySnapshot) => s.dataStartSlot, snapshots, 0);
    LeastAtLeast((s: LiquiditySnapshot) => s.dataStartSlot, snapshots, c.asOfSlot + 1);
    GreatestAtMost((s: LiquiditySnapshot) => s.dataEndSlot, snapshots, c.asOfSlot);
    GreatestAtMost((s: LiquiditySnapshot) => s.dataEndSlot, snapshots, c.asOfSlot - 1);
  }

  /** Every snapshot is within the failure and mismatch caps. */
  ghost predicate WithinRiskCaps(snapshots: seq<LiquiditySnapshot>, c: SizingConstraints) {
    forall k :: 0 <= k < |snapshots| ==>
      snapshots[k].failurePpm <= c.limits.maxFailurePpm && snapshots[k].mismatchCount <= c.limits.maxMismatchCount
  }

  /** A result without a selected size is accepted exactly when every snapshot is
      within the risk caps; otherwise its own validator rejects it. */
  lemma NoSelectionAcceptedIff(
    candidates: seq<CandidateEntrySize>, snapshots: seq<LiquiditySnapshot>, c: SizingConstraints)
    requires ValidInputs(candidates, snapshots, c)
    requires SelectionFor(candidates, snapshots, c).selected.None?
    ensures LoadedError(SelectionFor(candidates, snapshots, c)).None? <==> WithinRiskCaps(snapshots, c)
  {
    AggregateReportable(candidates, snapshots, c);
    ReportAccepted(candidates, snapshots, c, AggregateSnapshot(snapshots, c),
                   NoSelectionReason(candidates, snapshots, c));
    GreatestAtMost((s: LiquiditySnapshot) => s.failurePpm, snapshots, c.limits.maxFailurePpm);
    GreatestAtMost((s: LiquiditySnapshot) => s.mismatchCount, snapshots, c.limits.maxMismatchCount);
  }

  /** On valid inputs the selector's result passes its validator exactly when some
      candidate fits, or every snapshot is within the risk caps. */
  lemma ResultAcceptedIff(
    candidates: seq<CandidateEntrySize>, snapshots: seq<LiquiditySnapshot>, c: SizingConstraints)
    requires ValidInputs(candidates, snapshots, c)
    ensures LoadedError(SelectionFor(candidates, snapshots, c)).None?
            <==> || (exists k :: 0 <= k < |candidates| && Fits(candidates[k], snapshots, c))
                 || WithinRiskCaps(snapshots, c)
  {
    SelectionIsLargest(candidates, snapshots, c);
    SelectedResultAccepted(candidates, snapshots, c);
    if SelectionFor(candidates, snapshots, c).selected.None? {
      NoSelectionAcceptedIff(candidates, snapshots, c);
    }
  }

  // ---------- the reported reason ----------

  /** `reason` is the first of the seven checks that some candidate fails. */
  ghost predicate FirstFailure(
    reason: SelectionReason, candidates: seq<CandidateEntrySize>, snapshots: seq<LiquiditySnapshot>,
    c: SizingConstraints)
  {
    && AnyFails(reason, candidates, snapshots, c)
    && forall earlier :: Rank(earlier) < Rank(reason) ==> !AnyFails(earlier, candidates, snapshots, c)
  }

  lemma ReasonIsFirstFailure(
    failed: SelectionReason, candidates: seq<CandidateEntrySize>, snapshots: seq<LiquiditySnapshot>,
    c: SizingConstraints)
    requires AnyFails(failed, candidates, snapshots, c)
    ensures FirstFailure(NoSelectionReason(candidates, snapshots, c), candidates, snapshots, c)
    ensures NoSelectionReason(candidates, snapshots, c) != NoCandidateWithinCaps
  {
    assert !AnyFails(SelectedLiquiditySize, candidates, snapshots, c);
    assert !AnyFails(NoCandidateWithinCaps, candidates, snapshots, c);
  }

  lemma SomeCheckFails(
    candidates: seq<CandidateEntrySize>, snapshots: seq<LiquiditySnapshot>, c: SizingConstraints)
    returns (reason: SelectionReason)
    requires ValidInputs(candidates, snapshots, c)
    requires SelectionFor(candidates, snapshots, c).selected.None?
    ensures AnyFails(reason, candidates, snapshots, c)
  {
    var viable := candidate => Viable(candidate, snapshots, c);
    LargestViableIsFirst(viable, candidates);
    assert NoneViable(viable, candidates);
    assert !viable(candidates[0]);
    CandidateCovered(candidates, snapshots, c, 0);
    var liquidity := LiquidityAt(snapshots, candidates[0].expectedPosition);
    NotViableFails(candidates[0], liquidity, c);
    reason :| FailsCheck(reason, candidates[0], liquidity, c);
  }

  /** The reason for selecting nothing is the first check, in the reported order,
      that some candidate fails; the fall-through reason is never reported. */
  lemma NoSelectionReasonIsFirstFailure(
    candidates: seq<CandidateEntrySize>, snapshots: seq<LiquiditySnapshot>, c: SizingConstraints)
    requires ValidInputs(candidates, snapshots, c)
    ensures SelectionFor(candidates, snapshots, c).selected.None? ==>
              && FirstFailure(SelectionFor(candidates, snapshots, c).reason, candidates, snapshots, c)
              && SelectionFor(candidates, snapshots, c).reason != NoCandidateWithinCaps
  {
    var result := SelectionFor(candidates, snapshots, c);
    if result.selected.None? {
      assert result.reason == NoSelectionReason(candidates, snapshots, c);
      var failed := SomeCheckFails(candidates, snapshots, c);
      ReasonIsFirstFailure(failed, candidates, snapshots, c);
      assert FirstFailure(result.reason, candidates, snapshots, c);
    }
  }

  lemma RiskFailureIsASnapshots(
    reason: SelectionReason, candidates: seq<CandidateEntrySize>, snapshots: seq<LiquiditySnapshot>,
    c: SizingConstraints)
    requires reason in {FailureAboveCap, MismatchAboveCap} && AnyFails(reason, candidates, snapshots, c)
    ensures exists j :: 0 <= j < |snapshots| && (snapshots[j].failurePpm > c.limits.maxFailurePpm
                                                 || snapshots[j].mismatchCount > c.limits.maxMismatchCount)
  {
    var k :| 0 <= k < |candidates| && HasPosition(snapshots, candidates[k].expectedPosition)
             && FailsCheck(reason, candidates[k], LiquidityAt(snapshots, candidates[k].expectedPosition), c);
    var j :| 0 <= j < |snapshots| && snapshots[j] == LiquidityAt(snapshots, candidates[k].expectedPosition);
  }

  /** So a result that blames the exit-failure rate or the volume mismatch is one its validator rejects. */
  lemma RiskReasonsAreRejected(
    candidates: seq<CandidateEntrySize>, snapshots: seq<LiquiditySnapshot>, c: SizingConstraints)
    requires ValidInputs(candidates, snapshots, c)
    ensures SelectionFor(candidates, snapshots, c).reason in {FailureAboveCap, MismatchAboveCap} ==>
              LoadedError(SelectionFor(candidates, snapshots, c)).Some?
  {
    var result := SelectionFor(candidates, snapshots, c);
    if result.selected.None? && result.reason in {FailureAboveCap, MismatchAboveCap} {
      NoSelectionReasonIsFirstFailure(candidates, snapshots, c);
      NoSelectionAcceptedIff(candidates, snapshots, c);
      RiskFailureIsASnapshots(result.reason, candidates, snapshots, c);
    }
  }

  // ---------- a result that its own validator rejects ----------

  const V := "v1"
  const WITNESS_VERSIONS: ArtifactVersions := ArtifactVersions(V, V, V, V, V, V, V, V)
  const WITNESS_CONSTRAINTS: SizingConstraints :=
    SizingConstraints(5, AcceptedVersions([V], [V], [V], [V], [V], [V], [V], [V]),
                      QuoteCaps(100, 100, 100, 100), RiskLimits(0, 0, 1_000, PPM, 0))
  const WITNESS_CANDIDATE: CandidateEntrySize := CandidateEntrySize(5, 10, 7, 0, 1, 0)
  const WITNESS_SNAPSHOT: LiquiditySnapshot :=
    LiquiditySnapshot(5, 0, 5, WITNESS_VERSIONS, 7, 7, 1, 1, 2_000, 100, 0, ["e"], ["r"])

  lemma WitnessValid()
    ensures ValidInputs([WITNESS_CANDIDATE], [WITNESS_SNAPSHOT], WITNESS_CONSTRAINTS)
  {
    var candidates, snapshots := [WITNESS_CANDIDATE], [WITNESS_SNAPSHOT];
    assert V[0] == 'v' && !IsWhitespace(V[0]);
    assert VersionOk(V, [V]) && VersionList([V]);
    assert ListsOk(WITNESS_CONSTRAINTS.accepted) && VersionsOk(WITNESS_VERSIONS, WITNESS_CONSTRAINTS.accepted);
    assert ConstraintsError(WITNESS_CONSTRAINTS).None?;
    assert SnapshotError(WITNESS_SNAPSHOT, WITNESS_CONSTRAINTS).None?;
    assert snapshots[0].position == 7 && candidates[0].expectedPosition == 7;
    assert 7 in (set i | 0 <= i < |snapshots| :: snapshots[i].position);
    assert 7 in (set i | 0 <= i < |candidates| :: candidates[i].expectedPosition);
    assert Covers(snapshots, candidates);
  }

  /** One candidate, one snapshot whose failure rate is twice the cap: nothing is
      selected, the failure cap is blamed, and the validator rejects the result. */
  lemma RejectedByItsValidator()
    ensures ValidInputs([WITNESS_CANDIDATE], [WITNESS_SNAPSHOT], WITNESS_CONSTRAINTS)
    ensures var result := SelectionFor([WITNESS_CANDIDATE], [WITNESS_SNAPSHOT], WITNESS_CONSTRAINTS);
            result.selected.None? && result.reason == FailureAboveCap && LoadedError(result).Some?
  {
    var candidates, snapshots, c := [WITNESS_CANDIDATE], [WITNESS_SNAPSHOT], WITNESS_CONSTRAINTS;
    WitnessValid();
    SelectionIsLargest(candidates, snapshots, c);
    assert !Fits(WITNESS_CANDIDATE, snapshots, c);
    NoSelectionReasonIsFirstFailure(candidates, snapshots, c);
    NoSelectionAcceptedIff(candidates, snapshots, c);
    assert snapshots[0].failurePpm > c.limits.maxFailurePpm;
    SnapshotCovered(candidates, snapshots, c, 0);
    var reason := SelectionFor(candidates, snapshots, c).reason;
    assert FailsCheck(reason, WITNESS_CANDIDATE, WITNESS_SNAPSHOT, c);
  }
}
