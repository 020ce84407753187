/** The entry-size selector and the independent validator of its results: what
    the selector picks is the largest size that can be exited, and the validator
    accepts it. */
module LiquiditySelection {
  import opened Domain
  import opened LiquiditySizing

  ghost predicate ValidInputs(
    candidates: seq<CandidateEntrySize>, snapshots: seq<LiquiditySnapshot>, c: SizingConstraints)
  {
    && ConstraintsError(c).None?
    && candidates != []
    && CandidatesError(candidates, c.asOfSlot).None?
    && SnapshotsError(snapshots, candidates, c).None?
  }

  // ---------- viability ----------

  predicate HasPosition(snapshots: seq<LiquiditySnapshot>, position: int) {
    exists k :: 0 <= k < |snapshots| && snapshots[k].position == position
  }

  function LastIndex(snapshots: seq<LiquiditySnapshot>, position: int): (i: nat)
    requires HasPosition(snapshots, position)
    ensures i < |snapshots| && snapshots[i].position == position
    ensures forall k :: i < k < |snapshots| ==> snapshots[k].position != position
  {
    var last := |snapshots| - 1;
    if snapshots[last].position == position then last
    else
      assert forall k :: 0 <= k < last ==> snapshots[..last][k] == snapshots[k];
      LastIndex(snapshots[..last], position)
  }

  /** The snapshot kept for a position: a later one replaces an earlier one. */
  function LiquidityAt(snapshots: seq<LiquiditySnapshot>, position: int): (r: LiquiditySnapshot)
    requires HasPosition(snapshots, position)
    ensures r.position == position
    ensures exists k :: 0 <= k < |snapshots| && snapshots[k] == r
  {
    snapshots[LastIndex(snapshots, position)]
  }

  function CandidateQuoteCap(globalCap: int, liquidity: LiquiditySnapshot, limits: RiskLimits): int {
    Min(globalCap, ParticipationCap(liquidity.recentVolume, limits.maxParticipationPpm))
  }

  predicate CandidateIsViable(candidate: CandidateEntrySize, liquidity: LiquiditySnapshot, c: SizingConstraints) {
    && candidate.quoteAmount <= CandidateQuoteCap(MinimumQuoteCap(c.caps), liquidity, c.limits)
    && candidate.expectedPosition <= liquidity.maxOneShotExit
    && candidate.immediateExitLoss <= c.limits.maxImmediateExitLoss
    && candidate.hazardPpm <= c.limits.maxHazardPpm
    && liquidity.failurePpm <= c.limits.maxFailurePpm
    && liquidity.mismatchCount <= c.limits.maxMismatchCount
  }

  predicate Viable(candidate: CandidateEntrySize, snapshots: seq<LiquiditySnapshot>, c: SizingConstraints) {
    HasPosition(snapshots, candidate.expectedPosition)
    && CandidateIsViable(candidate, LiquidityAt(snapshots, candidate.expectedPosition), c)
  }

  /** Within every quote cap and every risk limit, with no rounding. */
  ghost predicate WithinLimits(
    candidate: CandidateEntrySize, caps: QuoteCaps, limits: RiskLimits, recentVolume: int, maxOneShotExit: int,
    failurePpm: int, mismatchCount: int)
  {
    && candidate.quoteAmount <= caps.fixed && candidate.quoteAmount <= caps.bankrollRisk
    && candidate.quoteAmount <= caps.poolDepth && candidate.quoteAmount <= caps.stressedExit
    && candidate.quoteAmount * PPM <= recentVolume * limits.maxParticipationPpm
    && candidate.expectedPosition <= maxOneShotExit
    && candidate.immediateExitLoss <= limits.maxImmediateExitLoss
    && candidate.hazardPpm <= limits.maxHazardPpm
    && failurePpm <= limits.maxFailurePpm
    && mismatchCount <= limits.maxMismatchCount
  }

  lemma ViableIff(candidate: CandidateEntrySize, liquidity: LiquiditySnapshot, c: SizingConstraints)
    ensures CandidateIsViable(candidate, liquidity, c) <==>
            WithinLimits(candidate, c.caps, c.limits, liquidity.recentVolume, liquidity.maxOneShotExit,
                         liquidity.failurePpm, liquidity.mismatchCount)
  {
    FloorGalois(candidate.quoteAmount, liquidity.recentVolume * c.limits.maxParticipationPpm, PPM);
  }

  // ---------- the largest viable candidate ----------

  /** A larger quote amount, or the same amount at a lower hazard. */
  predicate Better(a: CandidateEntrySize, b: CandidateEntrySize) {
    a.quoteAmount > b.quoteAmount || (a.quoteAmount == b.quoteAmount && a.hazardPpm < b.hazardPpm)
  }

  function Largest(candidates: seq<CandidateEntrySize>): CandidateEntrySize
    requires candidates != []
  {
    if |candidates| == 1 then candidates[0]
    else
      var rest := Largest(candidates[1..]);
      if Better(rest, candidates[0]) then rest else candidates[0]
  }

  function LargestViable(viable: CandidateEntrySize -> bool, candidates: seq<CandidateEntrySize>)
    : Option<CandidateEntrySize>
  {
    var kept := Filter(viable, candidates);
    if kept == [] then None else Some(Largest(kept))
  }

  /** `i` is the first viable candidate that no viable candidate betters. */
  ghost predicate FirstLargest(viable: CandidateEntrySize -> bool, candidates: seq<CandidateEntrySize>, i: int) {
    && 0 <= i < |candidates| && viable(candidates[i])
    && (forall k :: 0 <= k < |candidates| && viable(candidates[k]) ==> !Better(candidates[k], candidates[i]))
    && (forall k :: 0 <= k < i && viable(candidates[k]) ==> Better(candidates[i], candidates[k]))
  }

  ghost predicate NoneViable(viable: CandidateEntrySize -> bool, candidates: seq<CandidateEntrySize>) {
    forall k :: 0 <= k < |candidates| ==> !viable(candidates[k])
  }

  /** `chosen` is the first viable candidate that no viable candidate betters. */
  ghost predicate Chosen(
    viable: CandidateEntrySize -> bool, candidates: seq<CandidateEntrySize>, chosen: CandidateEntrySize)
  {
    exists i :: FirstLargest(viable, candidates, i) && candidates[i] == chosen
  }

  lemma TailChosen(
    viable: CandidateEntrySize -> bool, candidates: seq<CandidateEntrySize>, chosen: CandidateEntrySize)
    requires candidates != [] && Chosen(viable, candidates[1..], chosen)
    requires viable(candidates[0]) ==> Better(chosen, candidates[0])
    ensures Chosen(viable, candidates, chosen)
  {
    var rest := candidates[1..];
    var i :| FirstLargest(viable, rest, i) && rest[i] == chosen;
    assert forall k :: 0 < k < |candidates| ==> candidates[k] == rest[k - 1];
    assert FirstLargest(viable, candidates, i + 1);
  }

  lemma HeadChosen(
    viable: CandidateEntrySize -> bool, candidates: seq<CandidateEntrySize>, other: CandidateEntrySize)
    requires candidates != [] && viable(candidates[0])
    requires NoneViable(viable, candidates[1..])
             || (Chosen(viable, candidates[1..], other) && !Better(other, candidates[0]))
    ensures Chosen(viable, candidates, candidates[0])
  {
    var rest := candidates[1..];
    assert forall k :: 0 < k < |candidates| ==> candidates[k] == rest[k - 1];
    assert FirstLargest(viable, candidates, 0);
  }

  lemma KeptHead(viable: CandidateEntrySize -> bool, candidates: seq<CandidateEntrySize>)
    requires candidates != [] && viable(candidates[0])
    ensures var rest := LargestViable(viable, candidates[1..]);
            LargestViable(viable, candidates)
            == if rest.Some? && Better(rest.value, candidates[0]) then rest else Some(candidates[0])
  {
    var kept := Filter(viable, candidates[1..]);
    assert Filter(viable, candidates) == [candidates[0]] + kept;
    assert ([candidates[0]] + kept)[1..] == kept;
  }

  lemma {:induction false} LargestViableIsFirst(viable: CandidateEntrySize -> bool, candidates: seq<CandidateEntrySize>)
    ensures LargestViable(viable, candidates).None? <==> NoneViable(viable, candidates)
    ensures LargestViable(viable, candidates).Some? ==>
              Chosen(viable, candidates, LargestViable(viable, candidates).value)
  {
    if candidates != [] {
      var head, rest := candidates[0], candidates[1..];
      LargestViableIsFirst(viable, rest);
      var later := LargestViable(viable, rest);
      assert forall k :: 0 < k < |candidates| ==> candidates[k] == rest[k - 1];
      if !viable(head) {
        if later.Some? {
          TailChosen(viable, candidates, later.value);
        }
      } else {
        KeptHead(viable, candidates);
        if later.Some? && Better(later.value, head) {
          TailChosen(viable, candidates, later.value);
        } else {
          HeadChosen(viable, candidates, if later.Some? then later.value else head);
        }
      }
    }
  }

  // ---------- why nothing was selected ----------

  /** The seven checks, in the order in which they are reported. */
  function Rank(reason: SelectionReason): nat {
    match reason
    case SelectedLiquiditySize => 0
    case QuoteAboveCap => 1
    case QuoteAboveVolumeCap => 2
    case PositionAboveExitCapacity => 3
    case ImmediateLossAboveCap => 4
    case HazardAboveCap => 5
    case FailureAboveCap => 6
    case MismatchAboveCap => 7
    case NoCandidateWithinCaps => 8
  }

  predicate FailsCheck(
    reason: SelectionReason, candidate: CandidateEntrySize, liquidity: LiquiditySnapshot, c: SizingConstraints)
  {
    match reason
    case SelectedLiquiditySize => false
    case QuoteAboveCap => candidate.quoteAmount > MinimumQuoteCap(c.caps)
    case QuoteAboveVolumeCap =>
      candidate.quoteAmount > ParticipationCap(liquidity.recentVolume, c.limits.maxParticipationPpm)
    case PositionAboveExitCapacity => candidate.expectedPosition > liquidity.maxOneShotExit
    case ImmediateLossAboveCap => candidate.immediateExitLoss > c.limits.maxImmediateExitLoss
    case HazardAboveCap => candidate.hazardPpm > c.limits.maxHazardPpm
    case FailureAboveCap => liquidity.failurePpm > c.limits.maxFailurePpm
    case MismatchAboveCap => liquidity.mismatchCount > c.limits.maxMismatchCount
    case NoCandidateWithinCaps => false
  }

  predicate AnyFails(
    reason: SelectionReason, candidates: seq<CandidateEntrySize>, snapshots: seq<LiquiditySnapshot>,
    c: SizingConstraints)
  {
    exists k :: 0 <= k < |candidates| && HasPosition(snapshots, candidates[k].expectedPosition)
                && FailsCheck(reason, candidates[k], LiquidityAt(snapshots, candidates[k].expectedPosition), c)
  }

  function NoSelectionReason(
    candidates: seq<CandidateEntrySize>, snapshots: seq<LiquiditySnapshot>, c: SizingConstraints): SelectionReason
  {
    if AnyFails(QuoteAboveCap, candidates, snapshots, c) then QuoteAboveCap
    else if AnyFails(QuoteAboveVolumeCap, candidates, snapshots, c) then QuoteAboveVolumeCap
    else if AnyFails(PositionAboveExitCapacity, candidates, snapshots, c) then PositionAboveExitCapacity
    else if AnyFails(ImmediateLossAboveCap, candidates, snapshots, c) then ImmediateLossAboveCap
    else if AnyFails(HazardAboveCap, candidates, snapshots, c) then HazardAboveCap
    else if AnyFails(FailureAboveCap, candidates, snapshots, c) then FailureAboveCap
    else if AnyFails(MismatchAboveCap, candidates, snapshots, c) then MismatchAboveCap
    else NoCandidateWithinCaps
  }

  /** A candidate with no viable size fails one of the seven checks. */
  lemma NotViableFails(candidate: CandidateEntrySize, liquidity: LiquiditySnapshot, c: SizingConstraints)
    ensures CandidateIsViable(candidate, liquidity, c) <==>
            forall reason :: !FailsCheck(reason, candidate, liquidity, c)
  {
    if forall reason :: !FailsCheck(reason, candidate, liquidity, c) {
      assert !FailsCheck(QuoteAboveCap, candidate, liquidity, c);
      assert !FailsCheck(QuoteAboveVolumeCap, candidate, liquidity, c);
      assert !FailsCheck(PositionAboveExitCapacity, candidate, liquidity, c);
      assert !FailsCheck(ImmediateLossAboveCap, candidate, liquidity, c);
      assert !FailsCheck(HazardAboveCap, candidate, liquidity, c);
      assert !FailsCheck(FailureAboveCap, candidate, liquidity, c);
      assert !FailsCheck(MismatchAboveCap, candidate, liquidity, c);
    }
  }

  // ---------- the result ----------

  function Least(field: LiquiditySnapshot -> int, snapshots: seq<LiquiditySnapshot>): int
    requires snapshots != []
  {
    MinOf(MapSeq(field, snapshots))
  }

  function Greatest(field: LiquiditySnapshot -> int, snapshots: seq<LiquiditySnapshot>): int
    requires snapshots != []
  {
    MaxOf(MapSeq(field, snapshots))
  }

  function CombinedEvidenceIds(snapshots: seq<LiquiditySnapshot>): seq<string> {
    Dedup(Flatten(MapSeq((s: LiquiditySnapshot) => s.evidenceIds, snapshots)))
  }

  function CombinedReasonCodes(snapshots: seq<LiquiditySnapshot>): seq<string> {
    Dedup(Flatten(MapSeq((s: LiquiditySnapshot) => s.reasonCodes, snapshots)))
  }

  /** The worst of every measure, reported when no size is selected. */
  function AggregateSnapshot(snapshots: seq<LiquiditySnapshot>, c: SizingConstraints): LiquiditySnapshot
    requires snapshots != []
  {
    LiquiditySnapshot(
      asOfSlot := c.asOfSlot,
      dataStartSlot := Least((s: LiquiditySnapshot) => s.dataStartSlot, snapshots),
      dataEndSlot := Greatest((s: LiquiditySnapshot) => s.dataEndSlot, snapshots),
      versions := snapshots[0].versions,
      position := 0,
      maxOneShotExit := Least((s: LiquiditySnapshot) => s.maxOneShotExit, snapshots),
      currentExitOutput := Least((s: LiquiditySnapshot) => s.currentExitOutput, snapshots),
      stressedExitOutput := Least((s: LiquiditySnapshot) => s.stressedExitOutput, snapshots),
      failurePpm := Greatest((s: LiquiditySnapshot) => s.failurePpm, snapshots),
      recentVolume := Least((s: LiquiditySnapshot) => s.recentVolume, snapshots),
      mismatchCount := Greatest((s: LiquiditySnapshot) => s.mismatchCount, snapshots),
      evidenceIds := CombinedEvidenceIds(snapshots),
      reasonCodes := CombinedReasonCodes(snapshots))
  }

  /** A result that reports the given snapshot. */
  function Report(
    selected: Option<CandidateEntrySize>, liquidity: LiquiditySnapshot, snapshots: seq<LiquiditySnapshot>,
    c: SizingConstraints, reason: SelectionReason): LiquiditySizingResult
  {
    LiquiditySizingResult(
      asOfSlot := c.asOfSlot,
      selected := selected,
      dataStartSlot := liquidity.dataStartSlot,
      dataEndSlot := liquidity.dataEndSlot,
      versions := liquidity.versions,
      accepted := c.accepted,
      selectedPosition := if selected.Some? then selected.value.expectedPosition else 0,
      maxEntryQuote := CandidateQuoteCap(MinimumQuoteCap(c.caps), liquidity, c.limits),
      caps := c.caps,
      maxOneShotExit := liquidity.maxOneShotExit,
      currentExitOutput := liquidity.currentExitOutput,
      stressedExitOutput := liquidity.stressedExitOutput,
      failurePpm := liquidity.failurePpm,
      recentVolume := liquidity.recentVolume,
      volumeCap := ParticipationCap(liquidity.recentVolume, c.limits.maxParticipationPpm),
      mismatchCount := liquidity.mismatchCount,
      limits := c.limits,
      evidenceIds := CombinedEvidenceIds(snapshots),
      liquidityReasonCodes := CombinedReasonCodes(snapshots),
      reason := reason)
  }

  function Selected(
    candidates: seq<CandidateEntrySize>, snapshots: seq<LiquiditySnapshot>, c: SizingConstraints)
    : Option<CandidateEntrySize>
  {
    LargestViable(candidate => Viable(candidate, snapshots, c), candidates)
  }

  function ReportedLiquidity(
    selected: Option<CandidateEntrySize>, snapshots: seq<LiquiditySnapshot>, c: SizingConstraints): LiquiditySnapshot
    requires snapshots != []
  {
    if selected.Some? && HasPosition(snapshots, selected.value.expectedPosition) then
      LiquidityAt(snapshots, selected.value.expectedPosition)
    else
      AggregateSnapshot(snapshots, c)
  }

  function ReportedReason(
    selected: Option<CandidateEntrySize>, candidates: seq<CandidateEntrySize>, snapshots: seq<LiquiditySnapshot>,
    c: SizingConstraints): SelectionReason
  {
    if selected.Some? then SelectedLiquiditySize else NoSelectionReason(candidates, snapshots, c)
  }

  function SelectionFor(
    candidates: seq<CandidateEntrySize>, snapshots: seq<LiquiditySnapshot>, c: SizingConstraints)
    : LiquiditySizingResult
    requires snapshots != []
  {
    var selected := Selected(candidates, snapshots, c);
    Report(selected, ReportedLiquidity(selected, snapshots, c), snapshots, c,
           ReportedReason(selected, candidates, snapshots, c))
  }

  method SelectLiquiditySize(
    candidates: seq<CandidateEntrySize>, snapshots: seq<LiquiditySnapshot>, c: SizingConstraints)
    returns (r: Outcome<LiquiditySizingResult>)
    ensures r.Produced? <==> ValidInputs(candidates, snapshots, c)
    ensures r.Produced? ==> r.value == SelectionFor(candidates, snapshots, c)
    ensures r.Abstained? ==> r.abstain.asOfSlot == if c.asOfSlot < 0 then -1 else c.asOfSlot
    ensures r.Abstained? ==>
              r.abstain.reason ==
              if ConstraintsError(c).Some? then ConstraintsError(c).value
              else if candidates == [] then MissingFeature
              else if CandidatesError(candidates, c.asOfSlot).Some? then CandidatesError(candidates, c.asOfSlot).value
              else SnapshotsError(snapshots, candidates, c).value
  {
    var error := ConstraintsError(c);
    if error.Some? {
      return Abstained(AbstainResult(error.value, if c.asOfSlot < 0 then -1 else c.asOfSlot));
    }
    if candidates == [] {
      return Abstained(AbstainResult(MissingFeature, c.asOfSlot));
    }
    error := CandidatesError(candidates, c.asOfSlot);
    if error.Some? {
      return Abstained(AbstainResult(error.value, c.asOfSlot));
    }
    error := ValidateLiquiditySnapshots(snapshots, candidates, c);
    if error.Some? {
      return Abstained(AbstainResult(error.value, c.asOfSlot));
    }
    r := Produced(SelectionFor(candidates, snapshots, c));
  }

  // ---------- the validator of loaded results ----------

  predicate LoadedAmountsOk(r: LiquiditySizingResult) {
    && PositiveCaps(r.caps) && r.maxOneShotExit > 0 && r.currentExitOutput > 0 && r.stressedExitOutput > 0
    && r.maxEntryQuote >= 0 && r.recentVolume >= 0 && r.volumeCap >= 0 && r.limits.maxImmediateExitLoss >= 0
    && r.mismatchCount >= 0 && r.limits.maxMismatchCount >= 0 && r.selectedPosition >= 0
  }

  predicate LoadedRiskCapsOk(r: LiquiditySizingResult) {
    && r.failurePpm <= r.limits.maxFailurePpm
    && r.mismatchCount <= r.limits.maxMismatchCount
    && r.maxEntryQuote == Min(MinimumQuoteCap(r.caps), r.volumeCap)
    && r.volumeCap == ParticipationCap(r.recentVolume, r.limits.maxParticipationPpm)
  }

  predicate SelectedSizeOk(selected: CandidateEntrySize, r: LiquiditySizingResult) {
    && selected.quoteAmount <= r.maxEntryQuote
    && selected.expectedPosition == r.selectedPosition
    && selected.expectedPosition <= r.maxOneShotExit
    && selected.hazardPpm <= r.limits.maxHazardPpm
    && selected.immediateExitLoss <= r.limits.maxImmediateExitLoss
    && selected.quoteAmount <= r.volumeCap
  }

  function LoadedError(r: LiquiditySizingResult): Option<AbstainReason> {
    if r.asOfSlot < 0 || r.dataStartSlot < 0 || r.dataEndSlot < 0 then Some(UnsupportedProtocolState)
    else if !(r.dataStartSlot <= r.dataEndSlot <= r.asOfSlot) then Some(StaleState)
    else if r.dataEndSlot != r.asOfSlot then Some(StaleState)
    else if !ListsOk(r.accepted) || !VersionsOk(r.versions, r.accepted) then Some(DecoderMismatch)
    else if !NonEmptyIds(r.evidenceIds) || !NonEmptyIds(r.liquidityReasonCodes) then Some(MissingFeature)
    else if !ProbabilityPpm(r.failurePpm) || !LimitProbabilitiesOk(r.limits) then Some(UnsupportedProtocolState)
    else if !LoadedAmountsOk(r) || !LoadedRiskCapsOk(r) then Some(UnsupportedProtocolState)
    else if r.selected.None? then None
    else if CandidateError(r.selected.value, r.asOfSlot).Some? then CandidateError(r.selected.value, r.asOfSlot)
    else if !SelectedSizeOk(r.selected.value, r) then Some(UnsupportedProtocolState)
    else None
  }

  /** An accepted result, wherever it was loaded from, holds a size within all of its own limits. */
  lemma AcceptedSelectionIsWithinLimits(r: LiquiditySizingResult)
    requires LoadedError(r).None? && r.selected.Some?
    ensures WithinLimits(r.selected.value, r.caps, r.limits, r.recentVolume, r.maxOneShotExit,
                         r.failurePpm, r.mismatchCount)
  {
    FloorGalois(r.selected.value.quoteAmount, r.recentVolume * r.limits.maxParticipationPpm, PPM);
  }
}
