/** Inputs and results of the entry-size selector, and the checks that accept the
    inputs. */
module LiquiditySizing {
  import opened Domain

  /** Versions of the artifacts behind a snapshot, and the accepted ones. */
  datatype ArtifactVersions = ArtifactVersions(
    liquiditySnapshot: string,
    sourceArtifact: string,
    quoteEngine: string,
    simulator: string,
    marketSnapshot: string,
    reserveSnapshot: string,
    feeConfig: string,
    volumeClassifier: string)

  datatype AcceptedVersions = AcceptedVersions(
    liquiditySnapshot: seq<string>,
    sourceArtifact: seq<string>,
    quoteEngine: seq<string>,
    simulator: seq<string>,
    marketSnapshot: seq<string>,
    reserveSnapshot: seq<string>,
    feeConfig: seq<string>,
    volumeClassifier: seq<string>)

  datatype QuoteCaps = QuoteCaps(fixed: int, bankrollRisk: int, poolDepth: int, stressedExit: int)

  datatype RiskLimits = RiskLimits(
    maxImmediateExitLoss: int,
    maxHazardPpm: int,
    maxFailurePpm: int,
    maxParticipationPpm: int,
    maxMismatchCount: int)

  datatype CandidateEntrySize = CandidateEntrySize(
    asOfSlot: int,
    quoteAmount: int,
    expectedPosition: int,
    hazardPpm: int,
    q10RemainingMs: int,
    immediateExitLoss: int)

  datatype LiquiditySnapshot = LiquiditySnapshot(
    asOfSlot: int,
    dataStartSlot: int,
    dataEndSlot: int,
    versions: ArtifactVersions,
    position: int,
    maxOneShotExit: int,
    currentExitOutput: int,
    stressedExitOutput: int,
    failurePpm: int,
    recentVolume: int,
    mismatchCount: int,
    evidenceIds: seq<string>,
    reasonCodes: seq<string>)

  datatype SizingConstraints = SizingConstraints(
    asOfSlot: int,
    accepted: AcceptedVersions,
    caps: QuoteCaps,
    limits: RiskLimits)

  datatype SelectionReason =
    | SelectedLiquiditySize
    | QuoteAboveCap
    | QuoteAboveVolumeCap
    | PositionAboveExitCapacity
    | ImmediateLossAboveCap
    | HazardAboveCap
    | FailureAboveCap
    | MismatchAboveCap
    | NoCandidateWithinCaps

  datatype LiquiditySizingResult = LiquiditySizingResult(
    asOfSlot: int,
    selected: Option<CandidateEntrySize>,
    dataStartSlot: int,
    dataEndSlot: int,
    versions: ArtifactVersions,
    accepted: AcceptedVersions,
    selectedPosition: int,
    maxEntryQuote: int,
    caps: QuoteCaps,
    maxOneShotExit: int,
    currentExitOutput: int,
    stressedExitOutput: int,
    failurePpm: int,
    recentVolume: int,
    volumeCap: int,
    mismatchCount: int,
    limits: RiskLimits,
    evidenceIds: seq<string>,
    liquidityReasonCodes: seq<string>,
    reason: SelectionReason)

  // ---------- shared checks ----------

  predicate VersionList(versions: seq<string>) {
    versions != [] && forall k :: 0 <= k < |versions| ==> NonBlank(versions[k])
  }

  predicate ListsOk(a: AcceptedVersions) {
    && VersionList(a.liquiditySnapshot) && VersionList(a.sourceArtifact) && VersionList(a.quoteEngine)
    && VersionList(a.simulator) && VersionList(a.marketSnapshot) && VersionList(a.reserveSnapshot)
    && VersionList(a.feeConfig) && VersionList(a.volumeClassifier)
  }

  predicate VersionOk(version: string, accepted: seq<string>) {
    NonBlank(version) && version in accepted
  }

  predicate VersionsOk(v: ArtifactVersions, a: AcceptedVersions) {
    && VersionOk(v.liquiditySnapshot, a.liquiditySnapshot) && VersionOk(v.sourceArtifact, a.sourceArtifact)
    && VersionOk(v.quoteEngine, a.quoteEngine) && VersionOk(v.simulator, a.simulator)
    && VersionOk(v.marketSnapshot, a.marketSnapshot) && VersionOk(v.reserveSnapshot, a.reserveSnapshot)
    && VersionOk(v.feeConfig, a.feeConfig) && VersionOk(v.volumeClassifier, a.volumeClassifier)
  }

  predicate PositiveCaps(caps: QuoteCaps) {
    caps.fixed > 0 && caps.bankrollRisk > 0 && caps.poolDepth > 0 && caps.stressedExit > 0
  }

  predicate LimitProbabilitiesOk(limits: RiskLimits) {
    ProbabilityPpm(limits.maxHazardPpm) && ProbabilityPpm(limits.maxFailurePpm)
    && ProbabilityPpm(limits.maxParticipationPpm)
  }

  function MinimumQuoteCap(caps: QuoteCaps): int {
    Min(caps.fixed, Min(caps.bankrollRisk, Min(caps.poolDepth, caps.stressedExit)))
  }

  function ParticipationCap(recentVolume: int, maxParticipationPpm: int): int {
    recentVolume * maxParticipationPpm / PPM
  }

  function CandidateError(c: CandidateEntrySize, asOfSlot: int): Option<AbstainReason> {
    if c.asOfSlot < 0 then Some(UnsupportedProtocolState)
    else if c.asOfSlot != asOfSlot then Some(StaleState)
    else if !ProbabilityPpm(c.hazardPpm) then Some(UnsupportedProtocolState)
    else if c.quoteAmount <= 0 || c.expectedPosition <= 0 || c.q10RemainingMs <= 0 || c.immediateExitLoss < 0 then
      Some(UnsupportedProtocolState)
    else None
  }

  // ---------- inputs of the selector ----------

  function ConstraintsError(c: SizingConstraints): Option<AbstainReason> {
    if c.asOfSlot < 0 then Some(UnsupportedProtocolState)
    else if !ListsOk(c.accepted) then Some(DecoderMismatch)
    else if !LimitProbabilitiesOk(c.limits) then Some(UnsupportedProtocolState)
    else if !PositiveCaps(c.caps) then Some(UnsupportedProtocolState)
    else if c.limits.maxImmediateExitLoss < 0 || c.limits.maxMismatchCount < 0 then Some(UnsupportedProtocolState)
    else None
  }

  function SnapshotError(s: LiquiditySnapshot, c: SizingConstraints): Option<AbstainReason> {
    if s.asOfSlot < 0 || s.dataStartSlot < 0 || s.dataEndSlot < 0 then Some(UnsupportedProtocolState)
    else if !(s.dataStartSlot <= s.dataEndSlot <= s.asOfSlot == c.asOfSlot) then Some(StaleState)
    else if s.dataEndSlot != s.asOfSlot then Some(StaleState)
    else if !NonEmptyIds(s.evidenceIds) || !NonEmptyIds(s.reasonCodes) then Some(MissingFeature)
    else if s.position <= 0 then Some(UnsupportedProtocolState)
    else if !VersionsOk(s.versions, c.accepted) then Some(DecoderMismatch)
    else if s.maxOneShotExit <= 0 || s.currentExitOutput <= 0 || s.stressedExitOutput <= 0 then
      Some(UnsupportedProtocolState)
    else if s.mismatchCount < 0 || s.recentVolume < 0 then Some(UnsupportedProtocolState)
    else if !ProbabilityPpm(s.failurePpm) then Some(UnsupportedProtocolState)
    else None
  }

  function CandidatesError(candidates: seq<CandidateEntrySize>, asOfSlot: int): (r: Option<AbstainReason>)
    ensures r.None? <==> forall k :: 0 <= k < |candidates| ==> CandidateError(candidates[k], asOfSlot).None?
  {
    if candidates == [] then None
    else if CandidateError(candidates[0], asOfSlot).Some? then CandidateError(candidates[0], asOfSlot)
    else CandidatesError(candidates[1..], asOfSlot)
  }

  function SnapshotRowsError(snapshots: seq<LiquiditySnapshot>, c: SizingConstraints): (r: Option<AbstainReason>)
    ensures r.None? <==> forall k :: 0 <= k < |snapshots| ==> SnapshotError(snapshots[k], c).None?
  {
    if snapshots == [] then None
    else if SnapshotError(snapshots[0], c).Some? then SnapshotError(snapshots[0], c)
    else SnapshotRowsError(snapshots[1..], c)
  }

  ghost predicate UniquePositions(snapshots: seq<LiquiditySnapshot>) {
    forall i, j :: 0 <= i < j < |snapshots| ==> snapshots[i].position != snapshots[j].position
  }

  predicate Covers(snapshots: seq<LiquiditySnapshot>, candidates: seq<CandidateEntrySize>) {
    (set i | 0 <= i < |snapshots| :: snapshots[i].position)
    == (set i | 0 <= i < |candidates| :: candidates[i].expectedPosition)
  }

  ghost function SnapshotsError(
    snapshots: seq<LiquiditySnapshot>, candidates: seq<CandidateEntrySize>, c: SizingConstraints)
    : Option<AbstainReason>
  {
    if snapshots == [] then Some(MissingFeature)
    else if SnapshotRowsError(snapshots, c).Some? then SnapshotRowsError(snapshots, c)
    else if !UniquePositions(snapshots) then Some(UnsupportedProtocolState)
    else if !Covers(snapshots, candidates) then Some(MissingFeature)
    else None
  }

  /** How many of the first `n` snapshots are at a position. */
  function PositionCount(snapshots: seq<LiquiditySnapshot>, n: nat, position: int): nat
    requires n <= |snapshots|
  {
    if n == 0 then 0
    else PositionCount(snapshots, n - 1, position) + if snapshots[n - 1].position == position then 1 else 0
  }

  lemma {:induction false} CountSome(snapshots: seq<LiquiditySnapshot>, n: nat, i: nat)
    requires i < n <= |snapshots|
    ensures PositionCount(snapshots, n, snapshots[i].position) >= 1
    ensures forall j :: i < j < n && snapshots[j].position == snapshots[i].position ==>
              PositionCount(snapshots, n, snapshots[i].position) >= 2
  {
    if i < n - 1 {
      CountSome(snapshots, n - 1, i);
    }
  }

  lemma {:induction false} CountUnique(snapshots: seq<LiquiditySnapshot>, n: nat, position: int)
    requires UniquePositions(snapshots) && n <= |snapshots|
    ensures PositionCount(snapshots, n, position) <= 1
    ensures PositionCount(snapshots, n, position) == 1 ==>
              exists i :: 0 <= i < n && snapshots[i].position == position
  {
    if n > 0 {
      CountUnique(snapshots, n - 1, position);
    }
  }

  lemma {:induction false} AbsentCount(snapshots: seq<LiquiditySnapshot>, n: nat, position: int)
    requires n <= |snapshots|
    ensures (forall i :: 0 <= i < n ==> snapshots[i].position != position) ==>
              PositionCount(snapshots, n, position) == 0
  {
    if n > 0 {
      AbsentCount(snapshots, n - 1, position);
    }
  }

  /** `counts` holds how often each position occurs in the first `n` snapshots. */
  ghost predicate Counted(snapshots: seq<LiquiditySnapshot>, n: nat, counts: map<int, int>)
    requires n <= |snapshots|
  {
    && (forall k :: k in counts ==> counts[k] == PositionCount(snapshots, n, k))
    && (forall i :: 0 <= i < n ==> snapshots[i].position in counts)
  }

  function Increment(counts: map<int, int>, position: int): map<int, int> {
    counts[position := (if position in counts then counts[position] else 0) + 1]
  }

  lemma CountedStep(snapshots: seq<LiquiditySnapshot>, n: nat, counts: map<int, int>)
    requires n < |snapshots| && Counted(snapshots, n, counts)
    ensures Counted(snapshots, n + 1, Increment(counts, snapshots[n].position))
  {
    AbsentCount(snapshots, n, snapshots[n].position);
  }

  lemma CountedUnique(snapshots: seq<LiquiditySnapshot>, counts: map<int, int>)
    requires Counted(snapshots, |snapshots|, counts)
    ensures UniquePositions(snapshots) <==> forall k :: k in counts ==> counts[k] <= 1
  {
    if UniquePositions(snapshots) {
      forall k | k in counts ensures counts[k] <= 1 {
        CountUnique(snapshots, |snapshots|, k);
      }
    }
    if forall k :: k in counts ==> counts[k] <= 1 {
      forall i, j | 0 <= i < j < |snapshots| ensures snapshots[i].position != snapshots[j].position {
        CountSome(snapshots, |snapshots|, i);
        assert counts[snapshots[i].position] <= 1;
      }
    }
  }

  method ValidateLiquiditySnapshots(
    snapshots: seq<LiquiditySnapshot>, candidates: seq<CandidateEntrySize>, c: SizingConstraints)
    returns (error: Option<AbstainReason>)
    ensures error == SnapshotsError(snapshots, candidates, c)
  {
    if snapshots == [] {
      return Some(MissingFeature);
    }
    var counts: map<int, int> := map[];
    for n := 0 to |snapshots|
      invariant SnapshotRowsError(snapshots, c) == SnapshotRowsError(snapshots[n..], c)
      invariant Counted(snapshots, n, counts)
    {
      assert snapshots[n..][0] == snapshots[n] && snapshots[n..][1..] == snapshots[n + 1..];
      error := SnapshotError(snapshots[n], c);
      if error.Some? {
        return;
      }
      CountedStep(snapshots, n, counts);
      counts := Increment(counts, snapshots[n].position);
    }
    CountedUnique(snapshots, counts);
    if exists k :: k in counts && counts[k] > 1 {
      return Some(UnsupportedProtocolState);
    }
    error := if Covers(snapshots, candidates) then None else Some(MissingFeature);
  }
}
