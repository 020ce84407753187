/** Launch results and configuration of a backtest, and which inputs are accepted. */
module Backtest {
  import opened Domain

  datatype BacktestAction = Enter | Skip | Abstain

  datatype FillStatus = Filled | Failed | Expired | Unfilled | NotAttempted

  datatype Split = Train | Validation | Test | Stress

  datatype OrderingScenario = ObservedOrder | AdverseSameSlot

  datatype FrozenModelManifest = FrozenModelManifest(
    asOfSlot: int,
    modelFreezeSlot: int,
    decisionVersion: string,
    modelVersion: string,
    outcomeLabelerVersion: string,
    profileSnapshotVersion: string,
    graphSnapshotVersion: string,
    featureSnapshotVersion: string,
    marketSnapshotVersion: string,
    latencyModelVersion: string,
    feeConfigVersion: string)

  datatype HorizonLabel = HorizonLabel(
    asOfSlot: int,
    launchId: string,
    tokenMint: string,
    horizonMs: int,
    censored: bool,
    lastObservedSlot: Option<int>,
    lastObservedElapsedMs: Option<int>,
    drawdownPpm: Option<int>,
    recoveryPpm: Option<int>,
    fullExitNetPnl: Option<int>,
    labelerVersion: string,
    evidenceIds: seq<string>)

  datatype OutcomeLabels = OutcomeLabels(
    asOfSlot: int,
    launchId: string,
    tokenMint: string,
    labelerVersion: string,
    adverseEventSlot: Option<int>,
    adverseEventElapsedMs: Option<int>,
    maxOpportunity: Option<int>,
    horizonLabels: seq<HorizonLabel>,
    sourcePointCount: int,
    evidenceIds: seq<string>,
    reasonCodes: seq<string>)

  datatype LaunchResult = LaunchResult(
    asOfSlot: int,
    launchId: string,
    decisionId: string,
    tokenMint: string,
    entityId: string,
    regimeId: string,
    decisionSlot: int,
    decisionIndex: int,
    action: BacktestAction,
    fillStatus: FillStatus,
    ordering: Option<OrderingScenario>,
    netPnl: Option<int>,
    grossProfit: Option<int>,
    executionCost: Option<int>,
    selectedSize: Option<int>,
    outcome: OutcomeLabels,
    manifest: FrozenModelManifest,
    reasonCodes: seq<string>,
    evidenceIds: seq<string>)

  datatype BacktestConfig = BacktestConfig(
    asOfSlot: int,
    evaluationVersion: string,
    manifest: FrozenModelManifest,
    trainEndSlot: int,
    testStartSlot: int,
    testEndSlot: int,
    trainEntityIds: seq<string>,
    stressEntityIds: seq<string>,
    shortfallTailPpm: int)

  // ---------- configuration ----------

  function ManifestError(m: FrozenModelManifest, config: BacktestConfig): Option<AbstainReason> {
    if m.asOfSlot < 0 || m.modelFreezeSlot < 0 then Some(UnsupportedProtocolState)
    else if m.asOfSlot != config.asOfSlot then Some(StaleState)
    else if m.modelFreezeSlot > config.testStartSlot then Some(StaleState)
    else if "" in [m.decisionVersion, m.modelVersion, m.outcomeLabelerVersion, m.profileSnapshotVersion,
                   m.graphSnapshotVersion, m.featureSnapshotVersion, m.marketSnapshotVersion,
                   m.latencyModelVersion, m.feeConfigVersion] then Some(DecoderMismatch)
    else None
  }

  function EntityIdsError(ids: seq<string>): Option<AbstainReason> {
    if "" in ids then Some(MissingFeature)
    else if !Distinct(ids) then Some(UnsupportedProtocolState)
    else None
  }

  function ConfigError(c: BacktestConfig): Option<AbstainReason> {
    if c.asOfSlot < 0 then Some(UnsupportedProtocolState)
    else if c.evaluationVersion == "" then Some(DecoderMismatch)
    else if c.trainEndSlot < 0 || c.testStartSlot < 0 || c.testEndSlot < 0 then Some(UnsupportedProtocolState)
    else if !(c.trainEndSlot < c.testStartSlot <= c.testEndSlot) then Some(UnsupportedProtocolState)
    else if c.testEndSlot > c.asOfSlot then Some(StaleState)
    else if !(0 < c.shortfallTailPpm <= PPM) then Some(UnsupportedProtocolState)
    else if EntityIdsError(c.trainEntityIds).Some? then EntityIdsError(c.trainEntityIds)
    else if EntityIdsError(c.stressEntityIds).Some? then EntityIdsError(c.stressEntityIds)
    else if exists k :: 0 <= k < |c.trainEntityIds| && c.trainEntityIds[k] in c.stressEntityIds then
      Some(UnsupportedProtocolState)
    else ManifestError(c.manifest, c)
  }

  // ---------- one launch ----------

  function IdentityError(l: LaunchResult, c: BacktestConfig): Option<AbstainReason> {
    if l.asOfSlot < 0 then Some(UnsupportedProtocolState)
    else if l.asOfSlot != c.asOfSlot then Some(StaleState)
    else if "" in [l.launchId, l.decisionId, l.tokenMint, l.entityId, l.regimeId] then Some(MissingFeature)
    else if l.decisionSlot < 0 || l.decisionIndex < 0 then Some(UnsupportedProtocolState)
    else if l.decisionSlot > c.testEndSlot then Some(StaleState)
    else if l.entityId in c.trainEntityIds && l.decisionSlot >= c.testStartSlot then
      Some(UnsupportedProtocolState)
    else None
  }

  function LabelError(row: HorizonLabel, o: OutcomeLabels, c: BacktestConfig, previousHorizon: int)
    : Option<AbstainReason>
  {
    if row.asOfSlot < 0 then Some(UnsupportedProtocolState)
    else if row.asOfSlot != c.asOfSlot then Some(StaleState)
    else if row.launchId != o.launchId || row.tokenMint != o.tokenMint then Some(UnsupportedProtocolState)
    else if row.labelerVersion != o.labelerVersion then Some(DecoderMismatch)
    else if row.horizonMs <= 0 || row.horizonMs <= previousHorizon then Some(UnsupportedProtocolState)
    else if row.lastObservedSlot.None? || row.lastObservedElapsedMs.None? then Some(UnsupportedProtocolState)
    else if row.lastObservedSlot.value < 0 then Some(UnsupportedProtocolState)
    else if row.lastObservedSlot.value > c.asOfSlot then Some(StaleState)
    else if row.lastObservedElapsedMs.value < 0 then Some(UnsupportedProtocolState)
    else if !NonEmptyIds(row.evidenceIds) then Some(MissingFeature)
    else if row.censored then
      if row.drawdownPpm.Some? || row.recoveryPpm.Some? || row.fullExitNetPnl.Some? then
        Some(UnsupportedProtocolState)
      else None
    else if row.drawdownPpm.None? || !ProbabilityPpm(row.drawdownPpm.value) then Some(UnsupportedProtocolState)
    else if row.recoveryPpm.None? || !ProbabilityPpm(row.recoveryPpm.value) then Some(UnsupportedProtocolState)
    else if row.fullExitNetPnl.None? then Some(UnsupportedProtocolState)
    else None
  }

  /** The first rejected row decides; each horizon must exceed the one before it. */
  function HorizonsError(labels: seq<HorizonLabel>, o: OutcomeLabels, c: BacktestConfig, previousHorizon: int)
    : Option<AbstainReason>
  {
    if labels == [] then None
    else
      var error := LabelError(labels[0], o, c, previousHorizon);
      if error.Some? then error else HorizonsError(labels[1..], o, c, labels[0].horizonMs)
  }

  method ValidateHorizons(o: OutcomeLabels, c: BacktestConfig) returns (error: Option<AbstainReason>)
    ensures error == HorizonsError(o.horizonLabels, o, c, 0)
  {
    var previousHorizon := 0;
    for n := 0 to |o.horizonLabels|
      invariant HorizonsError(o.horizonLabels, o, c, 0)
                == HorizonsError(o.horizonLabels[n..], o, c, previousHorizon)
    {
      var row := o.horizonLabels[n];
      error := LabelError(row, o, c, previousHorizon);
      if error.Some? {
        return;
      }
      assert o.horizonLabels[n..][1..] == o.horizonLabels[n + 1..];
      previousHorizon := row.horizonMs;
    }
    error := None;
  }

  /** Accepted labels have strictly increasing positive horizons. */
  lemma {:induction false} HorizonsIncrease(
    labels: seq<HorizonLabel>, o: OutcomeLabels, c: BacktestConfig, previousHorizon: int, i: nat, j: nat)
    requires HorizonsError(labels, o, c, previousHorizon).None? && i < j < |labels|
    ensures previousHorizon < labels[i].horizonMs < labels[j].horizonMs
  {
    if i > 0 {
      HorizonsIncrease(labels[1..], o, c, labels[0].horizonMs, i - 1, j - 1);
    } else if j > 1 {
      HorizonsIncrease(labels[1..], o, c, labels[0].horizonMs, 0, j - 1);
    }
  }

  function OutcomeHeadError(l: LaunchResult, c: BacktestConfig): Option<AbstainReason> {
    var o := l.outcome;
    if o.asOfSlot < 0 then Some(UnsupportedProtocolState)
    else if o.asOfSlot != c.asOfSlot then Some(StaleState)
    else if o.launchId != l.launchId || o.tokenMint != l.tokenMint then Some(UnsupportedProtocolState)
    else if o.labelerVersion != c.manifest.outcomeLabelerVersion then Some(DecoderMismatch)
    else if !NonEmptyIds(o.evidenceIds) then Some(MissingFeature)
    else if o.adverseEventSlot.None? != o.adverseEventElapsedMs.None? then Some(UnsupportedProtocolState)
    else if o.adverseEventSlot.Some? && o.adverseEventSlot.value < 0 then Some(UnsupportedProtocolState)
    else if o.adverseEventSlot.Some? && o.adverseEventSlot.value > c.asOfSlot then Some(StaleState)
    else if o.adverseEventElapsedMs.Some? && o.adverseEventElapsedMs.value < 0 then Some(UnsupportedProtocolState)
    else if o.sourcePointCount <= 0 then Some(UnsupportedProtocolState)
    else if !NonEmptyIds(o.reasonCodes) then Some(MissingFeature)
    else if o.horizonLabels == [] then Some(MissingFeature)
    else None
  }

  function ActionError(l: LaunchResult): (r: Option<AbstainReason>)
    ensures r.None? ==> (l.action == Enter <==> l.fillStatus != NotAttempted)
    ensures r.None? ==> (l.action == Enter <==> l.netPnl.Some?)
    ensures r.None? ==> (l.action == Enter <==> l.ordering.Some?)
  {
    if l.action != Enter then
      if l.fillStatus != NotAttempted then Some(UnsupportedProtocolState)
      else if l.ordering.Some? then Some(UnsupportedProtocolState)
      else if l.netPnl.Some? || l.grossProfit.Some? || l.executionCost.Some? || l.selectedSize.Some? then
        Some(UnsupportedProtocolState)
      else None
    else if l.fillStatus == NotAttempted then Some(UnsupportedProtocolState)
    else if l.ordering.None? then Some(UnsupportedProtocolState)
    else if l.netPnl.None? then Some(UnsupportedProtocolState)
    else if l.grossProfit.None? || l.grossProfit.value < 0 then Some(UnsupportedProtocolState)
    else if l.executionCost.None? || l.executionCost.value < 0 then Some(UnsupportedProtocolState)
    else if l.fillStatus == Filled && l.executionCost.value <= 0 then Some(UnsupportedProtocolState)
    else if l.selectedSize.None? || l.selectedSize.value <= 0 then Some(UnsupportedProtocolState)
    else None
  }

  function LaunchError(l: LaunchResult, c: BacktestConfig): Option<AbstainReason> {
    if IdentityError(l, c).Some? then IdentityError(l, c)
    else if l.manifest != c.manifest then Some(DecoderMismatch)
    else if OutcomeHeadError(l, c).Some? then OutcomeHeadError(l, c)
    else if HorizonsError(l.outcome.horizonLabels, l.outcome, c, 0).Some? then
      HorizonsError(l.outcome.horizonLabels, l.outcome, c, 0)
    else if ActionError(l).Some? then ActionError(l)
    else if !NonEmptyIds(l.reasonCodes) then Some(MissingFeature)
    else if !NonEmptyIds(l.evidenceIds) then Some(MissingFeature)
    else None
  }

  function LaunchIds(launches: seq<LaunchResult>): seq<string> {
    MapSeq((l: LaunchResult) => l.launchId, launches)
  }

  function DecisionIds(launches: seq<LaunchResult>): seq<string> {
    MapSeq((l: LaunchResult) => l.decisionId, launches)
  }

  ghost predicate AcceptedLaunches(launches: seq<LaunchResult>, c: BacktestConfig) {
    && launches != []
    && (forall k :: 0 <= k < |launches| ==> LaunchError(launches[k], c).None?)
    && Distinct(LaunchIds(launches)) && Distinct(DecisionIds(launches))
  }

  ghost predicate Accepted(launches: seq<LaunchResult>, c: BacktestConfig) {
    ConfigError(c).None? && AcceptedLaunches(launches, c)
  }

  method ValidateLaunch(l: LaunchResult, c: BacktestConfig) returns (error: Option<AbstainReason>)
    ensures error == LaunchError(l, c)
  {
    error := IdentityError(l, c);
    if error.Some? { return; }
    if l.manifest != c.manifest { return Some(DecoderMismatch); }
    error := OutcomeHeadError(l, c);
    if error.Some? { return; }
    error := ValidateHorizons(l.outcome, c);
    if error.Some? { return; }
    error := ActionError(l);
    if error.Some? { return; }
    if !NonEmptyIds(l.reasonCodes) || !NonEmptyIds(l.evidenceIds) { return Some(MissingFeature); }
    return None;
  }

  /** The first rejected launch decides. */
  function LaunchesError(launches: seq<LaunchResult>, c: BacktestConfig): (r: Option<AbstainReason>)
    ensures r.None? <==> forall k :: 0 <= k < |launches| ==> LaunchError(launches[k], c).None?
  {
    if launches == [] then None
    else if LaunchError(launches[0], c).Some? then LaunchError(launches[0], c)
    else LaunchesError(launches[1..], c)
  }

  function InputError(launches: seq<LaunchResult>, c: BacktestConfig): (r: Option<AbstainReason>)
    ensures r.None? <==> Accepted(launches, c)
    ensures r.None? ==> 0 < c.shortfallTailPpm <= PPM
  {
    if ConfigError(c).Some? then ConfigError(c)
    else if launches == [] then Some(MissingFeature)
    else if LaunchesError(launches, c).Some? then LaunchesError(launches, c)
    else if !Distinct(LaunchIds(launches)) || !Distinct(DecisionIds(launches)) then Some(UnsupportedProtocolState)
    else None
  }

  /** Slot reported with an abstention: -1 when a configured slot is itself malformed. */
  function AbstainSlot(c: BacktestConfig): int {
    if c.asOfSlot < 0 then -1
    else if c.evaluationVersion != "" && (c.trainEndSlot < 0 || c.testStartSlot < 0 || c.testEndSlot < 0) then -1
    else c.asOfSlot
  }

  method ValidateInputs(launches: seq<LaunchResult>, c: BacktestConfig) returns (error: Option<AbstainReason>)
    ensures error == InputError(launches, c)
  {
    error := ConfigError(c);
    if error.Some? { return; }
    if launches == [] { return Some(MissingFeature); }
    for n := 0 to |launches|
      invariant LaunchesError(launches, c) == LaunchesError(launches[n..], c)
    {
      error := ValidateLaunch(launches[n], c);
      assert launches[n..][1..] == launches[n + 1..];
      if error.Some? { return; }
    }
    if !Distinct(LaunchIds(launches)) || !Distinct(DecisionIds(launches)) {
      return Some(UnsupportedProtocolState);
    }
    return None;
  }
}
