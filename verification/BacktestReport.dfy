/** The leakage-safe report: splits, metrics, and what they guarantee. */
module BacktestReport {
  import opened Domain
  import opened Ordering
  import opened Backtest
  import opened BacktestRisk

  datatype SplitMetrics = SplitMetrics(
    asOfSlot: int,
    split: Split,
    observed: nat,
    attempted: nat,
    filled: nat,
    failed: nat,
    expired: nat,
    unfilled: nat,
    skipped: nat,
    abstained: nat,
    censored: nat,
    adverseOrder: nat,
    netPnlObserved: int,
    netPnlAttempted: int,
    netPnlFilled: int,
    coveragePpm: int,
    fillFailurePpm: Option<int>,
    costToGrossProfitPpm: Option<int>,
    expectedShortfall: Option<int>,
    maximumDrawdown: int,
    profitCapturePpm: Option<int>,
    profitableSkipped: nat,
    adverseEntered: nat,
    hasLaunches: bool)

  datatype Report = Report(
    asOfSlot: int,
    evaluationVersion: string,
    manifest: FrozenModelManifest,
    splitMetrics: seq<SplitMetrics>,
    sourceLaunchCount: nat,
    evidenceIds: seq<string>)

  const SPLITS: seq<Split> := [Train, Validation, Test, Stress]

  // ---------- order and splits ----------

  predicate LaunchBefore(a: LaunchResult, b: LaunchResult) {
    || a.decisionSlot < b.decisionSlot
    || (a.decisionSlot == b.decisionSlot
        && (a.decisionIndex < b.decisionIndex
            || (a.decisionIndex == b.decisionIndex && StringLess(a.launchId, b.launchId))))
  }

  predicate NotLater(a: LaunchResult, b: LaunchResult) {
    !LaunchBefore(b, a)
  }

  function OrderedLaunches(launches: seq<LaunchResult>): seq<LaunchResult> {
    SortBy(NotLater, launches)
  }

  function SplitFor(l: LaunchResult, c: BacktestConfig): Split {
    if l.entityId in c.stressEntityIds then Stress
    else if l.decisionSlot <= c.trainEndSlot then Train
    else if l.decisionSlot < c.testStartSlot then Validation
    else Test
  }

  function InSplit(launches: seq<LaunchResult>, split: Split, c: BacktestConfig): seq<LaunchResult> {
    Filter((l: LaunchResult) => SplitFor(l, c) == split, launches)
  }

  // ---------- metrics ----------

  function Count(keep: LaunchResult -> bool, launches: seq<LaunchResult>): nat {
    |Filter(keep, launches)|
  }

  predicate IsAttempted(l: LaunchResult) {
    l.action == Enter
  }

  function Attempted(launches: seq<LaunchResult>): seq<LaunchResult> {
    Filter(IsAttempted, launches)
  }

  function FilledLaunches(launches: seq<LaunchResult>): seq<LaunchResult> {
    Filter((l: LaunchResult) => l.fillStatus == Filled, launches)
  }

  function OrZero(value: Option<int>): int {
    if value.Some? then value.value else 0
  }

  function PnlOf(l: LaunchResult): int {
    OrZero(l.netPnl)
  }

  function Pnls(launches: seq<LaunchResult>): seq<int> {
    MapSeq(PnlOf, launches)
  }

  function NetPnl(launches: seq<LaunchResult>): int {
    Sum(Pnls(launches))
  }

  function BoundedRatioPpm(numerator: int, denominator: int): int {
    if denominator <= 0 then 0 else Min(PPM, numerator * PPM / denominator)
  }

  function OptionalRatioPpm(numerator: int, denominator: int): Option<int> {
    if denominator <= 0 then None else Some(BoundedRatioPpm(numerator, denominator))
  }

  function CostToGrossProfitPpm(launches: seq<LaunchResult>): Option<int> {
    var gross := Sum(MapSeq((l: LaunchResult) => OrZero(l.grossProfit), launches));
    if gross <= 0 then None
    else Some(Sum(MapSeq((l: LaunchResult) => OrZero(l.executionCost), launches)) * PPM / gross)
  }

  function PositiveOpportunity(l: LaunchResult): int {
    Max(0, OrZero(l.outcome.maxOpportunity))
  }

  function ProfitCapturePpm(launches: seq<LaunchResult>): Option<int> {
    var possible := Sum(MapSeq(PositiveOpportunity, launches));
    if possible <= 0 then None
    else
      var captured :=
        Sum(MapSeq((l: LaunchResult) => if l.fillStatus == Filled then Max(0, PnlOf(l)) else 0, launches));
      Some(captured * PPM / possible)
  }

  predicate HasCensoredOutcome(l: LaunchResult) {
    exists k :: 0 <= k < |l.outcome.horizonLabels| && l.outcome.horizonLabels[k].censored
  }

  function StatusCount(launches: seq<LaunchResult>, status: FillStatus): nat {
    Count((l: LaunchResult) => l.fillStatus == status, launches)
  }

  function ActionCount(launches: seq<LaunchResult>, action: BacktestAction): nat {
    Count((l: LaunchResult) => l.action == action, launches)
  }

  /** The metrics of one split, given its maximum drawdown. */
  function MetricsWith(split: Split, launches: seq<LaunchResult>, c: BacktestConfig, drawdown: int): SplitMetrics
    requires 0 < c.shortfallTailPpm <= PPM
  {
    var attempted, filled := Attempted(launches), FilledLaunches(launches);
    SplitMetrics(
      c.asOfSlot, split, |launches|, |attempted|, |filled|,
      StatusCount(launches, Failed), StatusCount(launches, Expired), StatusCount(launches, Unfilled),
      ActionCount(launches, Skip), ActionCount(launches, Abstain),
      Count(HasCensoredOutcome, launches),
      Count((l: LaunchResult) => l.ordering == Some(AdverseSameSlot), launches),
      NetPnl(launches), NetPnl(attempted), NetPnl(filled),
      BoundedRatioPpm(|attempted|, |launches|),
      OptionalRatioPpm(|attempted| - |filled|, |attempted|),
      CostToGrossProfitPpm(attempted),
      ExpectedShortfall(Pnls(attempted), c.shortfallTailPpm),
      drawdown,
      ProfitCapturePpm(launches),
      Count((l: LaunchResult) => l.action in {Skip, Abstain} && PositiveOpportunity(l) > 0, launches),
      Count((l: LaunchResult) => l.action == Enter && l.outcome.adverseEventSlot.Some?, launches),
      launches != [])
  }

  function MetricsFor(split: Split, launches: seq<LaunchResult>, c: BacktestConfig): SplitMetrics
    requires 0 < c.shortfallTailPpm <= PPM
  {
    MetricsWith(split, launches, c, ScanDrawdown(Pnls(launches)).deepest)
  }

  function EvidenceLists(launches: seq<LaunchResult>): seq<string> {
    Flatten(MapSeq((l: LaunchResult) => l.evidenceIds + l.outcome.evidenceIds, launches))
  }

  function SplitRow(ordered: seq<LaunchResult>, split: Split, c: BacktestConfig): SplitMetrics
    requires 0 < c.shortfallTailPpm <= PPM
  {
    MetricsFor(split, InSplit(ordered, split, c), c)
  }

  /** The rows of the first `n` splits. */
  function SplitRows(ordered: seq<LaunchResult>, c: BacktestConfig, n: nat): (r: seq<SplitMetrics>)
    requires 0 < c.shortfallTailPpm <= PPM && n <= |SPLITS|
    ensures |r| == n && forall k :: 0 <= k < n ==> r[k] == SplitRow(ordered, SPLITS[k], c)
  {
    if n == 0 then [] else SplitRows(ordered, c, n - 1) + [SplitRow(ordered, SPLITS[n - 1], c)]
  }

  function ReportFor(launches: seq<LaunchResult>, c: BacktestConfig): Report
    requires 0 < c.shortfallTailPpm <= PPM
  {
    var ordered := OrderedLaunches(launches);
    Report(c.asOfSlot, c.evaluationVersion, c.manifest, SplitRows(ordered, c, |SPLITS|), |launches|,
           Dedup(EvidenceLists(ordered)))
  }

  // ---------- the builder ----------

  method MaximumDrawdown(launches: seq<LaunchResult>) returns (deepest: int)
    ensures deepest == ScanDrawdown(Pnls(launches)).deepest
    ensures IsMaxDrawdown(Pnls(launches), deepest)
  {
    var cumulative, peak := 0, 0;
    deepest := 0;
    for i := 0 to |launches|
      invariant DrawdownScan(cumulative, peak, deepest) == ScanDrawdown(Pnls(launches)[..i])
    {
      assert Pnls(launches)[..i + 1][..i] == Pnls(launches)[..i];
      if launches[i].netPnl.Some? {
        cumulative := cumulative + launches[i].netPnl.value;
      }
      peak := Max(peak, cumulative);
      deepest := Max(deepest, peak - cumulative);
    }
    assert Pnls(launches)[..|launches|] == Pnls(launches);
    ScanDeepest(Pnls(launches));
  }

  method CombinedEvidenceIds(launches: seq<LaunchResult>) returns (ids: seq<string>)
    ensures ids == Dedup(EvidenceLists(launches))
  {
    var all: seq<string> := [];
    for i := 0 to |launches|
      invariant EvidenceLists(launches) == all + EvidenceLists(launches[i..])
    {
      var l := launches[i];
      EvidenceHead(launches[i..]);
      assert launches[i..][1..] == launches[i + 1..];
      Regroup(all, l.evidenceIds, l.outcome.evidenceIds, EvidenceLists(launches[i + 1..]));
      all := all + l.evidenceIds;
      all := all + l.outcome.evidenceIds;
    }
    assert launches[|launches|..] == [] && EvidenceLists([]) == [];
    assert all + [] == all;
    ids := Dedup(all);
  }

  lemma Regroup<T>(a: seq<T>, b: seq<T>, c: seq<T>, d: seq<T>)
    ensures a + (b + c + d) == a + b + c + d
  {
  }

  lemma EvidenceHead(launches: seq<LaunchResult>)
    requires launches != []
    ensures EvidenceLists(launches)
            == launches[0].evidenceIds + launches[0].outcome.evidenceIds + EvidenceLists(launches[1..])
  {
    var f := (l: LaunchResult) => l.evidenceIds + l.outcome.evidenceIds;
    assert MapSeq(f, launches)[1..] == MapSeq(f, launches[1..]);
  }

  method BuildBacktestReport(launches: seq<LaunchResult>, c: BacktestConfig) returns (r: Outcome<Report>)
    ensures InputError(launches, c).None? ==> r == Produced(ReportFor(launches, c))
    ensures InputError(launches, c).Some? ==>
              r == Abstained(AbstainResult(InputError(launches, c).value, AbstainSlot(c)))
  {
    var error := ValidateInputs(launches, c);
    if error.Some? {
      return Abstained(AbstainResult(error.value, AbstainSlot(c)));
    }
    var ordered := OrderedLaunches(launches);
    var rows: seq<SplitMetrics> := [];
    for i := 0 to |SPLITS|
      invariant rows == SplitRows(ordered, c, i)
    {
      var row := BuildSplit(ordered, SPLITS[i], c);
      rows := rows + [row];
    }
    var evidence := CombinedEvidenceIds(ordered);
    return Produced(Report(c.asOfSlot, c.evaluationVersion, c.manifest, rows, |launches|, evidence));
  }

  method BuildSplit(ordered: seq<LaunchResult>, split: Split, c: BacktestConfig) returns (row: SplitMetrics)
    requires 0 < c.shortfallTailPpm <= PPM
    ensures row == SplitRow(ordered, split, c)
  {
    var launches := InSplit(ordered, split, c);
    var drawdown := MaximumDrawdown(launches);
    row := MetricsWith(split, launches, c, drawdown);
  }

  // ---------- independence of the input order ----------

  lemma LaunchOrder()
    ensures TotalPreorder(NotLater)
    ensures forall a, b :: NotLater(a, b) && NotLater(b, a) ==> a.launchId == b.launchId
  {
    StringOrder();
  }

  /** Ids are unique exactly when rows are, and no two rows share an id. */
  lemma IdsUnique(launches: seq<LaunchResult>)
    ensures Distinct(LaunchIds(launches)) <==>
              forall i, j :: 0 <= i < |launches| && 0 <= j < |launches| && i != j ==>
                launches[i].launchId != launches[j].launchId
    ensures Distinct(DecisionIds(launches)) <==>
              forall i, j :: 0 <= i < |launches| && 0 <= j < |launches| && i != j ==>
                launches[i].decisionId != launches[j].decisionId
  {
    assert forall i :: 0 <= i < |launches| ==> LaunchIds(launches)[i] == launches[i].launchId;
    assert forall i :: 0 <= i < |launches| ==> DecisionIds(launches)[i] == launches[i].decisionId;
  }

  lemma RowElsewhere(a: seq<LaunchResult>, b: seq<LaunchResult>, i: nat) returns (k: nat)
    requires multiset(a) == multiset(b) && i < |b|
    ensures k < |a| && a[k] == b[i]
  {
    assert b[i] in multiset(a);
    k :| 0 <= k < |a| && a[k] == b[i];
  }

  lemma AcceptanceIgnoresOrder(launches: seq<LaunchResult>, other: seq<LaunchResult>, c: BacktestConfig)
    requires Accepted(launches, c) && multiset(launches) == multiset(other)
    ensures Accepted(other, c)
  {
    IdsUnique(launches);
    IdsUnique(other);
    assert |multiset(launches)| == |launches| && |multiset(other)| == |other|;
    forall k | 0 <= k < |other| ensures LaunchError(other[k], c).None? {
      var i := RowElsewhere(launches, other, k);
    }
    assert Distinct(launches);
    DistinctMultiset(launches, other);
    forall i, j | 0 <= i < |other| && 0 <= j < |other| && i != j
      ensures other[i].launchId != other[j].launchId && other[i].decisionId != other[j].decisionId
    {
      var k := RowElsewhere(launches, other, i);
      var m := RowElsewhere(launches, other, j);
      assert other[i] != other[j];
      assert k != m;
    }
  }

  /** The report depends on which launches there are, not on their order. */
  lemma ReportIgnoresOrder(launches: seq<LaunchResult>, other: seq<LaunchResult>, c: BacktestConfig)
    requires Accepted(launches, c) && multiset(launches) == multiset(other)
    ensures Accepted(other, c) && ReportFor(launches, c) == ReportFor(other, c)
  {
    AcceptanceIgnoresOrder(launches, other, c);
    LaunchOrder();
    IdsUnique(launches);
    assert KeysUnique(NotLater, launches);
    SortPermutation(NotLater, launches, other);
    assert |multiset(launches)| == |launches| && |multiset(other)| == |other|;
  }

  // ---------- the splits ----------

  function SplitMultiset(launches: seq<LaunchResult>, split: Split, c: BacktestConfig): multiset<LaunchResult> {
    multiset(InSplit(launches, split, c))
  }

  lemma SplitHead(launches: seq<LaunchResult>, split: Split, c: BacktestConfig)
    requires launches != []
    ensures SplitMultiset(launches, split, c)
            == SplitMultiset(launches[1..], split, c)
               + if SplitFor(launches[0], c) == split then multiset{launches[0]} else multiset{}
    ensures SplitFor(launches[0], c) != split ==>
              SplitMultiset(launches, split, c) == SplitMultiset(launches[1..], split, c)
    ensures multiset(launches) == multiset(launches[1..]) + multiset{launches[0]}
  {
    assert launches == [launches[0]] + launches[1..];
    assert SplitFor(launches[0], c) == split ==>
        InSplit(launches, split, c) == [launches[0]] + InSplit(launches[1..], split, c);
  }

  /** Every launch falls into exactly one of the four splits. */
  lemma {:induction false} SplitsPartition(launches: seq<LaunchResult>, c: BacktestConfig)
    ensures SplitMultiset(launches, Train, c) + SplitMultiset(launches, Validation, c)
            + SplitMultiset(launches, Test, c) + SplitMultiset(launches, Stress, c)
            == multiset(launches)
  {
    if launches != [] {
      var rest := launches[1..];
      SplitsPartition(rest, c);
      SplitHead(launches, Train, c);
      SplitHead(launches, Validation, c);
      SplitHead(launches, Test, c);
      SplitHead(launches, Stress, c);
      AddToOne(SplitMultiset(rest, Train, c), SplitMultiset(rest, Validation, c),
               SplitMultiset(rest, Test, c), SplitMultiset(rest, Stress, c), multiset{launches[0]});
    }
  }

  lemma AddToOne<T>(a: multiset<T>, b: multiset<T>, c: multiset<T>, d: multiset<T>, x: multiset<T>)
    ensures (a + x) + b + c + d == (a + b + c + d) + x
    ensures a + (b + x) + c + d == (a + b + c + d) + x
    ensures a + b + (c + x) + d == (a + b + c + d) + x
    ensures a + b + c + (d + x) == (a + b + c + d) + x
  {
  }

  lemma SplitSizes(launches: seq<LaunchResult>, c: BacktestConfig)
    ensures |InSplit(launches, Train, c)| + |InSplit(launches, Validation, c)|
            + |InSplit(launches, Test, c)| + |InSplit(launches, Stress, c)| == |launches|
  {
    SplitsPartition(launches, c);
    assert |SplitMultiset(launches, Train, c) + SplitMultiset(launches, Validation, c)
            + SplitMultiset(launches, Test, c) + SplitMultiset(launches, Stress, c)| == |launches|;
  }

  /** No TEST launch belongs to a train entity, precedes the model freeze, or is as
      early as a TRAIN launch. */
  lemma NoLeakage(launches: seq<LaunchResult>, c: BacktestConfig, test: LaunchResult, train: LaunchResult)
    requires Accepted(launches, c)
    requires test in launches && SplitFor(test, c) == Test
    ensures test.entityId !in c.trainEntityIds && test.entityId !in c.stressEntityIds
    ensures c.manifest.modelFreezeSlot <= c.testStartSlot <= test.decisionSlot <= c.testEndSlot
    ensures train in launches && SplitFor(train, c) == Train ==> train.decisionSlot < test.decisionSlot
  {
    var k :| 0 <= k < |launches| && launches[k] == test;
    assert LaunchError(launches[k], c).None?;
  }

  /** If every TRAIN launch belongs to a listed train entity, no entity is in both splits. */
  lemma ListedEntitiesSeparate(launches: seq<LaunchResult>, c: BacktestConfig)
    requires Accepted(launches, c)
    requires forall k :: 0 <= k < |launches| && SplitFor(launches[k], c) == Train ==>
               launches[k].entityId in c.trainEntityIds
    ensures forall i, j ::
              0 <= i < |launches| && 0 <= j < |launches|
              && SplitFor(launches[i], c) == Train && SplitFor(launches[j], c) == Test ==>
                launches[i].entityId != launches[j].entityId
  {
    forall i, j |
      && 0 <= i < |launches| && 0 <= j < |launches|
      && SplitFor(launches[i], c) == Train && SplitFor(launches[j], c) == Test
      ensures launches[i].entityId != launches[j].entityId
    {
      NoLeakage(launches, c, launches[j], launches[i]);
    }
  }

  const V := "v"
  const WITNESS_MANIFEST: FrozenModelManifest := FrozenModelManifest(20, 5, V, V, V, V, V, V, V, V, V)
  const WITNESS_CONFIG: BacktestConfig := BacktestConfig(20, V, WITNESS_MANIFEST, 5, 10, 20, [], [], 50_000)

  function WitnessLaunch(id: string, decisionSlot: int): LaunchResult {
    var row := HorizonLabel(20, id, "mint", 1_000, true, Some(1), Some(1), None, None, None, V, ["h"]);
    LaunchResult(
      20, id, id, "mint", "entity", "regime", decisionSlot, 0, Skip, NotAttempted, None, None, None, None, None,
      OutcomeLabels(20, id, "mint", V, None, None, None, [row], 1, ["o"], ["r"]), WITNESS_MANIFEST, ["r"], ["e"])
  }

  lemma WitnessLaunchOk(id: string, decisionSlot: int)
    requires id != "" && 0 <= decisionSlot <= 20
    ensures LaunchError(WitnessLaunch(id, decisionSlot), WITNESS_CONFIG).None?
  {
    var l := WitnessLaunch(id, decisionSlot);
    assert IdentityError(l, WITNESS_CONFIG).None?;
    assert LabelError(l.outcome.horizonLabels[0], l.outcome, WITNESS_CONFIG, 0).None?;
    assert l.outcome.horizonLabels[1..] == [];
    assert HorizonsError(l.outcome.horizonLabels, l.outcome, WITNESS_CONFIG, 0).None?;
  }

  /** With no train entity listed, one entity can have a TRAIN and a TEST launch. */
  lemma UnlistedEntityInBothSplits()
    ensures var train, test := WitnessLaunch("a", 0), WitnessLaunch("b", 10);
            && Accepted([train, test], WITNESS_CONFIG)
            && SplitFor(train, WITNESS_CONFIG) == Train && SplitFor(test, WITNESS_CONFIG) == Test
            && train.entityId == test.entityId
  {
    assert "a"[0] != "b"[0];
    WitnessLaunchOk("a", 0);
    WitnessLaunchOk("b", 10);
    var launches := [WitnessLaunch("a", 0), WitnessLaunch("b", 10)];
    assert LaunchIds(launches) == ["a", "b"] && DecisionIds(launches) == ["a", "b"];
    assert ConfigError(WITNESS_CONFIG).None?;
  }

  // ---------- accounting ----------

  ghost predicate ActionsOk(launches: seq<LaunchResult>) {
    forall k :: 0 <= k < |launches| ==> ActionError(launches[k]).None?
  }

  lemma {:induction false} Accounting(launches: seq<LaunchResult>)
    requires ActionsOk(launches)
    ensures |launches| == |Attempted(launches)| + ActionCount(launches, Skip) + ActionCount(launches, Abstain)
    ensures |Attempted(launches)| == |FilledLaunches(launches)| + StatusCount(launches, Failed)
                                    + StatusCount(launches, Expired) + StatusCount(launches, Unfilled)
    ensures NetPnl(launches) == NetPnl(Attempted(launches))
  {
    if launches != [] {
      var l, rest := launches[0], launches[1..];
      assert ActionError(l).None?;
      Accounting(rest);
      PnlHead(launches);
      PnlHead(Attempted(launches));
      assert l.action in {Enter, Skip, Abstain};
      assert l.fillStatus in {Filled, Failed, Expired, Unfilled, NotAttempted};
    }
  }

  lemma PnlHead(launches: seq<LaunchResult>)
    ensures launches != [] ==> NetPnl(launches) == PnlOf(launches[0]) + NetPnl(launches[1..])
  {
    if launches != [] {
      assert Pnls(launches)[1..] == Pnls(launches[1..]);
    }
  }

  lemma RatioRange(numerator: int, denominator: int)
    requires 0 <= numerator <= denominator
    ensures ProbabilityPpm(BoundedRatioPpm(numerator, denominator))
  {
    if denominator > 0 {
      FloorGalois(0, numerator * PPM, denominator);
    }
  }

  /** The counts and sums of a row add up. */
  ghost predicate AddsUp(m: SplitMetrics, rows: seq<LaunchResult>) {
    && m.observed == |rows|
    && m.observed == m.attempted + m.skipped + m.abstained
    && m.attempted == m.filled + m.failed + m.expired + m.unfilled
    && m.netPnlObserved == m.netPnlAttempted == NetPnl(rows)
    && RatiosInRange(m)
  }

  ghost predicate RatiosInRange(m: SplitMetrics) {
    && ProbabilityPpm(m.coveragePpm)
    && (m.fillFailurePpm.Some? <==> m.attempted > 0)
    && (m.fillFailurePpm.Some? ==> ProbabilityPpm(m.fillFailurePpm.value))
  }

  /** The drawdown is the greatest fall between prefix sums, and the shortfall lies
      between the worst attempted result and the floored mean. */
  ghost predicate RiskExact(m: SplitMetrics, rows: seq<LaunchResult>) {
    && IsMaxDrawdown(Pnls(rows), m.maximumDrawdown)
    && (m.expectedShortfall.Some? <==> Attempted(rows) != [])
    && (Attempted(rows) != [] ==>
          MinOf(Pnls(Attempted(rows))) <= m.expectedShortfall.value
          <= NetPnl(Attempted(rows)) / |Attempted(rows)|)
  }

  lemma RowAddsUp(split: Split, rows: seq<LaunchResult>, c: BacktestConfig)
    requires 0 < c.shortfallTailPpm <= PPM && ActionsOk(rows)
    ensures AddsUp(MetricsFor(split, rows, c), rows)
  {
    Accounting(rows);
    RowRatios(split, rows, c);
  }

  lemma RowRatios(split: Split, rows: seq<LaunchResult>, c: BacktestConfig)
    requires 0 < c.shortfallTailPpm <= PPM && |FilledLaunches(rows)| <= |Attempted(rows)| <= |rows|
    ensures RatiosInRange(MetricsFor(split, rows, c))
  {
    RatioRange(|Attempted(rows)|, |rows|);
    RatioRange(|Attempted(rows)| - |FilledLaunches(rows)|, |Attempted(rows)|);
  }

  lemma RowRiskExact(split: Split, rows: seq<LaunchResult>, c: BacktestConfig)
    requires 0 < c.shortfallTailPpm <= PPM
    ensures RiskExact(MetricsFor(split, rows, c), rows)
  {
    ScanDeepest(Pnls(rows));
    if Attempted(rows) != [] {
      ShortfallBounds(Pnls(Attempted(rows)), c.shortfallTailPpm);
    }
  }

  lemma SplitActionsOk(launches: seq<LaunchResult>, c: BacktestConfig, split: Split)
    requires Accepted(launches, c)
    ensures ActionsOk(InSplit(OrderedLaunches(launches), split, c))
  {
    var ordered := OrderedLaunches(launches);
    var rows := InSplit(ordered, split, c);
    SortMultiset(NotLater, launches);
    forall k | 0 <= k < |rows| ensures ActionError(rows[k]).None? {
      assert rows[k] in rows;
      assert rows[k] in ordered;
      AcceptedAction(launches, c, ordered, rows[k]);
    }
  }

  lemma AcceptedAction(launches: seq<LaunchResult>, c: BacktestConfig, ordered: seq<LaunchResult>, l: LaunchResult)
    requires Accepted(launches, c) && multiset(ordered) == multiset(launches) && l in ordered
    ensures ActionError(l).None?
  {
    var j :| 0 <= j < |ordered| && ordered[j] == l;
    var i := RowElsewhere(launches, ordered, j);
    assert LaunchError(launches[i], c).None?;
  }

  /** An accepted report has one sound row per split, and the rows cover all launches. */
  lemma ReportSound(launches: seq<LaunchResult>, c: BacktestConfig, k: nat)
    requires Accepted(launches, c) && k < |SPLITS|
    ensures var report, rows := ReportFor(launches, c), InSplit(OrderedLaunches(launches), SPLITS[k], c);
            && |report.splitMetrics| == |SPLITS|
            && report.splitMetrics[k].split == SPLITS[k]
            && AddsUp(report.splitMetrics[k], rows) && RiskExact(report.splitMetrics[k], rows)
  {
    var ordered := OrderedLaunches(launches);
    SplitActionsOk(launches, c, SPLITS[k]);
    RowAddsUp(SPLITS[k], InSplit(ordered, SPLITS[k], c), c);
    RowRiskExact(SPLITS[k], InSplit(ordered, SPLITS[k], c), c);
  }

  lemma ReportCoversLaunches(launches: seq<LaunchResult>, c: BacktestConfig)
    requires Accepted(launches, c)
    ensures var rows := ReportFor(launches, c).splitMetrics;
            && |rows| == 4
            && rows[0].observed + rows[1].observed + rows[2].observed + rows[3].observed
               == ReportFor(launches, c).sourceLaunchCount
  {
    SplitSizes(OrderedLaunches(launches), c);
    var rows := ReportFor(launches, c).splitMetrics;
    assert rows[0] == SplitRow(OrderedLaunches(launches), SPLITS[0], c);
    assert rows[1] == SplitRow(OrderedLaunches(launches), SPLITS[1], c);
    assert rows[2] == SplitRow(OrderedLaunches(launches), SPLITS[2], c);
    assert rows[3] == SplitRow(OrderedLaunches(launches), SPLITS[3], c);
  }
}
