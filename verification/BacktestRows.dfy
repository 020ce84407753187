/** What each row of the report says, in terms of the launches themselves: which ones it
    counts, by entity and slot, and what each of its figures adds up. */
module BacktestRows {
  import opened Domain
  import opened Ordering
  import opened Backtest
  import opened BacktestRisk
  import opened BacktestReport

  // ---------- which launches a row counts ----------

  /** Membership of a row, by entity and decision slot. */
  ghost predicate BelongsTo(l: LaunchResult, c: BacktestConfig, split: Split) {
    match split
    case Stress => l.entityId in c.stressEntityIds
    case Train => l.entityId !in c.stressEntityIds && l.decisionSlot <= c.trainEndSlot
    case Validation => l.entityId !in c.stressEntityIds && c.trainEndSlot < l.decisionSlot < c.testStartSlot
    case Test => l.entityId !in c.stressEntityIds && c.testStartSlot <= l.decisionSlot
  }

  lemma SplitIffBelongs(l: LaunchResult, c: BacktestConfig, split: Split)
    requires c.trainEndSlot < c.testStartSlot
    ensures SplitFor(l, c) == split <==> BelongsTo(l, c, split)
  {
  }

  /** A figure added up over the launches that belong to a row. */
  ghost function RowTotal(
    launches: seq<LaunchResult>, c: BacktestConfig, split: Split, figure: LaunchResult -> int): int
  {
    if launches == [] then 0
    else
      (if BelongsTo(launches[0], c, split) then figure(launches[0]) else 0)
      + RowTotal(launches[1..], c, split, figure)
  }

  lemma {:induction false} RowTotalSplits(
    a: seq<LaunchResult>, b: seq<LaunchResult>, c: BacktestConfig, split: Split, figure: LaunchResult -> int)
    ensures RowTotal(a + b, c, split, figure) == RowTotal(a, c, split, figure) + RowTotal(b, c, split, figure)
  {
    if a == [] {
      assert a + b == b;
    } else {
      assert (a + b)[0] == a[0] && (a + b)[1..] == a[1..] + b;
      RowTotalSplits(a[1..], b, c, split, figure);
    }
  }

  lemma RowTotalWithout(
    xs: seq<LaunchResult>, i: nat, c: BacktestConfig, split: Split, figure: LaunchResult -> int)
    requires i < |xs|
    ensures RowTotal(xs, c, split, figure)
            == (if BelongsTo(xs[i], c, split) then figure(xs[i]) else 0)
               + RowTotal(xs[..i] + xs[i + 1..], c, split, figure)
  {
    RowTotalSplits(xs[..i], xs[i..], c, split, figure);
    RowTotalSplits(xs[..i], xs[i + 1..], c, split, figure);
    assert xs == xs[..i] + xs[i..] && xs[i..][1..] == xs[i + 1..];
  }

  lemma {:induction false} RowTotalPermutes(
    a: seq<LaunchResult>, b: seq<LaunchResult>, c: BacktestConfig, split: Split, figure: LaunchResult -> int)
    requires multiset(a) == multiset(b)
    ensures RowTotal(a, c, split, figure) == RowTotal(b, c, split, figure)
    decreases |a|
  {
    SameSize(a, b);
    if a != [] {
      var i := RowElsewhere(b, a, 0);
      RowTotalWithout(b, i, c, split, figure);
      TailMultiset(a);
      WithoutMultiset(b, i);
      RowTotalPermutes(a[1..], b[..i] + b[i + 1..], c, split, figure);
    }
  }

  lemma WithoutMultiset(xs: seq<LaunchResult>, i: nat)
    requires i < |xs|
    ensures multiset(xs[..i] + xs[i + 1..]) == multiset(xs) - multiset{xs[i]}
  {
    assert xs == xs[..i] + [xs[i]] + xs[i + 1..];
  }

  /** The total over the ordered launches of a row is the total over the input. */
  lemma OrderedRowTotal(launches: seq<LaunchResult>, c: BacktestConfig, split: Split, figure: LaunchResult -> int)
    ensures RowTotal(OrderedLaunches(launches), c, split, figure) == RowTotal(launches, c, split, figure)
  {
    SortMultiset(NotLater, launches);
    RowTotalPermutes(OrderedLaunches(launches), launches, c, split, figure);
  }

  // ---------- counts and sums of a row ----------

  lemma {:induction false} CountIsTotal(
    ordered: seq<LaunchResult>, c: BacktestConfig, split: Split, keep: LaunchResult -> bool,
    figure: LaunchResult -> int)
    requires c.trainEndSlot < c.testStartSlot
    requires forall l :: figure(l) == if keep(l) then 1 else 0
    ensures Count(keep, InSplit(ordered, split, c)) == RowTotal(ordered, c, split, figure)
  {
    if ordered != [] {
      CountIsTotal(ordered[1..], c, split, keep, figure);
      SplitIffBelongs(ordered[0], c, split);
      InSplitHead(ordered, c, split);
    }
  }

  lemma InSplitHead(ordered: seq<LaunchResult>, c: BacktestConfig, split: Split)
    requires ordered != []
    ensures InSplit(ordered, split, c)
            == (if SplitFor(ordered[0], c) == split then [ordered[0]] else []) + InSplit(ordered[1..], split, c)
    ensures SplitFor(ordered[0], c) == split ==>
              InSplit(ordered, split, c)[0] == ordered[0]
              && InSplit(ordered, split, c)[1..] == InSplit(ordered[1..], split, c)
  {
  }

  /** The sum of a value over the kept launches of a row. */
  lemma {:induction false} SumIsTotal(
    ordered: seq<LaunchResult>, c: BacktestConfig, split: Split, keep: LaunchResult -> bool,
    value: LaunchResult -> int, figure: LaunchResult -> int)
    requires c.trainEndSlot < c.testStartSlot
    requires forall l :: figure(l) == if keep(l) then value(l) else 0
    ensures Sum(MapSeq(value, Filter(keep, InSplit(ordered, split, c)))) == RowTotal(ordered, c, split, figure)
  {
    if ordered != [] {
      SumIsTotal(ordered[1..], c, split, keep, value, figure);
      SplitIffBelongs(ordered[0], c, split);
      InSplitHead(ordered, c, split);
      MappedHead(value, Filter(keep, InSplit(ordered, split, c)));
    }
  }

  lemma MappedHead(value: LaunchResult -> int, rows: seq<LaunchResult>)
    ensures rows != [] ==> Sum(MapSeq(value, rows)) == value(rows[0]) + Sum(MapSeq(value, rows[1..]))
  {
    if rows != [] {
      assert MapSeq(value, rows)[1..] == MapSeq(value, rows[1..]);
    }
  }

  lemma {:induction false} WholeSumIsTotal(
    ordered: seq<LaunchResult>, c: BacktestConfig, split: Split, value: LaunchResult -> int)
    requires c.trainEndSlot < c.testStartSlot
    ensures Sum(MapSeq(value, InSplit(ordered, split, c))) == RowTotal(ordered, c, split, value)
  {
    if ordered != [] {
      WholeSumIsTotal(ordered[1..], c, split, value);
      SplitIffBelongs(ordered[0], c, split);
      InSplitHead(ordered, c, split);
      MappedHead(value, InSplit(ordered, split, c));
    }
  }

  // ---------- the figures of a launch ----------

  ghost function AnyLaunch(l: LaunchResult): int { 1 }
  ghost function Flag(b: bool): int { if b then 1 else 0 }
  ghost function IsEntered(l: LaunchResult): int { Flag(l.action == Enter) }
  ghost function IsSkipped(l: LaunchResult): int { Flag(l.action == Skip) }
  ghost function IsAbstained(l: LaunchResult): int { Flag(l.action == Abstain) }
  ghost function IsFilled(l: LaunchResult): int { Flag(l.fillStatus == Filled) }
  ghost function IsFailed(l: LaunchResult): int { Flag(l.fillStatus == Failed) }
  ghost function IsExpired(l: LaunchResult): int { Flag(l.fillStatus == Expired) }
  ghost function IsUnfilled(l: LaunchResult): int { Flag(l.fillStatus == Unfilled) }
  ghost function IsAdverseOrder(l: LaunchResult): int { Flag(l.ordering == Some(AdverseSameSlot)) }

  ghost function IsCensored(l: LaunchResult): int {
    Flag(exists k :: 0 <= k < |l.outcome.horizonLabels| && l.outcome.horizonLabels[k].censored)
  }

  /** The opportunity of a launch, where there was one. */
  ghost function Opportunity(l: LaunchResult): int {
    match l.outcome.maxOpportunity case None => 0 case Some(v) => if v > 0 then v else 0
  }

  ghost function IsMissedProfit(l: LaunchResult): int { Flag(l.action != Enter && Opportunity(l) > 0) }
  ghost function IsAdverseEntry(l: LaunchResult): int { Flag(l.action == Enter && l.outcome.adverseEventSlot.Some?) }

  ghost function Given(value: Option<int>): int {
    match value case None => 0 case Some(v) => v
  }

  ghost function Result(l: LaunchResult): int { Given(l.netPnl) }
  ghost function EnteredResult(l: LaunchResult): int { if l.action == Enter then Given(l.netPnl) else 0 }
  ghost function FilledResult(l: LaunchResult): int { if l.fillStatus == Filled then Given(l.netPnl) else 0 }
  ghost function EnteredGross(l: LaunchResult): int { if l.action == Enter then Given(l.grossProfit) else 0 }
  ghost function EnteredCost(l: LaunchResult): int { if l.action == Enter then Given(l.executionCost) else 0 }

  ghost function CapturedProfit(l: LaunchResult): int {
    if l.fillStatus == Filled && Given(l.netPnl) > 0 then Given(l.netPnl) else 0
  }

  // ---------- the meaning of a row ----------

  /** A ratio in parts per million, rounded down; absent when there is nothing to divide by. */
  ghost function Ratio(numerator: int, denominator: int): Option<int> {
    if denominator <= 0 then None else Some(numerator * PPM / denominator)
  }

  lemma RatioRoundsDown(numerator: int, denominator: int)
    requires denominator > 0
    ensures var ratio := Ratio(numerator, denominator).value;
            ratio * denominator <= numerator * PPM < (ratio + 1) * denominator
  {
    FloorBounds(numerator * PPM, denominator);
  }

  ghost predicate RowCounts(m: SplitMetrics, launches: seq<LaunchResult>, c: BacktestConfig, split: Split) {
    && m.observed == RowTotal(launches, c, split, AnyLaunch)
    && m.attempted == RowTotal(launches, c, split, IsEntered)
    && m.skipped == RowTotal(launches, c, split, IsSkipped)
    && m.abstained == RowTotal(launches, c, split, IsAbstained)
    && m.filled == RowTotal(launches, c, split, IsFilled)
    && m.failed == RowTotal(launches, c, split, IsFailed)
    && m.expired == RowTotal(launches, c, split, IsExpired)
    && m.unfilled == RowTotal(launches, c, split, IsUnfilled)
    && m.censored == RowTotal(launches, c, split, IsCensored)
    && m.adverseOrder == RowTotal(launches, c, split, IsAdverseOrder)
    && m.profitableSkipped == RowTotal(launches, c, split, IsMissedProfit)
    && m.adverseEntered == RowTotal(launches, c, split, IsAdverseEntry)
  }

  ghost predicate RowSums(m: SplitMetrics, launches: seq<LaunchResult>, c: BacktestConfig, split: Split) {
    && m.netPnlObserved == RowTotal(launches, c, split, Result)
    && m.netPnlAttempted == RowTotal(launches, c, split, EnteredResult)
    && m.netPnlFilled == RowTotal(launches, c, split, FilledResult)
  }

  ghost predicate CoverageMeans(m: SplitMetrics) {
    m.coveragePpm == if m.observed == 0 then 0 else Ratio(m.attempted, m.observed).value
  }

  ghost predicate FailureMeans(m: SplitMetrics) {
    m.fillFailurePpm == Ratio(m.attempted - m.filled, m.attempted)
  }

  ghost predicate CostMeans(m: SplitMetrics, launches: seq<LaunchResult>, c: BacktestConfig, split: Split) {
    m.costToGrossProfitPpm
    == Ratio(RowTotal(launches, c, split, EnteredCost), RowTotal(launches, c, split, EnteredGross))
  }

  ghost predicate CaptureMeans(m: SplitMetrics, launches: seq<LaunchResult>, c: BacktestConfig, split: Split) {
    m.profitCapturePpm
    == Ratio(RowTotal(launches, c, split, CapturedProfit), RowTotal(launches, c, split, Opportunity))
  }

  lemma CountOfRow(
    launches: seq<LaunchResult>, c: BacktestConfig, split: Split, keep: LaunchResult -> bool,
    figure: LaunchResult -> int)
    requires c.trainEndSlot < c.testStartSlot
    requires forall l :: figure(l) == if keep(l) then 1 else 0
    ensures Count(keep, InSplit(OrderedLaunches(launches), split, c)) == RowTotal(launches, c, split, figure)
  {
    CountIsTotal(OrderedLaunches(launches), c, split, keep, figure);
    OrderedRowTotal(launches, c, split, figure);
  }

  lemma SumOfRow(
    launches: seq<LaunchResult>, c: BacktestConfig, split: Split, keep: LaunchResult -> bool,
    value: LaunchResult -> int, figure: LaunchResult -> int)
    requires c.trainEndSlot < c.testStartSlot
    requires forall l :: figure(l) == if keep(l) then value(l) else 0
    ensures Sum(MapSeq(value, Filter(keep, InSplit(OrderedLaunches(launches), split, c))))
            == RowTotal(launches, c, split, figure)
  {
    SumIsTotal(OrderedLaunches(launches), c, split, keep, value, figure);
    OrderedRowTotal(launches, c, split, figure);
  }

  lemma WholeSumOfRow(
    launches: seq<LaunchResult>, c: BacktestConfig, split: Split, value: LaunchResult -> int,
    figure: LaunchResult -> int)
    requires c.trainEndSlot < c.testStartSlot
    requires forall l :: figure(l) == value(l)
    ensures Sum(MapSeq(value, InSplit(OrderedLaunches(launches), split, c))) == RowTotal(launches, c, split, figure)
  {
    WholeSumIsTotal(OrderedLaunches(launches), c, split, value);
    OrderedRowTotal(launches, c, split, value);
    SameFigures(launches, c, split, value, figure);
  }

  lemma {:induction false} SameFigures(
    launches: seq<LaunchResult>, c: BacktestConfig, split: Split, value: LaunchResult -> int,
    figure: LaunchResult -> int)
    requires forall l :: figure(l) == value(l)
    ensures RowTotal(launches, c, split, value) == RowTotal(launches, c, split, figure)
  {
    if launches != [] {
      SameFigures(launches[1..], c, split, value, figure);
    }
  }

  lemma TradeCounts(launches: seq<LaunchResult>, c: BacktestConfig, split: Split)
    requires c.trainEndSlot < c.testStartSlot
    ensures var rows := InSplit(OrderedLaunches(launches), split, c);
            && |rows| == RowTotal(launches, c, split, AnyLaunch)
            && |Attempted(rows)| == RowTotal(launches, c, split, IsEntered)
            && |FilledLaunches(rows)| == RowTotal(launches, c, split, IsFilled)
            && StatusCount(rows, Failed) == RowTotal(launches, c, split, IsFailed)
            && StatusCount(rows, Expired) == RowTotal(launches, c, split, IsExpired)
            && StatusCount(rows, Unfilled) == RowTotal(launches, c, split, IsUnfilled)
            && ActionCount(rows, Skip) == RowTotal(launches, c, split, IsSkipped)
            && ActionCount(rows, Abstain) == RowTotal(launches, c, split, IsAbstained)
  {
    WholeCount(launches, c, split);
    CountOfRow(launches, c, split, IsAttempted, IsEntered);
    CountOfRow(launches, c, split, (l: LaunchResult) => l.fillStatus == Filled, IsFilled);
    CountOfRow(launches, c, split, (l: LaunchResult) => l.fillStatus == Failed, IsFailed);
    CountOfRow(launches, c, split, (l: LaunchResult) => l.fillStatus == Expired, IsExpired);
    CountOfRow(launches, c, split, (l: LaunchResult) => l.fillStatus == Unfilled, IsUnfilled);
    CountOfRow(launches, c, split, (l: LaunchResult) => l.action == Skip, IsSkipped);
    CountOfRow(launches, c, split, (l: LaunchResult) => l.action == Abstain, IsAbstained);
  }

  lemma WholeCount(launches: seq<LaunchResult>, c: BacktestConfig, split: Split)
    requires c.trainEndSlot < c.testStartSlot
    ensures |InSplit(OrderedLaunches(launches), split, c)| == RowTotal(launches, c, split, AnyLaunch)
  {
    var all := (l: LaunchResult) => true;
    CountOfRow(launches, c, split, all, AnyLaunch);
    KeepAll(all, InSplit(OrderedLaunches(launches), split, c));
  }

  lemma {:induction false} KeepAll(keep: LaunchResult -> bool, rows: seq<LaunchResult>)
    requires forall l :: keep(l)
    ensures Filter(keep, rows) == rows
  {
    if rows != [] {
      KeepAll(keep, rows[1..]);
    }
  }

  lemma OutcomeCounts(launches: seq<LaunchResult>, c: BacktestConfig, split: Split)
    requires c.trainEndSlot < c.testStartSlot && 0 < c.shortfallTailPpm <= PPM
    ensures var m := SplitRow(OrderedLaunches(launches), split, c);
            && m.censored == RowTotal(launches, c, split, IsCensored)
            && m.adverseOrder == RowTotal(launches, c, split, IsAdverseOrder)
            && m.profitableSkipped == RowTotal(launches, c, split, IsMissedProfit)
            && m.adverseEntered == RowTotal(launches, c, split, IsAdverseEntry)
  {
    CountOfRow(launches, c, split, HasCensoredOutcome, IsCensored);
    CountOfRow(launches, c, split, (l: LaunchResult) => l.ordering == Some(AdverseSameSlot), IsAdverseOrder);
    CountOfRow(launches, c, split,
               (l: LaunchResult) => l.action in {Skip, Abstain} && PositiveOpportunity(l) > 0, IsMissedProfit);
    CountOfRow(launches, c, split,
               (l: LaunchResult) => l.action == Enter && l.outcome.adverseEventSlot.Some?, IsAdverseEntry);
  }

  lemma RowCountsHold(launches: seq<LaunchResult>, c: BacktestConfig, split: Split)
    requires c.trainEndSlot < c.testStartSlot && 0 < c.shortfallTailPpm <= PPM
    ensures RowCounts(SplitRow(OrderedLaunches(launches), split, c), launches, c, split)
  {
    TradeCounts(launches, c, split);
    OutcomeCounts(launches, c, split);
  }

  lemma RowSumsHold(launches: seq<LaunchResult>, c: BacktestConfig, split: Split)
    requires c.trainEndSlot < c.testStartSlot && 0 < c.shortfallTailPpm <= PPM
    ensures RowSums(SplitRow(OrderedLaunches(launches), split, c), launches, c, split)
  {
    WholeSumOfRow(launches, c, split, PnlOf, Result);
    SumOfRow(launches, c, split, IsAttempted, PnlOf, EnteredResult);
    SumOfRow(launches, c, split, (l: LaunchResult) => l.fillStatus == Filled, PnlOf, FilledResult);
  }

  lemma BoundedIsRatio(numerator: int, denominator: int)
    requires 0 <= numerator <= denominator
    ensures denominator > 0 ==> BoundedRatioPpm(numerator, denominator) == Ratio(numerator, denominator).value
    ensures OptionalRatioPpm(numerator, denominator) == Ratio(numerator, denominator)
    ensures denominator == 0 ==> BoundedRatioPpm(numerator, denominator) == 0
  {
    if denominator > 0 {
      FloorGalois(PPM + 1, numerator * PPM, denominator);
    }
  }

  lemma CostRatio(launches: seq<LaunchResult>, c: BacktestConfig, split: Split)
    requires c.trainEndSlot < c.testStartSlot
    ensures CostToGrossProfitPpm(Attempted(InSplit(OrderedLaunches(launches), split, c)))
            == Ratio(RowTotal(launches, c, split, EnteredCost), RowTotal(launches, c, split, EnteredGross))
  {
    var gross, cost := (l: LaunchResult) => OrZero(l.grossProfit), (l: LaunchResult) => OrZero(l.executionCost);
    SumOfRow(launches, c, split, IsAttempted, gross, EnteredGross);
    SumOfRow(launches, c, split, IsAttempted, cost, EnteredCost);
  }

  lemma CaptureRatio(launches: seq<LaunchResult>, c: BacktestConfig, split: Split)
    requires c.trainEndSlot < c.testStartSlot
    ensures ProfitCapturePpm(InSplit(OrderedLaunches(launches), split, c))
            == Ratio(RowTotal(launches, c, split, CapturedProfit), RowTotal(launches, c, split, Opportunity))
  {
    WholeSumOfRow(launches, c, split, PositiveOpportunity, Opportunity);
    WholeSumOfRow(launches, c, split,
                  (l: LaunchResult) => if l.fillStatus == Filled then Max(0, PnlOf(l)) else 0, CapturedProfit);
  }

  lemma TradesWithin(launches: seq<LaunchResult>, c: BacktestConfig, split: Split)
    requires Accepted(launches, c)
    ensures c.trainEndSlot < c.testStartSlot && 0 < c.shortfallTailPpm <= PPM
    ensures var rows := InSplit(OrderedLaunches(launches), split, c);
            |FilledLaunches(rows)| <= |Attempted(rows)| <= |rows|
  {
    SplitActionsOk(launches, c, split);
    Accounting(InSplit(OrderedLaunches(launches), split, c));
  }

  lemma CoverageHolds(split: Split, rows: seq<LaunchResult>, c: BacktestConfig)
    requires 0 < c.shortfallTailPpm <= PPM && |Attempted(rows)| <= |rows|
    ensures CoverageMeans(MetricsFor(split, rows, c))
  {
    BoundedIsRatio(|Attempted(rows)|, |rows|);
  }

  lemma FailureField(split: Split, rows: seq<LaunchResult>, c: BacktestConfig) returns (m: SplitMetrics)
    requires 0 < c.shortfallTailPpm <= PPM && |FilledLaunches(rows)| <= |Attempted(rows)|
    ensures m == MetricsFor(split, rows, c) && m.filled <= m.attempted
    ensures m.fillFailurePpm == OptionalRatioPpm(m.attempted - m.filled, m.attempted)
  {
    m := MetricsFor(split, rows, c);
  }

  lemma FailureFrom(m: SplitMetrics)
    requires m.filled <= m.attempted && m.fillFailurePpm == OptionalRatioPpm(m.attempted - m.filled, m.attempted)
    ensures FailureMeans(m)
  {
    BoundedIsRatio(m.attempted - m.filled, m.attempted);
  }

  lemma FailureHolds(split: Split, rows: seq<LaunchResult>, c: BacktestConfig)
    requires 0 < c.shortfallTailPpm <= PPM && |FilledLaunches(rows)| <= |Attempted(rows)|
    ensures FailureMeans(MetricsFor(split, rows, c))
  {
    var m := FailureField(split, rows, c);
    FailureFrom(m);
  }

  lemma CostHolds(launches: seq<LaunchResult>, c: BacktestConfig, split: Split)
    requires c.trainEndSlot < c.testStartSlot && 0 < c.shortfallTailPpm <= PPM
    ensures CostMeans(SplitRow(OrderedLaunches(launches), split, c), launches, c, split)
  {
    CostRatio(launches, c, split);
  }

  lemma CaptureHolds(launches: seq<LaunchResult>, c: BacktestConfig, split: Split)
    requires c.trainEndSlot < c.testStartSlot && 0 < c.shortfallTailPpm <= PPM
    ensures CaptureMeans(SplitRow(OrderedLaunches(launches), split, c), launches, c, split)
  {
    CaptureRatio(launches, c, split);
  }

  lemma ConfigBounds(launches: seq<LaunchResult>, c: BacktestConfig)
    requires Accepted(launches, c)
    ensures c.trainEndSlot < c.testStartSlot && 0 < c.shortfallTailPpm <= PPM
  {
  }

  lemma ReportRow(launches: seq<LaunchResult>, c: BacktestConfig, k: nat) returns (m: SplitMetrics)
    requires 0 < c.shortfallTailPpm <= PPM && k < |SPLITS|
    ensures m == ReportFor(launches, c).splitMetrics[k] == SplitRow(OrderedLaunches(launches), SPLITS[k], c)
    ensures m.split == SPLITS[k] && m.asOfSlot == c.asOfSlot
  {
    m := SplitRow(OrderedLaunches(launches), SPLITS[k], c);
  }

  lemma RowPresence(launches: seq<LaunchResult>, c: BacktestConfig, split: Split)
    requires c.trainEndSlot < c.testStartSlot
    ensures InSplit(OrderedLaunches(launches), split, c) != [] <==> exists l :: l in launches && BelongsTo(l, c, split)
  {
    var rows := InSplit(OrderedLaunches(launches), split, c);
    SameMembers(NotLater, launches);
    forall l ensures l in rows <==> l in launches && BelongsTo(l, c, split) {
      SplitIffBelongs(l, c, split);
    }
    if rows != [] {
      assert rows[0] in rows;
    }
  }

  /** Row k of an accepted report is that of split k, and each of its counts and sums is
      the one that the launches belonging to the split add up to. */
  lemma ReportRowAdds(launches: seq<LaunchResult>, c: BacktestConfig, k: nat)
    requires Accepted(launches, c) && k < |SPLITS|
    ensures 0 < c.shortfallTailPpm <= PPM
    ensures var m := ReportFor(launches, c).splitMetrics[k];
            && m.split == SPLITS[k] && m.asOfSlot == c.asOfSlot
            && RowCounts(m, launches, c, SPLITS[k])
            && RowSums(m, launches, c, SPLITS[k])
            && (m.hasLaunches <==> exists l :: l in launches && BelongsTo(l, c, SPLITS[k]))
  {
    ConfigBounds(launches, c);
    var m := ReportRow(launches, c, k);
    RowPresence(launches, c, SPLITS[k]);
    RowCountsHold(launches, c, SPLITS[k]);
    RowSumsHold(launches, c, SPLITS[k]);
  }

  /** And its ratios are those of the counts and sums, rounded down. */
  lemma ReportRowRatios(launches: seq<LaunchResult>, c: BacktestConfig, k: nat)
    requires Accepted(launches, c) && k < |SPLITS|
    ensures 0 < c.shortfallTailPpm <= PPM
    ensures CoverageMeans(ReportFor(launches, c).splitMetrics[k])
    ensures FailureMeans(ReportFor(launches, c).splitMetrics[k])
    ensures CostMeans(ReportFor(launches, c).splitMetrics[k], launches, c, SPLITS[k])
    ensures CaptureMeans(ReportFor(launches, c).splitMetrics[k], launches, c, SPLITS[k])
  {
    ConfigBounds(launches, c);
    var m := ReportRow(launches, c, k);
    TradesWithin(launches, c, SPLITS[k]);
    CoverageHolds(SPLITS[k], InSplit(OrderedLaunches(launches), SPLITS[k], c), c);
    FailureHolds(SPLITS[k], InSplit(OrderedLaunches(launches), SPLITS[k], c), c);
    CostHolds(launches, c, SPLITS[k]);
    CaptureHolds(launches, c, SPLITS[k]);
  }

  // ---------- the order within a row ----------

  /** The launches are taken in order of decision slot, then index, then identifier. */
  lemma LaunchesInOrder(launches: seq<LaunchResult>, i: nat, j: nat)
    requires i < j < |launches|
    ensures var a, b := OrderedLaunches(launches)[i], OrderedLaunches(launches)[j];
            && a.decisionSlot <= b.decisionSlot
            && (a.decisionSlot == b.decisionSlot ==> a.decisionIndex <= b.decisionIndex)
            && (a.decisionSlot == b.decisionSlot && a.decisionIndex == b.decisionIndex ==>
                  a.launchId == b.launchId || StringLess(a.launchId, b.launchId))
    ensures multiset(OrderedLaunches(launches)) == multiset(launches)
  {
    LaunchOrder();
    StringOrder();
    SortOrdered(NotLater, launches);
    SortMultiset(NotLater, launches);
    assert NotLater(OrderedLaunches(launches)[i], OrderedLaunches(launches)[j]);
  }

  // ---------- the shortfall of a row ----------

  /** The floored mean of the worst `k` results, where `k` is the tail's share, rounded up. */
  ghost predicate IsWorstMean(pnls: seq<int>, tailPpm: int, mean: int) {
    exists tail: seq<int> ::
      && tail != [] && multiset(tail) <= multiset(pnls)
      && (|tail| - 1) * PPM < |pnls| * tailPpm <= |tail| * PPM
      && mean == Sum(tail) / |tail|
      && forall sub: seq<int> :: |sub| == |tail| && multiset(sub) <= multiset(pnls) ==> Sum(tail) <= Sum(sub)
  }

  lemma WorstMeanHolds(pnls: seq<int>, tailPpm: int)
    requires pnls != [] && 0 < tailPpm <= PPM
    ensures IsWorstMean(pnls, tailPpm, ExpectedShortfall(pnls, tailPpm).value)
  {
    ShortfallIsWorstMean(pnls, tailPpm);
    var k := TailCount(|pnls|, tailPpm);
    var tail: seq<int> :|
      && |tail| == k && multiset(tail) <= multiset(pnls)
      && ExpectedShortfall(pnls, tailPpm) == Some(Sum(tail) / k)
      && forall sub: seq<int> :: |sub| == k && multiset(sub) <= multiset(pnls) ==> Sum(tail) <= Sum(sub);
  }

  /** The shortfall of a row is that of the entered results of the row, at the configured
      tail, and is absent when nothing was entered. */
  lemma RowShortfall(launches: seq<LaunchResult>, c: BacktestConfig, split: Split)
    requires 0 < c.shortfallTailPpm <= PPM
    ensures var m, entered := SplitRow(OrderedLaunches(launches), split, c),
                              Attempted(InSplit(OrderedLaunches(launches), split, c));
            if entered == [] then m.expectedShortfall == None
            else m.expectedShortfall.Some?
                 && IsWorstMean(Pnls(entered), c.shortfallTailPpm, m.expectedShortfall.value)
  {
    var entered := Attempted(InSplit(OrderedLaunches(launches), split, c));
    if entered != [] {
      WorstMeanHolds(Pnls(entered), c.shortfallTailPpm);
    }
  }

  // ---------- evidence and abstentions ----------

  /** A report carries every identifier of a launch or of its outcome once, counts every
      launch, and names its configuration. */
  lemma ReportCarries(launches: seq<LaunchResult>, c: BacktestConfig)
    requires 0 < c.shortfallTailPpm <= PPM
    ensures var report := ReportFor(launches, c);
            && Distinct(report.evidenceIds)
            && (forall e :: e in report.evidenceIds <==>
                  exists l :: l in launches && (e in l.evidenceIds || e in l.outcome.evidenceIds))
            && report.sourceLaunchCount == |launches| && report.asOfSlot == c.asOfSlot
            && report.evaluationVersion == c.evaluationVersion && report.manifest == c.manifest
  {
    var ordered := OrderedLaunches(launches);
    SameMembers(NotLater, launches);
    forall e
      ensures e in EvidenceLists(ordered) <==>
                exists l :: l in launches && (e in l.evidenceIds || e in l.outcome.evidenceIds)
    {
      EvidenceOfLaunches(ordered, e);
    }
  }

  lemma EvidenceOfLaunches(ordered: seq<LaunchResult>, e: string)
    ensures e in EvidenceLists(ordered) <==>
            exists l :: l in ordered && (e in l.evidenceIds || e in l.outcome.evidenceIds)
  {
    var lists := MapSeq((l: LaunchResult) => l.evidenceIds + l.outcome.evidenceIds, ordered);
    if e in EvidenceLists(ordered) {
      var k :| 0 <= k < |lists| && e in lists[k];
      assert ordered[k] in ordered;
    }
    if l :| l in ordered && (e in l.evidenceIds || e in l.outcome.evidenceIds) {
      var k :| 0 <= k < |ordered| && ordered[k] == l;
      assert e in lists[k];
    }
  }

  /** A rejected configuration abstains at slot -1 when its own slots are malformed, and
      at its slot otherwise. */
  lemma AbstentionSlot(c: BacktestConfig)
    ensures AbstainSlot(c) == -1 <==>
              || c.asOfSlot <= -1
              || (c.evaluationVersion != "" && (c.trainEndSlot < 0 || c.testStartSlot < 0 || c.testEndSlot < 0))
    ensures AbstainSlot(c) != -1 ==> AbstainSlot(c) == c.asOfSlot
  {
  }
}
