/** Collapse detection: a one-pass running-peak scan that must agree with the
    definition over all ordered pairs of points. */
module AdverseEvent {
  import opened Domain
  import opened Ordering

  datatype MarketPoint = MarketPoint(
    asOfSlot: int,
    slot: int,
    eventIndex: int,
    elapsedMs: int,
    price: int,
    realQuoteReserves: Option<int>,
    curveProgressPpm: Option<int>)

  datatype DetectionConfig = DetectionConfig(
    asOfSlot: int,
    tokenMint: string,
    detectorVersion: string,
    minPeakPrice: int,
    minDrawdownPpm: int,
    recoveryWindowMs: int)

  datatype CollapseEvent = CollapseEvent(
    asOfSlot: int,
    tokenMint: string,
    collapseStartSlot: int,
    collapseStartElapsedMs: int,
    peakSlot: int,
    peakElapsedMs: int,
    peakPrice: int,
    troughSlot: int,
    troughElapsedMs: int,
    troughPrice: int,
    drawdownPpm: int,
    recoveryPpm: int,
    detectorVersion: string,
    sourcePointCount: int)

  datatype DetectionReason = NoMaterialAdverseEvent | MaterialAdverseEventDetected

  datatype Detection = Detection(asOfSlot: int, event: Option<CollapseEvent>, reason: DetectionReason)

  // ---------- validation ----------

  function ConfigError(config: DetectionConfig): Option<AbstainReason> {
    if config.asOfSlot < 0 then Some(UnsupportedProtocolState)
    else if config.tokenMint == "" then Some(MissingFeature)
    else if config.detectorVersion == "" then Some(DecoderMismatch)
    else if config.minPeakPrice <= 0 then Some(UnsupportedProtocolState)
    else if !ProbabilityPpm(config.minDrawdownPpm) then Some(UnsupportedProtocolState)
    else if config.recoveryWindowMs < 0 then Some(UnsupportedProtocolState)
    else None
  }

  function PointError(p: MarketPoint, config: DetectionConfig): Option<AbstainReason> {
    if p.asOfSlot < 0 || p.slot < 0 then Some(UnsupportedProtocolState)
    else if p.asOfSlot != config.asOfSlot || p.slot > config.asOfSlot then Some(StaleState)
    else if p.eventIndex < 0 || p.elapsedMs < 0 then Some(UnsupportedProtocolState)
    else if p.price <= 0 then Some(UnsupportedProtocolState)
    else if p.curveProgressPpm.Some? && !ProbabilityPpm(p.curveProgressPpm.value) then Some(UnsupportedProtocolState)
    else if p.realQuoteReserves.Some? && p.realQuoteReserves.value < 0 then Some(UnsupportedProtocolState)
    else None
  }

  /** The first rejected point decides. */
  function PointsError(points: seq<MarketPoint>, config: DetectionConfig): (r: Option<AbstainReason>)
    ensures r.None? <==> forall k :: 0 <= k < |points| ==> PointError(points[k], config).None?
  {
    if points == [] then None
    else if PointError(points[0], config).Some? then PointError(points[0], config)
    else PointsError(points[1..], config)
  }

  function InputError(points: seq<MarketPoint>, config: DetectionConfig): Option<AbstainReason> {
    if ConfigError(config).Some? then ConfigError(config)
    else if points == [] then Some(MissingFeature)
    else PointsError(points, config)
  }

  // ---------- measures ----------

  function DrawdownPpm(peak: int, trough: int): int
    requires peak > 0
  {
    if trough >= peak then 0 else (peak - trough) * PPM / peak
  }

  function InWindow(points: seq<MarketPoint>, trough: MarketPoint, windowMs: int): seq<MarketPoint> {
    Filter((p: MarketPoint) => trough.elapsedMs < p.elapsedMs <= trough.elapsedMs + windowMs, points)
  }

  function Prices(points: seq<MarketPoint>): seq<int> {
    MapSeq((p: MarketPoint) => p.price, points)
  }

  function RecoveryPpm(trough: MarketPoint, future: seq<MarketPoint>): int {
    if future == [] || trough.price <= 0 then 0
    else
      var best := MaxOf(Prices(future));
      if best <= trough.price then 0 else Min(PPM, (best - trough.price) * PPM / trough.price)
  }

  lemma DrawdownRange(peak: int, trough: int)
    requires peak > 0 && trough > 0
    ensures 0 <= DrawdownPpm(peak, trough) < PPM
  {
    if trough < peak {
      assert (peak - trough) * PPM < PPM * peak;
      FloorGalois(PPM, (peak - trough) * PPM, peak);
      FloorGalois(0, (peak - trough) * PPM, peak);
    }
  }

  /** A higher peak never lowers the drawdown to the same trough. */
  lemma DrawdownGrowsWithPeak(low: int, high: int, trough: int)
    requires 0 < low <= high && 0 < trough
    ensures DrawdownPpm(low, trough) <= DrawdownPpm(high, trough)
  {
    if trough < low {
      var a, c := (low - trough) * PPM, (high - trough) * PPM;
      assert a * high <= c * low by {
        assert (low - trough) * high <= (high - trough) * low;
        assert a * high == ((low - trough) * high) * PPM && c * low == ((high - trough) * low) * PPM;
      }
      FloorCross(a, low, c, high);
    } else {
      assert trough < high ==> 0 <= (high - trough) * PPM;
      if trough < high {
        FloorGalois(0, (high - trough) * PPM, high);
      }
    }
  }

  lemma RecoveryRange(trough: MarketPoint, future: seq<MarketPoint>)
    ensures ProbabilityPpm(RecoveryPpm(trough, future))
  {
    if future != [] && trough.price > 0 {
      var best := MaxOf(Prices(future));
      if best > trough.price {
        assert (best - trough.price) * PPM >= 0;
        FloorGalois(0, (best - trough.price) * PPM, trough.price);
      }
    }
  }

  // ---------- the all-pairs definition ----------

  predicate PointBefore(a: MarketPoint, b: MarketPoint) {
    a.slot < b.slot || (a.slot == b.slot && a.eventIndex < b.eventIndex)
  }

  predicate NotLater(a: MarketPoint, b: MarketPoint) {
    !PointBefore(b, a)
  }

  function InOrder(points: seq<MarketPoint>): seq<MarketPoint> {
    SortBy(NotLater, points)
  }

  /** Point `j` is a material collapse from the earlier point `i`. */
  ghost predicate Collapse(ordered: seq<MarketPoint>, config: DetectionConfig, i: int, j: int) {
    && 0 <= i < j < |ordered|
    && ordered[i].price > 0 && ordered[i].price >= config.minPeakPrice
    && ordered[j].price <= ordered[i].price
    && DrawdownPpm(ordered[i].price, ordered[j].price) >= config.minDrawdownPpm
  }

  ghost predicate SomeCollapse(ordered: seq<MarketPoint>, config: DetectionConfig, n: nat) {
    exists i, j :: j < n && Collapse(ordered, config, i, j)
  }

  /** `(i, j)` has the greatest drawdown among the collapses within the first `n`
      points; `i` is the first highest point before `j`, and no earlier trough ties. */
  ghost predicate Strongest(ordered: seq<MarketPoint>, config: DetectionConfig, n: nat, i: int, j: int) {
    && j < n && Collapse(ordered, config, i, j)
    && (forall a, b :: b < n && Collapse(ordered, config, a, b) ==>
          var d := DrawdownPpm(ordered[a].price, ordered[b].price);
          && d <= DrawdownPpm(ordered[i].price, ordered[j].price)
          && (b < j ==> d < DrawdownPpm(ordered[i].price, ordered[j].price)))
    && FirstPeak(ordered, j, i)
  }

  /** `i` is the first of the highest-priced points before `j`. */
  ghost predicate FirstPeak(ordered: seq<MarketPoint>, j: int, i: int) {
    && 0 <= i < j <= |ordered|
    && (forall k :: 0 <= k < j ==> ordered[k].price <= ordered[i].price)
    && (forall k :: 0 <= k < i ==> ordered[k].price < ordered[i].price)
  }

  function EventFor(ordered: seq<MarketPoint>, config: DetectionConfig, i: int, j: int): CollapseEvent
    requires 0 <= i < |ordered| && 0 <= j < |ordered| && ordered[i].price > 0
  {
    var peak, trough := ordered[i], ordered[j];
    CollapseEvent(config.asOfSlot, config.tokenMint, trough.slot, trough.elapsedMs, peak.slot, peak.elapsedMs,
                  peak.price, trough.slot, trough.elapsedMs, trough.price,
                  DrawdownPpm(peak.price, trough.price),
                  RecoveryPpm(trough, InWindow(ordered, trough, config.recoveryWindowMs)),
                  config.detectorVersion, |ordered|)
  }

  ghost predicate Positive(ordered: seq<MarketPoint>) {
    forall k :: 0 <= k < |ordered| ==> ordered[k].price > 0
  }

  /** The scan's memory after `n` points: the running peak and the best collapse. */
  ghost predicate ScanState(
    ordered: seq<MarketPoint>, config: DetectionConfig, n: nat, peak: int, best: Option<(int, int)>)
  {
    && 1 <= n <= |ordered| && FirstPeak(ordered, n, peak)
    && (best.None? ==> !SomeCollapse(ordered, config, n))
    && (best.Some? ==> Strongest(ordered, config, n, best.value.0, best.value.1))
  }

  /** A point above the peak collapses from nothing before it. */
  lemma NewPeak(
    ordered: seq<MarketPoint>, config: DetectionConfig, n: nat, peak: int, best: Option<(int, int)>)
    requires ScanState(ordered, config, n, peak, best) && n < |ordered|
    requires ordered[n].price > ordered[peak].price
    ensures ScanState(ordered, config, n + 1, n, best)
  {
    forall i ensures !Collapse(ordered, config, i, n) {
      assert 0 <= i < n ==> ordered[i].price <= ordered[peak].price;
    }
  }

  /** Whatever point `n` collapses from, it also collapses from the peak, further. */
  lemma PeakDominates(ordered: seq<MarketPoint>, config: DetectionConfig, n: nat, peak: int, i: int)
    requires Positive(ordered) && FirstPeak(ordered, n, peak) && n < |ordered|
    requires ordered[n].price <= ordered[peak].price && Collapse(ordered, config, i, n)
    ensures Collapse(ordered, config, peak, n)
    ensures DrawdownPpm(ordered[i].price, ordered[n].price) <= DrawdownPpm(ordered[peak].price, ordered[n].price)
  {
    DrawdownGrowsWithPeak(ordered[i].price, ordered[peak].price, ordered[n].price);
  }

  lemma NoCollapseHere(
    ordered: seq<MarketPoint>, config: DetectionConfig, n: nat, peak: int, best: Option<(int, int)>)
    requires Positive(ordered) && ScanState(ordered, config, n, peak, best) && n < |ordered|
    requires ordered[n].price <= ordered[peak].price && !Collapse(ordered, config, peak, n)
    ensures ScanState(ordered, config, n + 1, peak, best)
  {
    forall i ensures !Collapse(ordered, config, i, n) {
      if Collapse(ordered, config, i, n) {
        PeakDominates(ordered, config, n, peak, i);
      }
    }
  }

  lemma CollapseHere(
    ordered: seq<MarketPoint>, config: DetectionConfig, n: nat, peak: int, best: Option<(int, int)>)
    requires Positive(ordered) && ScanState(ordered, config, n, peak, best) && n < |ordered|
    requires ordered[n].price <= ordered[peak].price && Collapse(ordered, config, peak, n)
    ensures var stronger :=
              best.None? || DrawdownPpm(ordered[peak].price, ordered[n].price)
                            > DrawdownPpm(ordered[best.value.0].price, ordered[best.value.1].price);
            ScanState(ordered, config, n + 1, peak, if stronger then Some((peak, n)) else best)
  {
    forall i | Collapse(ordered, config, i, n)
      ensures DrawdownPpm(ordered[i].price, ordered[n].price) <= DrawdownPpm(ordered[peak].price, ordered[n].price)
    {
      PeakDominates(ordered, config, n, peak, i);
    }
    if best.None? {
      forall a, b | b < n + 1 && Collapse(ordered, config, a, b) ensures b == n {
        assert b < n ==> SomeCollapse(ordered, config, n);
      }
    }
  }

  /** What a detection on accepted points reports: an event exactly when some pair
      collapses, and then the strongest one. */
  ghost predicate Detects(points: seq<MarketPoint>, config: DetectionConfig, d: Detection) {
    var ordered := InOrder(points);
    && d.asOfSlot == config.asOfSlot
    && (d.event.Some? <==> SomeCollapse(ordered, config, |ordered|))
    && (d.event.None? <==> d.reason == NoMaterialAdverseEvent)
    && (d.event.Some? ==>
          exists i, j ::
            Strongest(ordered, config, |ordered|, i, j) && d.event.value == EventFor(ordered, config, i, j))
  }

  lemma AcceptedPointsOrdered(points: seq<MarketPoint>, config: DetectionConfig)
    requires InputError(points, config).None?
    ensures InOrder(points) != [] && Positive(InOrder(points))
    ensures forall k :: 0 <= k < |InOrder(points)| ==> PointError(InOrder(points)[k], config).None?
  {
    var ordered := InOrder(points);
    SameMembers(NotLater, points);
    forall k | 0 <= k < |ordered| ensures PointError(ordered[k], config).None? {
      assert ordered[k] in ordered;
      var i :| 0 <= i < |points| && points[i] == ordered[k];
    }
  }

  method DetectAdverseEvent(points: seq<MarketPoint>, config: DetectionConfig) returns (r: Outcome<Detection>)
    ensures InputError(points, config).Some? ==>
              r == Abstained(AbstainResult(InputError(points, config).value, config.asOfSlot))
    ensures InputError(points, config).None? ==> r.Produced? && Detects(points, config, r.value)
  {
    if InputError(points, config).Some? {
      return Abstained(AbstainResult(InputError(points, config).value, config.asOfSlot));
    }
    var ordered := InOrder(points);
    AcceptedPointsOrdered(points, config);
    var peak := 0;
    var best: Option<(int, int)> := None;
    var strongest: Option<CollapseEvent> := None;
    for n := 1 to |ordered|
      invariant ScanState(ordered, config, n, peak, best)
      invariant best.None? <==> strongest.None?
      invariant best.Some? ==> strongest.value == EventFor(ordered, config, best.value.0, best.value.1)
    {
      var point := ordered[n];
      if point.price > ordered[peak].price {
        NewPeak(ordered, config, n, peak, best);
        peak := n;
      } else if ordered[peak].price < config.minPeakPrice
                || DrawdownPpm(ordered[peak].price, point.price) < config.minDrawdownPpm {
        NoCollapseHere(ordered, config, n, peak, best);
      } else {
        CollapseHere(ordered, config, n, peak, best);
        var event := EventFor(ordered, config, peak, n);
        if strongest.None? || event.drawdownPpm > strongest.value.drawdownPpm {
          strongest := Some(event);
          best := Some((peak, n));
        }
      }
    }
    r := Produced(if strongest.None? then Detection(config.asOfSlot, None, NoMaterialAdverseEvent)
                  else Detection(config.asOfSlot, strongest, MaterialAdverseEventDetected));
  }

  // ---------- the attribution validator ----------

  function ValidateEventForAttribution(event: CollapseEvent): Option<AbstainReason> {
    if event.tokenMint == "" then Some(MissingFeature)
    else if event.detectorVersion == "" then Some(DecoderMismatch)
    else if event.asOfSlot < 0 || event.collapseStartSlot < 0 || event.peakSlot < 0 || event.troughSlot < 0 then
      Some(UnsupportedProtocolState)
    else if || event.collapseStartSlot > event.asOfSlot || event.peakSlot > event.asOfSlot
            || event.troughSlot > event.asOfSlot then Some(StaleState)
    else if event.collapseStartElapsedMs < 0 || event.peakElapsedMs < 0 || event.troughElapsedMs < 0 then
      Some(UnsupportedProtocolState)
    else if event.peakPrice <= 0 || event.troughPrice <= 0 || event.sourcePointCount <= 0 then
      Some(UnsupportedProtocolState)
    else if !ProbabilityPpm(event.drawdownPpm) || !ProbabilityPpm(event.recoveryPpm) then
      Some(UnsupportedProtocolState)
    else None
  }

  /** Every detected event has a drawdown below the whole, at least the configured
      minimum, and is accepted for attribution. */
  lemma DetectedEventAccepted(points: seq<MarketPoint>, config: DetectionConfig, d: Detection)
    requires InputError(points, config).None?
    ensures Detects(points, config, d) && d.event.Some? ==>
              && config.minDrawdownPpm <= d.event.value.drawdownPpm < PPM
              && d.event.value.peakPrice >= config.minPeakPrice
              && ValidateEventForAttribution(d.event.value) == None
  {
    var ordered := InOrder(points);
    AcceptedPointsOrdered(points, config);
    if Detects(points, config, d) && d.event.Some? {
      var i, j :| Strongest(ordered, config, |ordered|, i, j) && d.event.value == EventFor(ordered, config, i, j);
      EventAccepted(ordered, config, i, j);
    }
  }

  lemma EventAccepted(ordered: seq<MarketPoint>, config: DetectionConfig, i: int, j: int)
    requires ConfigError(config).None? && Collapse(ordered, config, i, j)
    requires PointError(ordered[i], config).None? && PointError(ordered[j], config).None?
    ensures var event := EventFor(ordered, config, i, j);
            && config.minDrawdownPpm <= event.drawdownPpm < PPM && event.peakPrice >= config.minPeakPrice
            && ValidateEventForAttribution(event) == None
  {
    DrawdownRange(ordered[i].price, ordered[j].price);
    RecoveryRange(ordered[j], InWindow(ordered, ordered[j], config.recoveryWindowMs));
  }

  /** The strongest pair is unique, so the report is determined. */
  lemma StrongestUnique(ordered: seq<MarketPoint>, config: DetectionConfig, i: int, j: int, a: int, b: int)
    requires Strongest(ordered, config, |ordered|, i, j) && Strongest(ordered, config, |ordered|, a, b)
    ensures i == a && j == b
  {
    assert j == b;
    assert ordered[a].price == ordered[i].price;
  }
}
