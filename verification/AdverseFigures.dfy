/** What a detected collapse reports, in terms of the points: when and where its peak and
    trough are, how deep the fall is, and how far the price came back. */
module AdverseFigures {
  import opened Domain
  import opened Ordering
  import opened AdverseEvent

  /** The drawdown is the fall in parts per million of the peak, rounded down. */
  lemma DrawdownBracket(peak: int, trough: int)
    requires peak > 0 && trough <= peak
    ensures DrawdownPpm(peak, trough) * peak <= (peak - trough) * PPM < (DrawdownPpm(peak, trough) + 1) * peak
  {
    if trough < peak {
      FloorBounds((peak - trough) * PPM, peak);
    }
  }

  /** A rise in parts per million of the base, rounded down and capped at the whole. */
  ghost function CappedRise(base: int, price: int): int
    requires base > 0
  {
    var rise := (price - base) * PPM / base;
    if rise > PPM then PPM else rise
  }

  lemma RiseRoundsDown(base: int, price: int)
    requires base > 0 && price >= base
    ensures var rise := CappedRise(base, price);
            0 <= rise <= PPM && rise * base <= (price - base) * PPM
            && (rise < PPM ==> (price - base) * PPM < (rise + 1) * base)
  {
    FloorBounds((price - base) * PPM, base);
    FloorGalois(0, (price - base) * PPM, base);
    assert (price - base) * PPM / base > PPM ==> PPM * base <= ((price - base) * PPM / base) * base;
  }

  lemma RiseGrows(base: int, low: int, high: int)
    requires base > 0 && low <= high
    ensures CappedRise(base, low) <= CappedRise(base, high)
  {
    FloorMonotone((low - base) * PPM, (high - base) * PPM, base);
  }

  lemma NoRise(base: int, price: int)
    requires base > 0 && price <= base
    ensures CappedRise(base, price) <= 0
  {
    FloorMonotone((price - base) * PPM, 0, base);
  }

  /** Later than the trough, and no more than the window after it. */
  ghost predicate Recovering(p: MarketPoint, trough: MarketPoint, windowMs: int) {
    trough.elapsedMs < p.elapsedMs <= trough.elapsedMs + windowMs
  }

  /** `recovery` is the greatest capped rise over the trough of a point in the window, and
      0 if no such point rises. */
  ghost predicate IsBestRise(points: seq<MarketPoint>, trough: MarketPoint, windowMs: int, recovery: int)
    requires trough.price > 0
  {
    && recovery >= 0
    && (forall i :: 0 <= i < |points| && Recovering(points[i], trough, windowMs) ==>
          CappedRise(trough.price, points[i].price) <= recovery)
    && (recovery > 0 ==>
          exists i :: 0 <= i < |points| && Recovering(points[i], trough, windowMs)
                      && CappedRise(trough.price, points[i].price) == recovery)
  }

  lemma WindowPoints(points: seq<MarketPoint>, trough: MarketPoint, windowMs: int)
    ensures forall p :: p in InWindow(points, trough, windowMs) <==> p in points && Recovering(p, trough, windowMs)
  {
  }

  lemma RecoveryIsBestRise(points: seq<MarketPoint>, trough: MarketPoint, windowMs: int)
    requires trough.price > 0
    ensures IsBestRise(points, trough, windowMs, RecoveryPpm(trough, InWindow(points, trough, windowMs)))
  {
    var future := InWindow(points, trough, windowMs);
    var recovery := RecoveryPpm(trough, future);
    WindowPoints(points, trough, windowMs);
    RecoveryRange(trough, future);
    forall i | 0 <= i < |points| && Recovering(points[i], trough, windowMs)
      ensures CappedRise(trough.price, points[i].price) <= recovery
    {
      assert points[i] in future;
      RiseWithin(future, trough, points[i]);
    }
    if recovery > 0 {
      var k := RiseAttained(future, trough);
      assert future[k] in future;
      var i :| 0 <= i < |points| && points[i] == future[k];
      assert Recovering(points[i], trough, windowMs);
    }
  }

  lemma RiseWithin(future: seq<MarketPoint>, trough: MarketPoint, p: MarketPoint)
    requires trough.price > 0 && p in future
    ensures CappedRise(trough.price, p.price) <= RecoveryPpm(trough, future)
  {
    var k :| 0 <= k < |future| && future[k] == p;
    assert Prices(future)[k] in Prices(future);
    var best := MaxOf(Prices(future));
    if best <= trough.price {
      NoRise(trough.price, p.price);
    } else {
      RiseGrows(trough.price, p.price, best);
    }
  }

  lemma RiseAttained(future: seq<MarketPoint>, trough: MarketPoint) returns (k: nat)
    requires trough.price > 0 && RecoveryPpm(trough, future) > 0
    ensures k < |future| && CappedRise(trough.price, future[k].price) == RecoveryPpm(trough, future)
  {
    var best := MaxOf(Prices(future));
    k :| 0 <= k < |future| && Prices(future)[k] == best;
  }

  /** The event names the pair: the trough starts the collapse, and each side's slot, time
      and price are those of its point. */
  ghost predicate NamesPair(event: CollapseEvent, peak: MarketPoint, trough: MarketPoint) {
    && event.peakSlot == peak.slot && event.peakElapsedMs == peak.elapsedMs && event.peakPrice == peak.price
    && event.troughSlot == trough.slot && event.troughElapsedMs == trough.elapsedMs
    && event.troughPrice == trough.price
    && event.collapseStartSlot == trough.slot && event.collapseStartElapsedMs == trough.elapsedMs
  }

  /** The drawdown of an event is the fall of its pair, rounded down. */
  ghost predicate MeasuresFall(event: CollapseEvent) {
    event.peakPrice > 0
    && event.drawdownPpm * event.peakPrice <= (event.peakPrice - event.troughPrice) * PPM
       < (event.drawdownPpm + 1) * event.peakPrice
  }

  /** What every detected event reports. */
  ghost predicate EventMeans(points: seq<MarketPoint>, config: DetectionConfig, event: CollapseEvent) {
    exists i, j ::
      && Strongest(InOrder(points), config, |InOrder(points)|, i, j)
      && NamesPair(event, InOrder(points)[i], InOrder(points)[j])
      && MeasuresFall(event)
      && InOrder(points)[j].price > 0
      && IsBestRise(InOrder(points), InOrder(points)[j], config.recoveryWindowMs, event.recoveryPpm)
      && event.asOfSlot == config.asOfSlot && event.tokenMint == config.tokenMint
      && event.detectorVersion == config.detectorVersion && event.sourcePointCount == |points|
  }

  lemma DetectedEventMeans(points: seq<MarketPoint>, config: DetectionConfig, d: Detection)
    requires InputError(points, config).None?
    ensures Detects(points, config, d) && d.event.Some? ==> EventMeans(points, config, d.event.value)
  {
    if Detects(points, config, d) && d.event.Some? {
      var ordered := InOrder(points);
      AcceptedPointsOrdered(points, config);
      var i, j :| Strongest(ordered, config, |ordered|, i, j) && d.event.value == EventFor(ordered, config, i, j);
      PairFigures(ordered, config, i, j);
    }
  }

  lemma PairFigures(ordered: seq<MarketPoint>, config: DetectionConfig, i: int, j: int)
    requires Positive(ordered) && Collapse(ordered, config, i, j)
    ensures var event := EventFor(ordered, config, i, j);
            && NamesPair(event, ordered[i], ordered[j]) && MeasuresFall(event)
            && IsBestRise(ordered, ordered[j], config.recoveryWindowMs, event.recoveryPpm)
  {
    DrawdownBracket(ordered[i].price, ordered[j].price);
    RecoveryIsBestRise(ordered, ordered[j], config.recoveryWindowMs);
  }

  /** The points are taken in order of slot, then event index. */
  lemma PointsInOrder(points: seq<MarketPoint>, i: nat, j: nat)
    requires i < j < |points|
    ensures var a, b := InOrder(points)[i], InOrder(points)[j];
            a.slot < b.slot || (a.slot == b.slot && a.eventIndex <= b.eventIndex)
    ensures multiset(InOrder(points)) == multiset(points)
  {
    SortOrdered(NotLater, points);
    SortMultiset(NotLater, points);
    assert NotLater(InOrder(points)[i], InOrder(points)[j]);
  }
}
