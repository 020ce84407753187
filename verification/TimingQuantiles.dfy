/** Coherence of a dump-timing estimate: its remaining-time quantiles must agree
    with its dump probabilities at every supported horizon. */
module TimingQuantiles {
  import opened Domain

  const Q05 := 50_000
  const Q10 := 100_000
  const Q50 := 500_000

  datatype RugTiming = RugTiming(
    asOfSlot: int,
    modelVersion: string,
    dumpWithin1s: int,
    dumpWithin3s: int,
    dumpWithin5s: int,
    dumpWithin10s: int,
    q05Ms: int,
    q10Ms: int,
    q50Ms: int)

  datatype Horizon = Horizon(ms: int, probability: int)

  function Horizons(t: RugTiming): (r: seq<Horizon>)
    ensures forall i, j :: 0 <= i < j < |r| ==> r[i].ms < r[j].ms
  {
    [Horizon(1_000, t.dumpWithin1s), Horizon(3_000, t.dumpWithin3s),
     Horizon(5_000, t.dumpWithin5s), Horizon(10_000, t.dumpWithin10s)]
  }

  ghost predicate Increasing(horizons: seq<Horizon>) {
    forall i, j :: 0 <= i < j < |horizons| ==> horizons[i].ms < horizons[j].ms
  }

  ghost predicate NonDecreasing(horizons: seq<Horizon>) {
    forall i, j :: 0 <= i < j < |horizons| ==> horizons[i].probability <= horizons[j].probability
  }

  /** The probability reaches `ppm` at the first horizon not before the quantile, and at none earlier. */
  ghost predicate Supported(horizons: seq<Horizon>, quantileMs: int, ppm: int) {
    && (forall i ::
          0 <= i < |horizons| && quantileMs <= horizons[i].ms && (i > 0 ==> horizons[i - 1].ms < quantileMs) ==>
            horizons[i].probability >= ppm && (i > 0 ==> horizons[i - 1].probability < ppm))
    && (horizons != [] && horizons[|horizons| - 1].ms < quantileMs ==> horizons[|horizons| - 1].probability < ppm)
  }

  /** What a quantile means: the dump is at least `ppm` likely by a horizon exactly
      when the quantile has passed by that horizon. */
  ghost predicate Coherent(horizons: seq<Horizon>, quantileMs: int, ppm: int) {
    forall i :: 0 <= i < |horizons| ==> (horizons[i].probability >= ppm <==> quantileMs <= horizons[i].ms)
  }

  method ValidateQuantileProbability(horizons: seq<Horizon>, quantileMs: int, ppm: int)
    returns (error: Option<AbstainReason>)
    requires Increasing(horizons)
    ensures error == if Supported(horizons, quantileMs, ppm) then None else Some(UnsupportedProtocolState)
  {
    var previous: Option<int> := None;
    for n := 0 to |horizons|
      invariant previous == if n == 0 then None else Some(horizons[n - 1].probability)
      invariant forall i :: 0 <= i < n ==> horizons[i].ms < quantileMs
    {
      if quantileMs <= horizons[n].ms {
        assert Supported(horizons, quantileMs, ppm) <==>
               horizons[n].probability >= ppm && (n > 0 ==> horizons[n - 1].probability < ppm);
        if horizons[n].probability < ppm {
          return Some(UnsupportedProtocolState);
        }
        if previous.Some? && previous.value >= ppm {
          return Some(UnsupportedProtocolState);
        }
        return None;
      }
      previous := Some(horizons[n].probability);
    }
    error := if previous.Some? && previous.value >= ppm then Some(UnsupportedProtocolState) else None;
  }

  /** Checking one crossing is enough when the probabilities do not decrease. */
  lemma SupportedIffCoherent(horizons: seq<Horizon>, quantileMs: int, ppm: int)
    requires Increasing(horizons) && NonDecreasing(horizons)
    ensures Supported(horizons, quantileMs, ppm) <==> Coherent(horizons, quantileMs, ppm)
  {
    if Supported(horizons, quantileMs, ppm) {
      var n := FirstAtOrAfter(horizons, quantileMs);
      assert n > 0 ==> horizons[n - 1].ms < quantileMs;
      assert n < |horizons| ==> horizons[n].probability >= ppm && (n > 0 ==> horizons[n - 1].probability < ppm);
      assert n > 0 ==> horizons[n - 1].probability < ppm;
      forall i | 0 <= i < |horizons|
        ensures horizons[i].probability >= ppm <==> quantileMs <= horizons[i].ms
      {
        assert i < n ==> horizons[i].probability <= horizons[n - 1].probability;
        assert n <= i ==> horizons[n].probability <= horizons[i].probability && horizons[n].ms <= horizons[i].ms;
      }
    }
  }

  lemma FirstAtOrAfter(horizons: seq<Horizon>, quantileMs: int) returns (n: nat)
    ensures n <= |horizons|
    ensures n < |horizons| ==> quantileMs <= horizons[n].ms
    ensures forall i :: 0 <= i < n ==> horizons[i].ms < quantileMs
  {
    n := 0;
    while n < |horizons| && horizons[n].ms < quantileMs
      invariant n <= |horizons|
      invariant forall i :: 0 <= i < n ==> horizons[i].ms < quantileMs
    {
      n := n + 1;
    }
  }

  // ---------- the whole timing estimate ----------

  predicate ProbabilitiesOk(t: RugTiming) {
    && ProbabilityPpm(t.dumpWithin1s) && ProbabilityPpm(t.dumpWithin3s)
    && ProbabilityPpm(t.dumpWithin5s) && ProbabilityPpm(t.dumpWithin10s)
    && t.dumpWithin1s <= t.dumpWithin3s <= t.dumpWithin5s <= t.dumpWithin10s
  }

  predicate QuantilesOrdered(t: RugTiming) {
    0 <= t.q05Ms <= t.q10Ms <= t.q50Ms
  }

  ghost predicate QuantilesCoherent(t: RugTiming) {
    Coherent(Horizons(t), t.q05Ms, Q05) && Coherent(Horizons(t), t.q10Ms, Q10) && Coherent(Horizons(t), t.q50Ms, Q50)
  }

  /** An estimate is accepted exactly when it is in range and ordered, and each of
      its three quantiles agrees with its probabilities at every horizon. */
  method ValidateTiming(t: RugTiming) returns (error: Option<AbstainReason>)
    ensures error ==
            if t.asOfSlot < 0 then Some(UnsupportedProtocolState)
            else if !NonBlank(t.modelVersion) then Some(DecoderMismatch)
            else if ProbabilitiesOk(t) && QuantilesOrdered(t) && QuantilesCoherent(t) then None
            else Some(UnsupportedProtocolState)
  {
    if t.asOfSlot < 0 {
      return Some(UnsupportedProtocolState);
    }
    if !NonBlank(t.modelVersion) {
      return Some(DecoderMismatch);
    }
    if !ProbabilitiesOk(t) || !QuantilesOrdered(t) {
      return Some(UnsupportedProtocolState);
    }
    var quantiles := [(t.q05Ms, Q05), (t.q10Ms, Q10), (t.q50Ms, Q50)];
    for n := 0 to |quantiles|
      invariant forall k :: 0 <= k < n ==> Coherent(Horizons(t), quantiles[k].0, quantiles[k].1)
    {
      SupportedIffCoherent(Horizons(t), quantiles[n].0, quantiles[n].1);
      error := ValidateQuantileProbability(Horizons(t), quantiles[n].0, quantiles[n].1);
      if error.Some? {
        assert quantiles[n] in quantiles;
        return;
      }
    }
    assert quantiles[0] == (t.q05Ms, Q05) && quantiles[1] == (t.q10Ms, Q10) && quantiles[2] == (t.q50Ms, Q50);
    error := None;
  }

  /** What coherence says of an estimate: by 1, 3, 5 and 10 seconds the dump is at least
      one in twenty, one in ten and one in two likely exactly when the three quantiles
      have passed. */
  lemma CoherentEstimate(t: RugTiming)
    ensures QuantilesCoherent(t) <==>
            && (20 * t.dumpWithin1s >= PPM <==> t.q05Ms <= 1_000)
            && (20 * t.dumpWithin3s >= PPM <==> t.q05Ms <= 3_000)
            && (20 * t.dumpWithin5s >= PPM <==> t.q05Ms <= 5_000)
            && (20 * t.dumpWithin10s >= PPM <==> t.q05Ms <= 10_000)
            && (10 * t.dumpWithin1s >= PPM <==> t.q10Ms <= 1_000)
            && (10 * t.dumpWithin3s >= PPM <==> t.q10Ms <= 3_000)
            && (10 * t.dumpWithin5s >= PPM <==> t.q10Ms <= 5_000)
            && (10 * t.dumpWithin10s >= PPM <==> t.q10Ms <= 10_000)
            && (2 * t.dumpWithin1s >= PPM <==> t.q50Ms <= 1_000)
            && (2 * t.dumpWithin3s >= PPM <==> t.q50Ms <= 3_000)
            && (2 * t.dumpWithin5s >= PPM <==> t.q50Ms <= 5_000)
            && (2 * t.dumpWithin10s >= PPM <==> t.q50Ms <= 10_000)
  {
    FourHorizons(t, t.q05Ms, Q05);
    FourHorizons(t, t.q10Ms, Q10);
    FourHorizons(t, t.q50Ms, Q50);
  }

  lemma FourHorizons(t: RugTiming, quantileMs: int, ppm: int)
    ensures Coherent(Horizons(t), quantileMs, ppm) <==>
            && (t.dumpWithin1s >= ppm <==> quantileMs <= 1_000)
            && (t.dumpWithin3s >= ppm <==> quantileMs <= 3_000)
            && (t.dumpWithin5s >= ppm <==> quantileMs <= 5_000)
            && (t.dumpWithin10s >= ppm <==> quantileMs <= 10_000)
  {
    var horizons := Horizons(t);
    assert horizons[0] == Horizon(1_000, t.dumpWithin1s) && horizons[1] == Horizon(3_000, t.dumpWithin3s);
    assert horizons[2] == Horizon(5_000, t.dumpWithin5s) && horizons[3] == Horizon(10_000, t.dumpWithin10s);
  }
}
