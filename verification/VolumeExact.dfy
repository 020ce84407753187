/** The sizer's guarantees in terms of the pool alone: no floor, no rounding, and none
    of the sizer's own arithmetic. */
module VolumeExact {
  import opened Domain
  import opened VolumeSizing

  // ---------- what the arithmetic computes ----------

  /** The output is the floor of the constant-product output. */
  lemma OutputBracket(q: int, quoteReserve: int, tokenReserve: int)
    requires q >= 0 && quoteReserve > 0
    ensures var out := ExpectedTokenOutput(q, quoteReserve, tokenReserve);
            out * (quoteReserve + q) <= tokenReserve * q < (out + 1) * (quoteReserve + q)
  {
    FloorBounds(tokenReserve * q, quoteReserve + q);
  }

  /** It is the most tokens that can leave without lowering the reserve product. */
  lemma OutputIsMost(q: int, quoteReserve: int, tokenReserve: int, out: int)
    requires q >= 0 && quoteReserve > 0
    ensures (quoteReserve + q) * (tokenReserve - out) >= quoteReserve * tokenReserve
            <==> out <= ExpectedTokenOutput(q, quoteReserve, tokenReserve)
  {
    FloorGalois(out, tokenReserve * q, quoteReserve + q);
    assert (quoteReserve + q) * (tokenReserve - out)
        == quoteReserve * tokenReserve + (tokenReserve * q - out * (quoteReserve + q));
  }

  /** The impact is the growth of the squared quote reserve. */
  lemma ImpactIsSquareGrowth(q: int, reserve: int)
    ensures ImpactNumerator(q, reserve) == (reserve + q) * (reserve + q) - reserve * reserve
  {
  }

  /** The reported impact is the least integer not below the growth in parts per million. */
  lemma ImpactCeilBracket(q: int, reserve: int)
    requires reserve > 0
    ensures var impact, growth := PriceImpactPpmCeil(q, reserve), (reserve + q) * (reserve + q) - reserve * reserve;
            (impact - 1) * (reserve * reserve) < growth * PPM <= impact * (reserve * reserve)
  {
    ImpactIsSquareGrowth(q, reserve);
    CeilAgreesWithLimit(q, reserve, PriceImpactPpmCeil(q, reserve));
    CeilAgreesWithLimit(q, reserve, PriceImpactPpmCeil(q, reserve) - 1);
  }

  // ---------- the limits ----------

  /** Whether a size keeps a limit, said of the request and the pool. */
  ghost predicate Keeps(r: VolumeSizingRequest, limit: Limit, q: int)
    requires ValidRequest(r)
  {
    var reserve, tokens := r.quoteReserve.value, r.tokenReserve.value;
    match limit
    case Requested => q <= r.requested.value
    case Bankroll => q * PPM <= r.bankroll.value * r.maxBankrollFractionPpm.value
    case IndependentVolume => q * PPM <= r.independentVolume.value * r.maxVolumeFractionPpm.value
    case PriceImpact =>
      ((reserve + q) * (reserve + q) - reserve * reserve) * PPM <= r.maxPriceImpactPpm.value * (reserve * reserve)
    case FullExit => tokens * q < (r.maxOneShotExit.value + 1) * (reserve + q)
  }

  ghost predicate KeepsAll(r: VolumeSizingRequest, q: int)
    requires ValidRequest(r)
  {
    forall limit :: Keeps(r, limit, q)
  }

  lemma MeetsIffKeeps(r: VolumeSizingRequest, limit: Limit, q: int)
    requires ValidRequest(r) && q >= 0
    ensures Meets(r, limit, q) <==> Keeps(r, limit, q)
  {
    match limit
    case PriceImpact => ImpactIsSquareGrowth(q, r.quoteReserve.value);
    case FullExit =>
      FloorGalois(r.maxOneShotExit.value + 1, r.tokenReserve.value * q, r.quoteReserve.value + q);
    case _ =>
  }

  lemma MeetsAllIffKeepsAll(r: VolumeSizingRequest, q: int)
    requires ValidRequest(r) && q >= 0
    ensures MeetsAll(r, q) <==> KeepsAll(r, q)
  {
    forall limit ensures Meets(r, limit, q) <==> Keeps(r, limit, q) {
      MeetsIffKeeps(r, limit, q);
    }
  }

  // ---------- what the sizer returns ----------

  /** The size is the largest that keeps every limit; its output is the most tokens it can
      buy; and a limit is named exactly when the next size breaks it, a searched one only
      below the request. */
  lemma SizeIsExact(r: VolumeSizingRequest, size: ConservativeVolumeSize)
    requires ValidRequest(r) && LargestSize(r, size)
    ensures forall q :: 0 < q ==> (KeepsAll(r, q) <==> q <= size.quoteSize)
    ensures forall limit :: limit in size.limiting <==>
              !Keeps(r, limit, size.quoteSize + 1) && (Searched(limit) ==> size.quoteSize < r.requested.value)
    ensures size.expectedTokenOutput * (r.quoteReserve.value + size.quoteSize)
            <= r.tokenReserve.value * size.quoteSize
            < (size.expectedTokenOutput + 1) * (r.quoteReserve.value + size.quoteSize)
  {
    forall q | 0 < q ensures KeepsAll(r, q) <==> q <= size.quoteSize {
      MeetsAllIffKeepsAll(r, q);
    }
    forall limit
      ensures limit in size.limiting <==>
                !Keeps(r, limit, size.quoteSize + 1) && (Searched(limit) ==> size.quoteSize < r.requested.value)
    {
      MeetsIffKeeps(r, limit, size.quoteSize + 1);
    }
    OutputBracket(size.quoteSize, r.quoteReserve.value, r.tokenReserve.value);
  }

  /** The reported impact is the square growth in parts per million, rounded up, and the
      fraction caps and the request are the exact largest amounts. */
  lemma FiguresAreExact(r: VolumeSizingRequest, size: ConservativeVolumeSize)
    requires ValidRequest(r) && LargestSize(r, size)
    ensures var reserve, q := r.quoteReserve.value, size.quoteSize;
            var growth := (reserve + q) * (reserve + q) - reserve * reserve;
            (size.projectedPriceImpactPpm - 1) * (reserve * reserve) < growth * PPM
            <= size.projectedPriceImpactPpm * (reserve * reserve)
    ensures size.requestedCap == r.requested.value
    ensures forall q :: 0 < q ==> (Keeps(r, Bankroll, q) <==> q <= size.bankrollCap)
    ensures forall q :: 0 < q ==> (Keeps(r, IndependentVolume, q) <==> q <= size.volumeCap)
    ensures forall q :: 0 < q <= r.requested.value ==> (Keeps(r, PriceImpact, q) <==> q <= size.priceImpactCap)
    ensures forall q :: 0 < q <= r.requested.value ==> (Keeps(r, FullExit, q) <==> q <= size.fullExitCap)
  {
    ImpactCeilBracket(size.quoteSize, r.quoteReserve.value);
    forall limit ensures CapsLimit(r, limit, CapOf(size, limit)) {
    }
    CapIsExact(r, size, Bankroll);
    CapIsExact(r, size, IndependentVolume);
    CapIsExact(r, size, PriceImpact);
    CapIsExact(r, size, FullExit);
  }

  lemma CapIsExact(r: VolumeSizingRequest, size: ConservativeVolumeSize, limit: Limit)
    requires ValidRequest(r) && CapsLimit(r, limit, CapOf(size, limit))
    ensures forall q :: 0 < q && (Searched(limit) ==> q <= r.requested.value) ==>
              (Keeps(r, limit, q) <==> q <= CapOf(size, limit))
  {
    forall q | 0 < q && (Searched(limit) ==> q <= r.requested.value)
      ensures Keeps(r, limit, q) <==> q <= CapOf(size, limit)
    {
      MeetsIffKeeps(r, limit, q);
    }
  }

  /** On a valid request the sizer abstains exactly when no positive size that keeps every
      limit buys a whole token. */
  lemma NothingIsExact(r: VolumeSizingRequest)
    requires ValidRequest(r)
    ensures NothingToBuy(r) <==>
            forall q :: 0 < q && KeepsAll(r, q) ==> r.tokenReserve.value * q < r.quoteReserve.value + q
  {
    forall q | 0 < q
      ensures MeetsAll(r, q) <==> KeepsAll(r, q)
      ensures ExpectedTokenOutput(q, r.quoteReserve.value, r.tokenReserve.value) <= 0
              <==> r.tokenReserve.value * q < r.quoteReserve.value + q
    {
      MeetsAllIffKeepsAll(r, q);
      FloorGalois(1, r.tokenReserve.value * q, r.quoteReserve.value + q);
    }
  }

  /** An abstention is at the slot of the request, or at slot 0 when that is missing or negative. */
  lemma AbstentionSlot(r: VolumeSizingRequest)
    ensures forall slot :: slot >= 0 && r.asOfSlot == Some(slot) ==> SafeSlot(r) == slot
    ensures (forall slot :: slot >= 0 ==> r.asOfSlot != Some(slot)) ==> SafeSlot(r) == 0
  {
    if r.asOfSlot.Some? && r.asOfSlot.value >= 0 {
      assert r.asOfSlot == Some(r.asOfSlot.value);
    }
  }
}
