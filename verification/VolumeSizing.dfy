/** Conservative sizing against a constant-product pool: the largest size that
    meets every limit, found by binary search. */
module VolumeSizing {
  import opened Domain

  datatype VolumeSizingRequest = VolumeSizingRequest(
    asOfSlot: Option<int>,
    requested: Option<int>,
    bankroll: Option<int>,
    maxBankrollFractionPpm: Option<int>,
    independentVolume: Option<int>,
    maxVolumeFractionPpm: Option<int>,
    quoteReserve: Option<int>,
    tokenReserve: Option<int>,
    maxPriceImpactPpm: Option<int>,
    maxOneShotExit: Option<int>)

  datatype Limit = Requested | Bankroll | IndependentVolume | PriceImpact | FullExit

  datatype ConservativeVolumeSize = ConservativeVolumeSize(
    asOfSlot: int,
    quoteSize: int,
    expectedTokenOutput: int,
    projectedPriceImpactPpm: int,
    requestedCap: int,
    bankrollCap: int,
    volumeCap: int,
    priceImpactCap: int,
    fullExitCap: int,
    limiting: seq<Limit>)

  // ---------- request validation ----------

  predicate Complete(r: VolumeSizingRequest) {
    && r.asOfSlot.Some? && r.requested.Some? && r.bankroll.Some? && r.maxBankrollFractionPpm.Some?
    && r.independentVolume.Some? && r.maxVolumeFractionPpm.Some? && r.quoteReserve.Some?
    && r.tokenReserve.Some? && r.maxPriceImpactPpm.Some? && r.maxOneShotExit.Some?
  }

  predicate ValidRequest(r: VolumeSizingRequest) {
    && Complete(r)
    && r.asOfSlot.value >= 0
    && r.requested.value > 0 && r.bankroll.value > 0
    && r.quoteReserve.value > 0 && r.tokenReserve.value > 0
    && r.independentVolume.value >= 0 && r.maxOneShotExit.value >= 0
    && ProbabilityPpm(r.maxBankrollFractionPpm.value)
    && ProbabilityPpm(r.maxVolumeFractionPpm.value)
    && ProbabilityPpm(r.maxPriceImpactPpm.value)
  }

  function SafeSlot(r: VolumeSizingRequest): int {
    if r.asOfSlot.Some? && r.asOfSlot.value >= 0 then r.asOfSlot.value else 0
  }

  // ---------- arithmetic of the pool ----------

  function ImpactNumerator(q: int, reserve: int): int {
    2 * reserve * q + q * q
  }

  predicate PriceImpactWithinLimit(q: int, reserve: int, maxImpactPpm: int) {
    ImpactNumerator(q, reserve) * PPM <= maxImpactPpm * (reserve * reserve)
  }

  function PriceImpactPpmCeil(q: int, reserve: int): int
    requires reserve > 0
  {
    (ImpactNumerator(q, reserve) * PPM + reserve * reserve - 1) / (reserve * reserve)
  }

  function ExpectedTokenOutput(q: int, quoteReserve: int, tokenReserve: int): int
    requires quoteReserve + q > 0
  {
    tokenReserve * q / (quoteReserve + q)
  }

  /** Rounding the impact up does not change the comparison with the limit. */
  lemma CeilAgreesWithLimit(q: int, reserve: int, maxImpactPpm: int)
    requires reserve > 0
    ensures PriceImpactPpmCeil(q, reserve) <= maxImpactPpm <==> PriceImpactWithinLimit(q, reserve, maxImpactPpm)
  {
    var n, d := ImpactNumerator(q, reserve) * PPM, reserve * reserve;
    assert d > 0;
    FloorGalois(maxImpactPpm + 1, n + d - 1, d);
    assert (maxImpactPpm + 1) * d == maxImpactPpm * d + d;
  }

  lemma ImpactMonotone(a: int, b: int, reserve: int, maxImpactPpm: int)
    requires 0 <= a <= b && reserve > 0
    requires PriceImpactWithinLimit(b, reserve, maxImpactPpm)
    ensures PriceImpactWithinLimit(a, reserve, maxImpactPpm)
  {
    assert a * a <= b * b;
    assert 2 * reserve * a <= 2 * reserve * b;
  }

  lemma OutputMonotone(a: int, b: int, quoteReserve: int, tokenReserve: int)
    requires 0 <= a <= b && quoteReserve > 0 && tokenReserve >= 0
    ensures ExpectedTokenOutput(a, quoteReserve, tokenReserve) <= ExpectedTokenOutput(b, quoteReserve, tokenReserve)
  {
    var t, r := tokenReserve, quoteReserve;
    assert (t * a) * (r + b) == t * a * r + t * a * b;
    assert (t * b) * (r + a) == t * b * r + t * a * b;
    assert t * a * r <= t * b * r by {
      assert (t * r) * a <= (t * r) * b;
      assert t * a * r == (t * r) * a && t * b * r == (t * r) * b;
    }
    FloorCross(t * a, r + a, t * b, r + b);
  }

  /** An impact of at most 100% forces 7q < 3R, since (10/7)^2 exceeds 2. */
  lemma ImpactBelowThreeSevenths(q: int, r: int, maxImpactPpm: int)
    requires q >= 0 && r > 0 && maxImpactPpm <= PPM && PriceImpactWithinLimit(q, r, maxImpactPpm)
    ensures 7 * q < 3 * r
  {
    assert r * r > 0;
    assert maxImpactPpm * (r * r) <= PPM * (r * r);
    MulCancel(ImpactNumerator(q, r), r * r, PPM);
    ImpactForcesSmall(q, r);
  }

  lemma OutputBelowThreeTenths(q: int, r: int, tokenReserve: int)
    requires q >= 0 && r > 0 && tokenReserve > 0 && 7 * q < 3 * r
    ensures 10 * ExpectedTokenOutput(q, r, tokenReserve) < 3 * tokenReserve
  {
    var pool, out := r + q, ExpectedTokenOutput(q, r, tokenReserve);
    FloorBounds(tokenReserve * q, pool);
    TenthsCross(out, pool, tokenReserve, q);
    StrictCancel(10 * out, 3 * tokenReserve, pool);
  }

  lemma TenthsCross(out: int, pool: int, tokenReserve: int, q: int)
    requires tokenReserve > 0 && 10 * q < 3 * pool && out * pool <= tokenReserve * q
    ensures (10 * out) * pool < (3 * tokenReserve) * pool
  {
    assert tokenReserve * (10 * q) < tokenReserve * (3 * pool);
    assert (10 * out) * pool == 10 * (out * pool);
    assert tokenReserve * (10 * q) == 10 * (tokenReserve * q);
    assert tokenReserve * (3 * pool) == (3 * tokenReserve) * pool;
  }

  /** An impact of at most 100% means less than three tenths of the pool's tokens. */
  lemma NeverThreeTenths(q: int, quoteReserve: int, tokenReserve: int, maxImpactPpm: int)
    requires q >= 0 && quoteReserve > 0 && tokenReserve > 0 && maxImpactPpm <= PPM
    requires PriceImpactWithinLimit(q, quoteReserve, maxImpactPpm)
    ensures 7 * q < 3 * quoteReserve
    ensures 10 * ExpectedTokenOutput(q, quoteReserve, tokenReserve) < 3 * tokenReserve
  {
    ImpactBelowThreeSevenths(q, quoteReserve, maxImpactPpm);
    OutputBelowThreeTenths(q, quoteReserve, tokenReserve);
  }

  lemma StrictCancel(x: int, y: int, d: int)
    requires d > 0 && x * d < y * d
    ensures x < y
  {
    assert (x - y) * d < 0;
  }

  lemma SquareLess(x: int, y: int)
    requires x >= 0 && y > 0 && x * x < y * y
    ensures x < y
  {
    assert (x - y) * (x + y) < 0;
  }

  lemma ImpactForcesSmall(q: int, r: int)
    requires q >= 0 && r > 0 && 2 * r * q + q * q <= r * r
    ensures 7 * q < 3 * r
  {
    var x := 7 * q + 7 * r;
    assert x * x == 49 * (2 * r * q + q * q) + 49 * (r * r);
    assert r * r > 0;
    assert x * x <= 98 * (r * r) < (10 * r) * (10 * r);
    SquareLess(x, 10 * r);
  }

  /** The reserve product never decreases after the floored output leaves. */
  lemma ProductNeverDecreases(q: int, quoteReserve: int, tokenReserve: int)
    requires q >= 0 && quoteReserve > 0
    ensures (quoteReserve + q) * (tokenReserve - ExpectedTokenOutput(q, quoteReserve, tokenReserve))
            >= quoteReserve * tokenReserve
  {
    var out := ExpectedTokenOutput(q, quoteReserve, tokenReserve);
    FloorBounds(tokenReserve * q, quoteReserve + q);
    assert (quoteReserve + q) * (tokenReserve - out)
        == quoteReserve * tokenReserve + (q * tokenReserve - (quoteReserve + q) * out);
    assert out * (quoteReserve + q) == (quoteReserve + q) * out;
    assert tokenReserve * q == q * tokenReserve;
  }

  // ---------- binary search ----------

  /** The result satisfies the predicate and its successor does not, within the
      range; with a downward closed predicate it is therefore the largest. */
  method LargestValidInput(upper: int, p: int -> bool) returns (low: int)
    requires upper >= 0
    ensures 0 <= low <= upper
    ensures low > 0 ==> p(low)
    ensures low < upper ==> !p(low + 1)
    ensures (forall a, b :: 0 < a <= b <= upper && p(b) ==> p(a)) ==>
              forall n :: 0 < n <= upper ==> (p(n) <==> n <= low)
  {
    low := 0;
    var high := upper;
    while low < high
      invariant 0 <= low <= high <= upper
      invariant low > 0 ==> p(low)
      invariant high < upper ==> !p(high + 1)
    {
      var candidate := (low + high + 1) / 2;
      if p(candidate) {
        low := candidate;
      } else {
        high := candidate - 1;
      }
    }
  }

  // ---------- the five limits ----------

  /** Whether a size meets one limit, before any flooring. */
  predicate Meets(r: VolumeSizingRequest, limit: Limit, q: int)
    requires ValidRequest(r) && q >= 0
  {
    match limit
    case Requested => q <= r.requested.value
    case Bankroll => q * PPM <= r.bankroll.value * r.maxBankrollFractionPpm.value
    case IndependentVolume => q * PPM <= r.independentVolume.value * r.maxVolumeFractionPpm.value
    case PriceImpact => PriceImpactWithinLimit(q, r.quoteReserve.value, r.maxPriceImpactPpm.value)
    case FullExit => ExpectedTokenOutput(q, r.quoteReserve.value, r.tokenReserve.value) <= r.maxOneShotExit.value
  }

  ghost predicate MeetsAll(r: VolumeSizingRequest, q: int)
    requires ValidRequest(r) && q >= 0
  {
    forall limit :: Meets(r, limit, q)
  }

  lemma MeetsDownward(r: VolumeSizingRequest, limit: Limit, a: int, b: int)
    requires ValidRequest(r) && 0 <= a <= b && Meets(r, limit, b)
    ensures Meets(r, limit, a)
  {
    match limit
    case PriceImpact => ImpactMonotone(a, b, r.quoteReserve.value, r.maxPriceImpactPpm.value);
    case FullExit => OutputMonotone(a, b, r.quoteReserve.value, r.tokenReserve.value);
    case _ =>
  }

  predicate Searched(limit: Limit) {
    limit.PriceImpact? || limit.FullExit?
  }

  /** A cap stands for its limit; the searched caps do so for sizes up to the request. */
  ghost predicate CapsLimit(r: VolumeSizingRequest, limit: Limit, cap: int)
    requires ValidRequest(r)
  {
    cap >= 0
    && forall q :: 0 < q && (Searched(limit) ==> q <= r.requested.value) ==> (Meets(r, limit, q) <==> q <= cap)
  }

  method CapByFraction(amount: int, fraction: int) returns (cap: int)
    requires amount >= 0 && fraction >= 0
    ensures cap >= 0 && forall q :: q <= cap <==> q * PPM <= amount * fraction
  {
    cap := amount * fraction / PPM;
    FloorBounds(amount * fraction, PPM);
    forall q ensures q <= cap <==> q * PPM <= amount * fraction {
      FloorGalois(q, amount * fraction, PPM);
    }
    FloorGalois(0, amount * fraction, PPM);
  }

  method CapBySearch(r: VolumeSizingRequest, limit: Limit, p: int -> bool) returns (cap: int)
    requires ValidRequest(r) && Searched(limit)
    requires forall q :: 0 < q <= r.requested.value ==> p(q) == Meets(r, limit, q)
    ensures CapsLimit(r, limit, cap) && cap <= r.requested.value
  {
    cap := LargestValidInput(r.requested.value, p);
    forall a, b | 0 < a <= b <= r.requested.value && p(b) ensures p(a) {
      MeetsDownward(r, limit, a, b);
    }
  }

  const LIMITS: seq<Limit> := [Requested, Bankroll, IndependentVolume, PriceImpact, FullExit]

  function CapOf(size: ConservativeVolumeSize, limit: Limit): int {
    match limit
    case Requested => size.requestedCap
    case Bankroll => size.bankrollCap
    case IndependentVolume => size.volumeCap
    case PriceImpact => size.priceImpactCap
    case FullExit => size.fullExitCap
  }

  /** Searched caps count as limiting only below the request. */
  predicate IsLimiting(size: ConservativeVolumeSize, limit: Limit) {
    && CapOf(size, limit) == size.quoteSize
    && (Searched(limit) ==> CapOf(size, limit) < size.requestedCap)
  }

  function MinCap(size: ConservativeVolumeSize): int {
    Min(size.requestedCap, Min(size.bankrollCap, Min(size.volumeCap, Min(size.priceImpactCap, size.fullExitCap))))
  }

  lemma MinCapIsLeast(size: ConservativeVolumeSize)
    ensures forall limit :: MinCap(size) <= CapOf(size, limit)
    ensures exists limit :: CapOf(size, limit) == MinCap(size)
  {
    assert CapOf(size, Requested) == MinCap(size) || CapOf(size, Bankroll) == MinCap(size)
        || CapOf(size, IndependentVolume) == MinCap(size) || CapOf(size, PriceImpact) == MinCap(size)
        || CapOf(size, FullExit) == MinCap(size);
  }

  ghost predicate CapsHold(r: VolumeSizingRequest, size: ConservativeVolumeSize)
    requires ValidRequest(r)
  {
    size.requestedCap == r.requested.value && forall limit :: CapsLimit(r, limit, CapOf(size, limit))
  }

  /** The least cap is the largest size that meets every limit. */
  lemma LeastCapIsLargestSize(r: VolumeSizingRequest, size: ConservativeVolumeSize, q: int)
    requires ValidRequest(r) && CapsHold(r, size) && q > 0
    ensures MeetsAll(r, q) <==> q <= MinCap(size)
  {
    MinCapIsLeast(size);
    if q <= r.requested.value {
      forall limit ensures Meets(r, limit, q) <==> q <= CapOf(size, limit) {
        assert CapsLimit(r, limit, CapOf(size, limit));
      }
      if MeetsAll(r, q) {
        var limit :| CapOf(size, limit) == MinCap(size);
        assert Meets(r, limit, q);
      }
    } else {
      assert !Meets(r, Requested, q);
    }
  }

  lemma LimitingIsViolatedNext(r: VolumeSizingRequest, size: ConservativeVolumeSize, limit: Limit)
    requires ValidRequest(r) && CapsHold(r, size) && size.quoteSize == MinCap(size) > 0
    ensures IsLimiting(size, limit)
            <==> && !Meets(r, limit, size.quoteSize + 1)
                 && (Searched(limit) ==> size.quoteSize < r.requested.value)
  {
    MinCapIsLeast(size);
    assert CapsLimit(r, limit, CapOf(size, limit));
  }

  /** A produced size: the largest meeting all five limits, with the pool's own
      figures, and limiting constraints that are what the next size violates. */
  ghost predicate LargestSize(r: VolumeSizingRequest, size: ConservativeVolumeSize)
    requires ValidRequest(r)
  {
    && 0 < size.quoteSize <= r.requested.value
    && (forall q :: 0 < q ==> (MeetsAll(r, q) <==> q <= size.quoteSize))
    && (forall limit :: limit in size.limiting <==>
          && !Meets(r, limit, size.quoteSize + 1)
          && (Searched(limit) ==> size.quoteSize < r.requested.value))
    && CapsHold(r, size)
    && size.asOfSlot == r.asOfSlot.value
    && size.expectedTokenOutput
       == ExpectedTokenOutput(size.quoteSize, r.quoteReserve.value, r.tokenReserve.value) > 0
    && size.projectedPriceImpactPpm == PriceImpactPpmCeil(size.quoteSize, r.quoteReserve.value)
       <= r.maxPriceImpactPpm.value
  }

  /** No size that meets the limits yields a token. */
  ghost predicate NothingToBuy(r: VolumeSizingRequest)
    requires ValidRequest(r)
  {
    forall q :: 0 < q && MeetsAll(r, q) ==>
      ExpectedTokenOutput(q, r.quoteReserve.value, r.tokenReserve.value) <= 0
  }

  lemma NothingWithin(r: VolumeSizingRequest, size: ConservativeVolumeSize)
    requires ValidRequest(r) && CapsHold(r, size)
    requires MinCap(size) <= 0
             || ExpectedTokenOutput(MinCap(size), r.quoteReserve.value, r.tokenReserve.value) <= 0
    ensures NothingToBuy(r)
  {
    forall q | 0 < q && MeetsAll(r, q)
      ensures ExpectedTokenOutput(q, r.quoteReserve.value, r.tokenReserve.value) <= 0
    {
      LeastCapIsLargestSize(r, size, q);
      OutputMonotone(q, MinCap(size), r.quoteReserve.value, r.tokenReserve.value);
    }
  }

  lemma BuiltSize(r: VolumeSizingRequest, size: ConservativeVolumeSize)
    requires ValidRequest(r) && CapsHold(r, size) && size.quoteSize == MinCap(size) > 0
    requires forall limit :: limit in size.limiting <==> IsLimiting(size, limit)
    requires size.asOfSlot == r.asOfSlot.value
    requires size.expectedTokenOutput
             == ExpectedTokenOutput(size.quoteSize, r.quoteReserve.value, r.tokenReserve.value) > 0
    requires size.projectedPriceImpactPpm == PriceImpactPpmCeil(size.quoteSize, r.quoteReserve.value)
    ensures LargestSize(r, size)
  {
    forall q | 0 < q ensures MeetsAll(r, q) <==> q <= size.quoteSize {
      LeastCapIsLargestSize(r, size, q);
    }
    forall limit
      ensures limit in size.limiting <==>
                && !Meets(r, limit, size.quoteSize + 1)
                && (Searched(limit) ==> size.quoteSize < r.requested.value)
    {
      LimitingIsViolatedNext(r, size, limit);
    }
    ImpactWithinLimit(r, size.quoteSize);
  }

  lemma ImpactWithinLimit(r: VolumeSizingRequest, q: int)
    requires ValidRequest(r) && q >= 0 && MeetsAll(r, q)
    ensures PriceImpactPpmCeil(q, r.quoteReserve.value) <= r.maxPriceImpactPpm.value
  {
    assert Meets(r, PriceImpact, q);
    CeilAgreesWithLimit(q, r.quoteReserve.value, r.maxPriceImpactPpm.value);
  }

  function LimitingOf(size: ConservativeVolumeSize): seq<Limit> {
    Filter((limit: Limit) => IsLimiting(size, limit), LIMITS)
  }

  lemma LimitingMembers(size: ConservativeVolumeSize)
    ensures forall limit :: limit in LimitingOf(size) <==> IsLimiting(size, limit)
  {
    forall limit ensures limit in LIMITS {
      match limit
      case Requested => assert LIMITS[0] == limit;
      case Bankroll => assert LIMITS[1] == limit;
      case IndependentVolume => assert LIMITS[2] == limit;
      case PriceImpact => assert LIMITS[3] == limit;
      case FullExit => assert LIMITS[4] == limit;
    }
  }

  /** Compute the five caps. */
  method ComputeCaps(r: VolumeSizingRequest) returns (size: ConservativeVolumeSize)
    requires ValidRequest(r)
    ensures CapsHold(r, size) && size.asOfSlot == r.asOfSlot.value
  {
    var requested, reserve, tokens := r.requested.value, r.quoteReserve.value, r.tokenReserve.value;
    var bankrollCap := CapByFraction(r.bankroll.value, r.maxBankrollFractionPpm.value);
    var volumeCap := CapByFraction(r.independentVolume.value, r.maxVolumeFractionPpm.value);
    var priceImpactCap :=
      CapBySearch(r, PriceImpact, q => PriceImpactWithinLimit(q, reserve, r.maxPriceImpactPpm.value));
    var fullExitCap :=
      CapBySearch(r, FullExit,
                  q => reserve + q > 0 && ExpectedTokenOutput(q, reserve, tokens) <= r.maxOneShotExit.value);
    size := ConservativeVolumeSize(r.asOfSlot.value, 0, 0, 0, requested, bankrollCap, volumeCap,
                                   priceImpactCap, fullExitCap, []);
    forall limit ensures CapsLimit(r, limit, CapOf(size, limit)) {
      match limit
      case Requested =>
      case Bankroll =>
      case IndependentVolume =>
      case PriceImpact =>
      case FullExit =>
    }
  }

  method SizeVolumeLiquidityAware(r: VolumeSizingRequest) returns (result: Outcome<ConservativeVolumeSize>)
    ensures !Complete(r) ==> result == Abstained(AbstainResult(MissingFeature, SafeSlot(r)))
    ensures Complete(r) && !ValidRequest(r) ==>
              result == Abstained(AbstainResult(UnsupportedProtocolState, SafeSlot(r)))
    ensures ValidRequest(r) && result.Produced? ==> LargestSize(r, result.value)
    ensures ValidRequest(r) && result.Abstained? ==>
              && NothingToBuy(r)
              && result.abstain == AbstainResult(UnsupportedProtocolState, r.asOfSlot.value)
  {
    if !Complete(r) {
      return Abstained(AbstainResult(MissingFeature, SafeSlot(r)));
    }
    if !ValidRequest(r) {
      return Abstained(AbstainResult(UnsupportedProtocolState, SafeSlot(r)));
    }
    var caps := ComputeCaps(r);
    var selected := MinCap(caps);
    if selected <= 0 {
      NothingWithin(r, caps);
      return Abstained(AbstainResult(UnsupportedProtocolState, r.asOfSlot.value));
    }
    var output := ExpectedTokenOutput(selected, r.quoteReserve.value, r.tokenReserve.value);
    if output <= 0 {
      NothingWithin(r, caps);
      return Abstained(AbstainResult(UnsupportedProtocolState, r.asOfSlot.value));
    }
    var size := Fill(caps, selected, output, PriceImpactPpmCeil(selected, r.quoteReserve.value));
    FillKeepsCaps(r, caps, selected, output, PriceImpactPpmCeil(selected, r.quoteReserve.value));
    BuiltSize(r, size);
    return Produced(size);
  }

  function Fill(caps: ConservativeVolumeSize, selected: int, output: int, impact: int): ConservativeVolumeSize {
    var size := caps.(quoteSize := selected, expectedTokenOutput := output, projectedPriceImpactPpm := impact);
    size.(limiting := LimitingOf(size))
  }

  lemma FillKeepsCaps(r: VolumeSizingRequest, caps: ConservativeVolumeSize, selected: int, output: int, impact: int)
    requires ValidRequest(r) && CapsHold(r, caps)
    ensures var size := Fill(caps, selected, output, impact);
            && CapsHold(r, size) && MinCap(size) == MinCap(caps)
            && forall limit :: limit in size.limiting <==> IsLimiting(size, limit)
  {
    var size := Fill(caps, selected, output, impact);
    LimitingMembers(caps.(quoteSize := selected, expectedTokenOutput := output, projectedPriceImpactPpm := impact));
    forall limit ensures CapOf(size, limit) == CapOf(caps, limit) {
    }
  }

  lemma SizeWithinImpact(r: VolumeSizingRequest, size: ConservativeVolumeSize)
    requires ValidRequest(r) && LargestSize(r, size)
    ensures size.quoteSize > 0
    ensures size.expectedTokenOutput
            == ExpectedTokenOutput(size.quoteSize, r.quoteReserve.value, r.tokenReserve.value)
    ensures PriceImpactWithinLimit(size.quoteSize, r.quoteReserve.value, r.maxPriceImpactPpm.value)
  {
    assert Meets(r, PriceImpact, size.quoteSize);
  }

  /** A produced size takes less than three tenths of the pool's tokens. */
  lemma SizeLeavesSevenTenths(r: VolumeSizingRequest, size: ConservativeVolumeSize)
    requires ValidRequest(r) && LargestSize(r, size)
    ensures 7 * size.quoteSize < 3 * r.quoteReserve.value
    ensures 10 * size.expectedTokenOutput < 3 * r.tokenReserve.value
    ensures (r.quoteReserve.value + size.quoteSize) * (r.tokenReserve.value - size.expectedTokenOutput)
            >= r.quoteReserve.value * r.tokenReserve.value
  {
    SizeWithinImpact(r, size);
    NeverThreeTenths(size.quoteSize, r.quoteReserve.value, r.tokenReserve.value, r.maxPriceImpactPpm.value);
    ProductNeverDecreases(size.quoteSize, r.quoteReserve.value, r.tokenReserve.value);
  }
}
