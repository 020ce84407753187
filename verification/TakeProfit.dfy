/** The optimal take-profit: an argmax over observed multiples that is optimal over
    every real threshold. Multiples and rates are exact reals. */
module TakeProfit {
  import opened Domain
  import opened Ordering

  const WINRATE_FLOOR_PCT: real := 70.0
  const QUALIFY_MIN_LAUNCHES: int := 10

  datatype OptimalTp = OptimalTp(
    tpMultiple: real,
    winratePct: real,
    evMultiple: real,
    launchCount: int,
    qualifies: bool)

  function Wins(aths: seq<real>, threshold: real): nat {
    |Filter((v: real) => v >= threshold, aths)|
  }

  function WinratePct(aths: seq<real>, threshold: real): real
    requires aths != []
  {
    Wins(aths, threshold) as real / |aths| as real * 100.0
  }

  /** Expected multiple of taking profit at a threshold reached at the given rate. */
  function EvAt(winratePct: real, threshold: real, feeBps: int): real {
    winratePct / 100.0 * threshold - (1.0 - winratePct / 100.0) - feeBps as real / 10_000.0
  }

  function Ev(aths: seq<real>, threshold: real, feeBps: int): real
    requires aths != []
  {
    EvAt(WinratePct(aths, threshold), threshold, feeBps)
  }

  predicate RealLe(a: real, b: real) {
    a <= b
  }

  function Candidates(aths: seq<real>): seq<real> {
    SortBy(RealLe, Dedup(aths))
  }

  /** The candidates list the observed values in strictly increasing order. */
  ghost predicate ListsValues(candidates: seq<real>, aths: seq<real>) {
    && (forall k :: 0 <= k < |aths| ==> aths[k] in candidates)
    && (forall k :: 0 <= k < |candidates| ==> candidates[k] in aths)
    && (forall i, j :: 0 <= i < j < |candidates| ==> candidates[i] < candidates[j])
  }

  lemma CandidatesList(aths: seq<real>)
    ensures ListsValues(Candidates(aths), aths)
  {
    var distinct, sorted := Dedup(aths), Candidates(aths);
    SortMultiset(RealLe, distinct);
    SortOrdered(RealLe, distinct);
    DistinctMultiset(distinct, sorted);
    forall i, j | 0 <= i < j < |sorted| ensures sorted[i] < sorted[j] {
      assert RealLe(sorted[i], sorted[j]) && sorted[i] != sorted[j];
    }
    forall k | 0 <= k < |aths| ensures aths[k] in sorted {
      assert aths[k] in distinct;
      assert aths[k] in multiset(distinct);
      assert aths[k] in multiset(sorted);
    }
    forall k | 0 <= k < |sorted| ensures sorted[k] in aths {
      assert sorted[k] in multiset(sorted);
      assert sorted[k] in multiset(distinct);
      assert sorted[k] in distinct;
    }
  }

  // ---------- what the optimum is ----------

  /** `a` is no better than `b`: it misses the floor, or has a lower expectation, or the
      same one at no lower multiple. */
  ghost predicate NoBetter(aths: seq<real>, feeBps: int, a: real, b: real)
    requires aths != []
  {
    WinratePct(aths, a) >= WINRATE_FLOOR_PCT ==>
      && Ev(aths, a, feeBps) <= Ev(aths, b, feeBps)
      && (Ev(aths, a, feeBps) == Ev(aths, b, feeBps) ==> b <= a)
  }

  /** A threshold meets the floor; no other one, observed or not, has a higher
      expectation, and none with the same expectation is lower. */
  ghost predicate Optimal(aths: seq<real>, feeBps: int, tp: real)
    requires aths != []
  {
    && WinratePct(aths, tp) >= WINRATE_FLOOR_PCT
    && forall t: real :: NoBetter(aths, feeBps, t, tp)
  }

  /** The best of the first n candidates, lower ones preferred. */
  ghost predicate BestOf(aths: seq<real>, candidates: seq<real>, n: nat, feeBps: int, best: Option<real>)
    requires aths != [] && n <= |candidates|
  {
    && (best.None? ==> forall k :: 0 <= k < n ==> WinratePct(aths, candidates[k]) < WINRATE_FLOOR_PCT)
    && (best.Some? ==>
          && WinratePct(aths, best.value) >= WINRATE_FLOOR_PCT && best.value in candidates
          && forall k :: 0 <= k < n ==> NoBetter(aths, feeBps, candidates[k], best.value))
  }

  lemma NoBetterChain(aths: seq<real>, feeBps: int, a: real, b: real, c: real)
    requires aths != [] && WinratePct(aths, b) >= WINRATE_FLOOR_PCT
    requires NoBetter(aths, feeBps, a, b) && Ev(aths, b, feeBps) < Ev(aths, c, feeBps)
    ensures NoBetter(aths, feeBps, a, c)
  {
  }

  lemma BestKeeps(aths: seq<real>, candidates: seq<real>, n: nat, feeBps: int, best: Option<real>)
    requires aths != [] && n < |candidates| && BestOf(aths, candidates, n, feeBps, best)
    requires best.None? ==> WinratePct(aths, candidates[n]) < WINRATE_FLOOR_PCT
    requires best.Some? ==> NoBetter(aths, feeBps, candidates[n], best.value)
    ensures BestOf(aths, candidates, n + 1, feeBps, best)
  {
  }

  lemma BestMoves(aths: seq<real>, candidates: seq<real>, n: nat, feeBps: int, best: Option<real>)
    requires aths != [] && n < |candidates| && BestOf(aths, candidates, n, feeBps, best)
    requires WinratePct(aths, candidates[n]) >= WINRATE_FLOOR_PCT
    requires best.Some? ==> Ev(aths, candidates[n], feeBps) > Ev(aths, best.value, feeBps)
    ensures BestOf(aths, candidates, n + 1, feeBps, Some(candidates[n]))
  {
    var c := candidates[n];
    forall k | 0 <= k < n ensures NoBetter(aths, feeBps, candidates[k], c) {
      if best.Some? {
        NoBetterChain(aths, feeBps, candidates[k], best.value, c);
      }
    }
    assert NoBetter(aths, feeBps, c, c);
  }

  /** A later, higher candidate that does not exceed the best is no better. */
  lemma LaterNoBetter(aths: seq<real>, feeBps: int, c: real, best: real)
    requires aths != [] && best < c && Ev(aths, c, feeBps) <= Ev(aths, best, feeBps)
    ensures NoBetter(aths, feeBps, c, best)
  {
  }

  method SelectOptimalTp(aths: seq<real>, feeBps: int) returns (r: Option<OptimalTp>)
    ensures r.None? <==> aths == []
    ensures r.Some? ==>
              var o := r.value;
              && o.tpMultiple in aths && Optimal(aths, feeBps, o.tpMultiple)
              && o.winratePct == WinratePct(aths, o.tpMultiple)
              && o.evMultiple == Ev(aths, o.tpMultiple, feeBps)
              && o.launchCount == |aths|
              && (o.qualifies <==> |aths| >= QUALIFY_MIN_LAUNCHES)
  {
    if aths == [] {
      return None;
    }
    var total := |aths|;
    var candidates := Candidates(aths);
    CandidatesList(aths);
    r := None;
    for i := 0 to |candidates|
      invariant BestOf(aths, candidates, i, feeBps, if r.Some? then Some(r.value.tpMultiple) else None)
      invariant r.Some? ==> i > 0 && r.value.tpMultiple <= candidates[i - 1]
      invariant r.Some? ==>
                  var o := r.value;
                  && o.winratePct == WinratePct(aths, o.tpMultiple)
                  && o.evMultiple == Ev(aths, o.tpMultiple, feeBps)
                  && o.launchCount == total && (o.qualifies <==> total >= QUALIFY_MIN_LAUNCHES)
    {
      var candidate := candidates[i];
      ghost var best := if r.Some? then Some(r.value.tpMultiple) else None;
      var winratePct := WinratePct(aths, candidate);
      if winratePct >= WINRATE_FLOOR_PCT {
        var ev := EvAt(winratePct, candidate, feeBps);
        if r.None? || ev > r.value.evMultiple {
          BestMoves(aths, candidates, i, feeBps, best);
          r := Some(OptimalTp(candidate, winratePct, ev, total,
                              total >= QUALIFY_MIN_LAUNCHES && winratePct >= WINRATE_FLOOR_PCT));
        } else {
          LaterNoBetter(aths, feeBps, candidate, r.value.tpMultiple);
          BestKeeps(aths, candidates, i, feeBps, best);
        }
      } else {
        assert r.Some? ==> NoBetter(aths, feeBps, candidate, r.value.tpMultiple);
        BestKeeps(aths, candidates, i, feeBps, best);
      }
    }
    LowestAlwaysWins(aths, candidates);
    BestIsOptimal(aths, candidates, feeBps, r.value.tpMultiple);
  }

  // ---------- from observed candidates to all thresholds ----------

  lemma {:induction false} FilterAll<T>(keep: T -> bool, xs: seq<T>)
    requires forall k :: 0 <= k < |xs| ==> keep(xs[k])
    ensures Filter(keep, xs) == xs
  {
    if xs != [] {
      FilterAll(keep, xs[1..]);
    }
  }

  lemma {:induction false} FilterSame<T>(keep: T -> bool, other: T -> bool, xs: seq<T>)
    requires forall k :: 0 <= k < |xs| ==> keep(xs[k]) == other(xs[k])
    ensures Filter(keep, xs) == Filter(other, xs)
  {
    if xs != [] {
      FilterSame(keep, other, xs[1..]);
    }
  }

  /** Every launch reaches the lowest multiple, so something meets the floor. */
  lemma LowestAlwaysWins(aths: seq<real>, candidates: seq<real>)
    requires aths != [] && ListsValues(candidates, aths)
    ensures candidates != [] && WinratePct(aths, candidates[0]) == 100.0
  {
    assert aths[0] in candidates;
    forall k | 0 <= k < |aths| ensures aths[k] >= candidates[0] {
      assert aths[k] in candidates;
      var j :| 0 <= j < |candidates| && candidates[j] == aths[k];
    }
    FilterAll((v: real) => v >= candidates[0], aths);
    FullRate(|aths|);
  }

  lemma FullRate(n: nat)
    requires n > 0
    ensures n as real / n as real * 100.0 == 100.0
  {
  }

  lemma RatePositive(wins: nat, n: nat)
    requires n > 0 && wins as real / n as real * 100.0 >= WINRATE_FLOOR_PCT
    ensures wins > 0
  {
  }

  lemma {:induction false} SomeWinner(aths: seq<real>, threshold: real) returns (c: real)
    requires Wins(aths, threshold) > 0
    ensures c in aths && c >= threshold
    ensures forall k :: 0 <= k < |aths| && aths[k] >= threshold ==> aths[k] >= c
  {
    var rest := aths[1..];
    if Wins(rest, threshold) > 0 {
      c := SomeWinner(rest, threshold);
      if threshold <= aths[0] < c {
        c := aths[0];
      }
    } else {
      c := aths[0];
      forall k | 0 <= k < |aths| && aths[k] >= threshold ensures k == 0 {
        if k > 0 {
          assert aths[k] == rest[k - 1];
          WinsCounts(rest, threshold, k - 1);
        }
      }
    }
  }

  lemma WinsCounts(aths: seq<real>, threshold: real, k: nat)
    requires k < |aths| && aths[k] >= threshold
    ensures Wins(aths, threshold) > 0
  {
    assert aths[k] in Filter((v: real) => v >= threshold, aths);
  }

  /** Raising a threshold to the next observed multiple keeps its winrate. */
  lemma NextObserved(aths: seq<real>, threshold: real, feeBps: int) returns (c: real)
    requires aths != []
    ensures c in aths
    ensures WinratePct(aths, threshold) >= WINRATE_FLOOR_PCT ==>
              && threshold <= c
              && WinratePct(aths, c) == WinratePct(aths, threshold)
              && Ev(aths, threshold, feeBps) <= Ev(aths, c, feeBps)
              && (threshold < c ==> Ev(aths, threshold, feeBps) < Ev(aths, c, feeBps))
  {
    c := aths[0];
    if WinratePct(aths, threshold) >= WINRATE_FLOOR_PCT {
      RatePositive(Wins(aths, threshold), |aths|);
      c := SomeWinner(aths, threshold);
      FilterSame((v: real) => v >= threshold, (v: real) => v >= c, aths);
      EvGrows(WinratePct(aths, c), threshold, c, feeBps);
    }
  }

  lemma EvGrows(winratePct: real, low: real, high: real, feeBps: int)
    requires winratePct >= WINRATE_FLOOR_PCT && low <= high
    ensures EvAt(winratePct, low, feeBps) <= EvAt(winratePct, high, feeBps)
    ensures low < high ==> EvAt(winratePct, low, feeBps) < EvAt(winratePct, high, feeBps)
  {
    var w := winratePct / 100.0;
    assert w > 0.0;
    assert w * high - w * low == w * (high - low);
    if low < high {
      assert w * (high - low) > 0.0;
    }
  }

  lemma BestIsOptimal(aths: seq<real>, candidates: seq<real>, feeBps: int, tp: real)
    requires aths != [] && ListsValues(candidates, aths)
    requires BestOf(aths, candidates, |candidates|, feeBps, Some(tp))
    ensures Optimal(aths, feeBps, tp)
  {
    forall t: real | WinratePct(aths, t) >= WINRATE_FLOOR_PCT ensures NoBetter(aths, feeBps, t, tp) {
      var c := NextObserved(aths, t, feeBps);
      var i :| 0 <= i < |aths| && aths[i] == c;
      assert aths[i] in candidates;
      var k :| 0 <= k < |candidates| && candidates[k] == c;
      assert NoBetter(aths, feeBps, candidates[k], tp);
    }
  }

  /** There is only one optimum. */
  lemma OptimalUnique(aths: seq<real>, feeBps: int, a: real, b: real)
    requires aths != []
    ensures Optimal(aths, feeBps, a) && Optimal(aths, feeBps, b) ==> a == b
  {
    if Optimal(aths, feeBps, a) && Optimal(aths, feeBps, b) {
      assert NoBetter(aths, feeBps, a, b) && NoBetter(aths, feeBps, b, a);
    }
  }

  // ---------- what the expectation is ----------

  /** What the launches pay in all: the threshold for each that reaches it, and the loss of
      the whole stake for each that does not. */
  ghost function TotalPayoff(aths: seq<real>, threshold: real): real {
    if aths == [] then 0.0
    else (if aths[0] >= threshold then threshold else -1.0) + TotalPayoff(aths[1..], threshold)
  }

  ghost function PaidFor(wins: int, n: int, threshold: real): real {
    wins as real * threshold - (n as real - wins as real)
  }

  lemma OneMoreLaunch(wins: int, n: int, threshold: real)
    ensures PaidFor(wins + 1, n + 1, threshold) == threshold + PaidFor(wins, n, threshold)
    ensures PaidFor(wins, n + 1, threshold) == -1.0 + PaidFor(wins, n, threshold)
  {
    var w := wins as real;
    assert (wins + 1) as real == w + 1.0 && (n + 1) as real == n as real + 1.0;
    assert (w + 1.0) * threshold == w * threshold + threshold;
  }

  lemma WinsHead(aths: seq<real>, threshold: real)
    requires aths != []
    ensures Wins(aths, threshold) == Wins(aths[1..], threshold) + if aths[0] >= threshold then 1 else 0
  {
  }

  lemma {:induction false} PayoffByWins(aths: seq<real>, threshold: real)
    ensures TotalPayoff(aths, threshold) == PaidFor(Wins(aths, threshold), |aths|, threshold)
  {
    if aths == [] {
      assert Wins(aths, threshold) == 0;
      assert PaidFor(0, 0, threshold) == 0.0;
    } else {
      PayoffByWins(aths[1..], threshold);
      WinsHead(aths, threshold);
      PayoffStep(aths, threshold, Wins(aths[1..], threshold));
    }
  }

  lemma PayoffStep(aths: seq<real>, threshold: real, wins: int)
    requires aths != [] && TotalPayoff(aths[1..], threshold) == PaidFor(wins, |aths| - 1, threshold)
    ensures TotalPayoff(aths, threshold)
            == PaidFor(if aths[0] >= threshold then wins + 1 else wins, |aths|, threshold)
  {
    OneMoreLaunch(wins, |aths| - 1, threshold);
  }

  /** The expectation is the mean payoff less the fee. */
  lemma ExpectationIsMeanPayoff(aths: seq<real>, threshold: real, feeBps: int)
    requires aths != []
    ensures Ev(aths, threshold, feeBps)
            == TotalPayoff(aths, threshold) / |aths| as real - feeBps as real / 10_000.0
  {
    PayoffByWins(aths, threshold);
    EvOfWins(Wins(aths, threshold), |aths|, threshold, feeBps);
  }

  lemma EvOfWins(wins: int, n: int, threshold: real, feeBps: int)
    requires n > 0
    ensures EvAt(wins as real / n as real * 100.0, threshold, feeBps)
            == PaidFor(wins, n, threshold) / n as real - feeBps as real / 10_000.0
  {
    MeanOfWins(wins as real, n as real, threshold);
  }

  lemma MeanOfWins(wins: real, n: real, threshold: real)
    requires n > 0.0
    ensures wins / n * 100.0 / 100.0 * threshold - (1.0 - wins / n * 100.0 / 100.0)
            == (wins * threshold - (n - wins)) / n
  {
    var rate := wins / n;
    var mean := rate * threshold - (1.0 - rate);
    assert rate * 100.0 / 100.0 == rate;
    Unscale(rate, n, threshold);
    assert rate * n == wins;
    assert mean * n == wins * threshold - (n - wins);
    assert mean * n / n == mean;
  }

  lemma Unscale(rate: real, n: real, threshold: real)
    ensures (rate * threshold - (1.0 - rate)) * n == (rate * n) * threshold - (n - rate * n)
  {
  }

  /** The floor asks for seven launches in ten. */
  lemma FloorIsSevenInTen(aths: seq<real>, threshold: real)
    requires aths != []
    ensures WinratePct(aths, threshold) >= WINRATE_FLOOR_PCT <==> 10 * Wins(aths, threshold) >= 7 * |aths|
  {
    RateAtLeast(Wins(aths, threshold) as real, |aths| as real);
  }

  lemma RateAtLeast(wins: real, n: real)
    requires n > 0.0
    ensures wins / n * 100.0 >= 70.0 <==> 10.0 * wins >= 7.0 * n
  {
    var rate := wins / n;
    assert rate * n == wins;
    if rate >= 0.7 {
      assert (rate - 0.7) * n >= 0.0;
    } else {
      assert (0.7 - rate) * n > 0.0;
    }
  }
}
