/** Tail and drawdown statistics of a list of results. */
module BacktestRisk {
  import opened Domain
  import opened Ordering

  // ---------- expected shortfall ----------

  predicate AtMost(a: int, b: int) {
    a <= b
  }

  function Ascending(xs: seq<int>): seq<int> {
    SortBy(AtMost, xs)
  }

  function TailCount(n: nat, tailPpm: int): int {
    Max(1, (n * tailPpm + PPM - 1) / PPM)
  }

  function TailSum(xs: seq<int>, k: nat): int
    requires k <= |xs|
  {
    Sum(Ascending(xs)[..k])
  }

  function ExpectedShortfall(pnls: seq<int>, tailPpm: int): Option<int>
    requires 0 < tailPpm <= PPM
  {
    if pnls == [] then None
    else
      TailWithin(|pnls|, tailPpm);
      var k := TailCount(|pnls|, tailPpm);
      Some(TailSum(pnls, k) / k)
  }

  lemma TailWithin(n: nat, tailPpm: int)
    requires n > 0 && 0 < tailPpm <= PPM
    ensures 1 <= TailCount(n, tailPpm) <= n
    ensures TailCount(n, tailPpm) * PPM >= n * tailPpm
    ensures (TailCount(n, tailPpm) - 1) * PPM < n * tailPpm
  {
    var a := n * tailPpm + PPM - 1;
    FloorBounds(a, PPM);
    assert n * tailPpm <= n * PPM;
    assert n * tailPpm >= 1;
    FloorGalois(1, a, PPM);
    FloorGalois(n + 1, a, PPM);
  }

  lemma TailGrows(n: nat, small: int, large: int)
    requires 0 < small <= large
    ensures TailCount(n, small) <= TailCount(n, large)
  {
    assert n * small <= n * large;
    FloorMonotone(n * small + PPM - 1, n * large + PPM - 1, PPM);
  }

  lemma AscendingOrdered(xs: seq<int>)
    ensures Ordered(AtMost, Ascending(xs)) && multiset(Ascending(xs)) == multiset(xs)
  {
    SortOrdered(AtMost, xs);
    SortMultiset(AtMost, xs);
  }

  lemma SumRemove(xs: seq<int>, i: nat)
    requires i < |xs|
    ensures Sum(xs) == xs[i] + Sum(xs[..i] + xs[i + 1..])
  {
    SumConcat(xs[..i], xs[i..]);
    SumConcat(xs[..i], xs[i + 1..]);
    assert xs == xs[..i] + xs[i..] && xs[i..][1..] == xs[i + 1..];
  }

  lemma RemoveMultiset(xs: seq<int>, i: nat)
    requires i < |xs|
    ensures multiset(xs[..i] + xs[i + 1..]) == multiset(xs) - multiset{xs[i]}
  {
    assert xs == xs[..i] + [xs[i]] + xs[i + 1..];
  }

  /** The first k of an ascending list have the least sum of any k of its elements. */
  lemma {:induction false} PrefixSumLeast(s: seq<int>, sub: seq<int>)
    requires Ordered(AtMost, s) && multiset(sub) <= multiset(s)
    ensures |sub| <= |s| && Sum(s[..|sub|]) <= Sum(sub)
    decreases |s|
  {
    SubMultisetSmaller(multiset(sub), multiset(s));
    assert |multiset(sub)| == |sub| && |multiset(s)| == |s|;
    if sub != [] {
      var rest := TakeOne(s, sub);
      PrefixSumLeast(s[1..], rest);
      assert s[..|sub|] == [s[0]] + s[1..][..|rest|];
    }
  }

  /** Take out of `sub` the least element of `s`, or any element if it is not there. */
  lemma TakeOne(s: seq<int>, sub: seq<int>) returns (rest: seq<int>)
    requires Ordered(AtMost, s) && multiset(sub) <= multiset(s) && s != [] && sub != []
    ensures |rest| == |sub| - 1 && multiset(rest) <= multiset(s[1..])
    ensures s[0] + Sum(rest) <= Sum(sub)
  {
    var i := if s[0] in sub then PositionOf(sub, s[0]) else 0;
    rest := sub[..i] + sub[i + 1..];
    RemoveMultiset(sub, i);
    SumRemove(sub, i);
    RestWithin(s, sub, i, rest);
    assert sub[i] in multiset(sub);
    FirstBelow(s, sub[i]);
  }

  lemma FirstBelow(s: seq<int>, x: int)
    requires Ordered(AtMost, s) && x in multiset(s)
    ensures s != [] && s[0] <= x
  {
    var j :| 0 <= j < |s| && s[j] == x;
    assert j == 0 || AtMost(s[0], s[j]);
  }

  lemma SubMultisetSmaller(a: multiset<int>, b: multiset<int>)
    requires a <= b
    ensures |a| <= |b|
  {
    assert b == a + (b - a);
  }

  function PositionOf(xs: seq<int>, x: int): (i: nat)
    requires x in xs
    ensures i < |xs| && xs[i] == x
  {
    if xs[0] == x then 0 else 1 + PositionOf(xs[1..], x)
  }

  lemma RestWithin(s: seq<int>, sub: seq<int>, i: nat, rest: seq<int>)
    requires s != [] && i < |sub| && multiset(sub) <= multiset(s)
    requires multiset(rest) == multiset(sub) - multiset{sub[i]}
    requires s[0] in sub ==> sub[i] == s[0]
    ensures multiset(rest) <= multiset(s[1..])
  {
    assert s == [s[0]] + s[1..];
    assert multiset(s[1..]) == multiset(s) - multiset{s[0]};
    if s[0] !in sub {
      assert multiset(sub)[s[0]] == 0;
      assert multiset(rest) <= multiset(sub);
    }
  }

  /** The tail is the k worst results: no k of the results sum to less. */
  lemma TailIsWorst(pnls: seq<int>, sub: seq<int>)
    requires multiset(sub) <= multiset(pnls)
    ensures |sub| <= |pnls| && TailSum(pnls, |sub|) <= Sum(sub)
  {
    AscendingOrdered(pnls);
    PrefixSumLeast(Ascending(pnls), sub);
  }

  /** And the tail itself is made of results. */
  lemma TailIsPart(pnls: seq<int>, k: nat)
    requires k <= |pnls|
    ensures multiset(Ascending(pnls)[..k]) <= multiset(pnls)
  {
    AscendingOrdered(pnls);
    var s := Ascending(pnls);
    assert s == s[..k] + s[k..];
  }

  /** The shortfall is the floored mean of k of the results, 1 <= k <= n, whose sum is
      the least of any k of them; k is the tail share of n, rounded up. */
  lemma ShortfallIsWorstMean(pnls: seq<int>, tailPpm: int)
    requires pnls != [] && 0 < tailPpm <= PPM
    ensures var k := TailCount(|pnls|, tailPpm);
            && 1 <= k <= |pnls| && (k - 1) * PPM < |pnls| * tailPpm <= k * PPM
            && exists tail ::
                 && |tail| == k && multiset(tail) <= multiset(pnls)
                 && ExpectedShortfall(pnls, tailPpm) == Some(Sum(tail) / k)
                 && forall sub: seq<int> :: |sub| == k && multiset(sub) <= multiset(pnls) ==> Sum(tail) <= Sum(sub)
  {
    var k := TailCount(|pnls|, tailPpm);
    TailWithin(|pnls|, tailPpm);
    TailIsPart(pnls, k);
    var tail := Ascending(pnls)[..k];
    forall sub: seq<int> | |sub| == k && multiset(sub) <= multiset(pnls) ensures Sum(tail) <= Sum(sub) {
      TailIsWorst(pnls, sub);
    }
    assert ExpectedShortfall(pnls, tailPpm) == Some(Sum(tail) / k);
  }

  lemma {:induction false} PrefixSumAtMostLast(s: seq<int>, k: nat)
    requires Ordered(AtMost, s) && k < |s|
    ensures Sum(s[..k]) <= k * s[k]
  {
    if k > 0 {
      PrefixSumAtMostLast(s, k - 1);
      assert s[..k] == s[..k - 1] + [s[k - 1]];
      SumConcat(s[..k - 1], [s[k - 1]]);
      assert AtMost(s[k - 1], s[k]);
      assert (k - 1) * s[k - 1] <= (k - 1) * s[k];
    }
  }

  /** Means of longer prefixes of an ascending list are no smaller. */
  lemma {:induction false} PrefixMeansGrow(s: seq<int>, k: nat, m: nat)
    requires Ordered(AtMost, s) && 1 <= k <= m <= |s|
    ensures Sum(s[..k]) * m <= Sum(s[..m]) * k
    decreases m - k
  {
    if k < m {
      PrefixMeansGrow(s, k, m - 1);
      PrefixSumAtMostLast(s, m - 1);
      assert s[..m] == s[..m - 1] + [s[m - 1]];
      SumConcat(s[..m - 1], [s[m - 1]]);
      MeanStep(Sum(s[..k]), Sum(s[..m - 1]), s[m - 1], k, m - 1);
    }
  }

  lemma MeanStep(a: int, b: int, last: int, k: nat, n: nat)
    requires k >= 1 && n >= 1 && a * n <= b * k && b <= n * last
    ensures a * (n + 1) <= (b + last) * k
  {
    // multiply by n and cancel it
    assert (a * n) * (n + 1) <= (b * k) * (n + 1);
    assert (b * k) * (n + 1) == (b * k) * n + b * k;
    assert b * k <= (n * last) * k;
    assert (a * (n + 1)) * n == (a * n) * (n + 1);
    assert ((b + last) * k) * n == (b * k) * n + (n * last) * k;
    MulCancel(a * (n + 1), (b + last) * k, n);
  }

  /** The shortfall never falls as the tail grows. */
  lemma ShortfallMonotone(pnls: seq<int>, small: int, large: int)
    requires pnls != [] && 0 < small <= large <= PPM
    ensures ExpectedShortfall(pnls, small).value <= ExpectedShortfall(pnls, large).value
  {
    var n := |pnls|;
    var k, m := TailCount(n, small), TailCount(n, large);
    TailWithin(n, small);
    TailWithin(n, large);
    TailGrows(n, small, large);
    AscendingOrdered(pnls);
    PrefixMeansGrow(Ascending(pnls), k, m);
    FloorCross(TailSum(pnls, k), k, TailSum(pnls, m), m);
  }

  /** It lies between the worst result and the floored mean of all results. */
  lemma ShortfallBounds(pnls: seq<int>, tailPpm: int)
    requires pnls != [] && 0 < tailPpm <= PPM
    ensures MinOf(pnls) <= ExpectedShortfall(pnls, tailPpm).value <= Sum(pnls) / |pnls|
  {
    var s, k := Ascending(pnls), TailCount(|pnls|, tailPpm);
    TailWithin(|pnls|, tailPpm);
    AscendingOrdered(pnls);
    PrefixMeansGrow(s, k, |s|);
    assert s[..|s|] == s;
    SumOfPermutation(s, pnls);
    FloorCross(Sum(s[..k]), k, Sum(s), |s|);
    PrefixMeansGrow(s, 1, k);
    assert s[..1] == [s[0]];
    FirstIsLeast(s, pnls);
    FloorGalois(MinOf(pnls), Sum(s[..k]), k);
  }

  lemma FirstIsLeast(s: seq<int>, pnls: seq<int>)
    requires pnls != [] && Ordered(AtMost, s) && multiset(s) == multiset(pnls)
    ensures s != [] && s[0] == MinOf(pnls)
  {
    assert MinOf(pnls) in multiset(pnls);
    FirstBelow(s, MinOf(pnls));
    assert s[0] in multiset(s);
    assert s[0] in multiset(pnls);
    assert s[0] in pnls;
  }

  lemma {:induction false} SumOfPermutation(a: seq<int>, b: seq<int>)
    requires multiset(a) == multiset(b)
    ensures Sum(a) == Sum(b) && |a| == |b|
    decreases |a|
  {
    assert |multiset(a)| == |a| && |multiset(b)| == |b|;
    if a != [] {
      assert a[0] in multiset(b);
      var i := PositionOf(b, a[0]);
      RemoveMultiset(b, i);
      SumRemove(b, i);
      TailMultiset(a);
      SumOfPermutation(a[1..], b[..i] + b[i + 1..]);
    }
  }

  // ---------- maximum drawdown ----------

  /** Cumulative result after the first k entries; the empty prefix counts as 0. */
  function Cumulative(pnls: seq<int>, k: nat): int
    requires k <= |pnls|
  {
    Sum(pnls[..k])
  }

  ghost predicate IsMaxDrawdown(pnls: seq<int>, d: int) {
    && (forall i, j :: 0 <= i <= j <= |pnls| ==> Cumulative(pnls, i) - Cumulative(pnls, j) <= d)
    && (exists i, j :: 0 <= i <= j <= |pnls| && Cumulative(pnls, i) - Cumulative(pnls, j) == d)
  }

  /** Running sum, running peak from zero, and the deepest fall so far. */
  datatype DrawdownScan = DrawdownScan(cumulative: int, peak: int, deepest: int)

  function ScanDrawdown(pnls: seq<int>): DrawdownScan {
    if pnls == [] then DrawdownScan(0, 0, 0)
    else
      var before := ScanDrawdown(pnls[..|pnls| - 1]);
      var cumulative := before.cumulative + pnls[|pnls| - 1];
      var peak := Max(before.peak, cumulative);
      DrawdownScan(cumulative, peak, Max(before.deepest, peak - cumulative))
  }

  lemma CumulativeFront(pnls: seq<int>, i: nat)
    requires pnls != [] && i <= |pnls|
    ensures i < |pnls| ==> Cumulative(pnls, i) == Cumulative(pnls[..|pnls| - 1], i)
    ensures i == |pnls| ==>
              Cumulative(pnls, i) == Cumulative(pnls[..|pnls| - 1], i - 1) + pnls[i - 1]
  {
    var front := pnls[..|pnls| - 1];
    if i < |pnls| {
      assert pnls[..i] == front[..i];
    } else {
      assert pnls[..i] == front[..i - 1] + [pnls[i - 1]];
      SumConcat(front[..i - 1], [pnls[i - 1]]);
    }
  }

  ghost predicate IsPeak(pnls: seq<int>, peak: int) {
    && (forall i :: 0 <= i <= |pnls| ==> Cumulative(pnls, i) <= peak)
    && (exists i :: 0 <= i <= |pnls| && Cumulative(pnls, i) == peak)
  }

  lemma {:induction false} ScanPeak(pnls: seq<int>)
    ensures ScanDrawdown(pnls).cumulative == Cumulative(pnls, |pnls|)
    ensures IsPeak(pnls, ScanDrawdown(pnls).peak)
  {
    if pnls == [] {
      assert Cumulative(pnls, 0) == 0;
    } else {
      var n, front := |pnls|, pnls[..|pnls| - 1];
      ScanPeak(front);
      forall i | 0 <= i <= n
        ensures Cumulative(pnls, i) == if i < n then Cumulative(front, i) else Cumulative(front, n - 1) + pnls[n - 1]
      {
        CumulativeFront(pnls, i);
      }
      var p :| 0 <= p <= n - 1 && Cumulative(front, p) == ScanDrawdown(front).peak;
      assert Cumulative(pnls, p) == ScanDrawdown(front).peak;
    }
  }

  /** The two lists have the same prefix sums up to the length of the shorter one. */
  ghost predicate AgreeBefore(pnls: seq<int>, front: seq<int>) {
    |pnls| == |front| + 1 && forall i :: 0 <= i <= |front| ==> Cumulative(pnls, i) == Cumulative(front, i)
  }

  lemma FrontAgrees(pnls: seq<int>)
    requires pnls != []
    ensures AgreeBefore(pnls, pnls[..|pnls| - 1])
  {
    forall i | 0 <= i < |pnls| ensures Cumulative(pnls, i) == Cumulative(pnls[..|pnls| - 1], i) {
      CumulativeFront(pnls, i);
    }
  }

  /** With one more entry, the greatest fall is the old one or the fall from the peak to the end. */
  lemma DeepestStep(pnls: seq<int>, front: seq<int>, before: int, peak: int)
    requires AgreeBefore(pnls, front) && IsMaxDrawdown(front, before) && IsPeak(pnls, peak)
    ensures IsMaxDrawdown(pnls, Max(before, peak - Cumulative(pnls, |pnls|)))
  {
    var deepest := Max(before, peak - Cumulative(pnls, |pnls|));
    forall i, j | 0 <= i <= j <= |pnls| ensures Cumulative(pnls, i) - Cumulative(pnls, j) <= deepest {
      FallBounded(pnls, front, before, peak, i, j);
    }
    FallAttained(pnls, front, before, peak);
  }

  lemma FallBounded(pnls: seq<int>, front: seq<int>, before: int, peak: int, i: nat, j: nat)
    requires AgreeBefore(pnls, front) && IsMaxDrawdown(front, before) && IsPeak(pnls, peak)
    requires i <= j <= |pnls|
    ensures Cumulative(pnls, i) - Cumulative(pnls, j) <= Max(before, peak - Cumulative(pnls, |pnls|))
  {
    assert j <= |front| ==> Cumulative(front, i) - Cumulative(front, j) <= before;
  }

  lemma FallAttained(pnls: seq<int>, front: seq<int>, before: int, peak: int)
    requires AgreeBefore(pnls, front) && IsMaxDrawdown(front, before) && IsPeak(pnls, peak)
    ensures exists i, j :: 0 <= i <= j <= |pnls|
                           && Cumulative(pnls, i) - Cumulative(pnls, j)
                              == Max(before, peak - Cumulative(pnls, |pnls|))
  {
    if before >= peak - Cumulative(pnls, |pnls|) {
      var a, b :| 0 <= a <= b <= |front| && Cumulative(front, a) - Cumulative(front, b) == before;
      assert Cumulative(pnls, a) - Cumulative(pnls, b) == before;
    } else {
      var p :| 0 <= p <= |pnls| && Cumulative(pnls, p) == peak;
      assert Cumulative(pnls, p) - Cumulative(pnls, |pnls|) == peak - Cumulative(pnls, |pnls|);
    }
  }

  /** The one-pass drawdown is the greatest fall between any two prefix sums. */
  lemma {:induction false} ScanDeepest(pnls: seq<int>)
    ensures IsMaxDrawdown(pnls, ScanDrawdown(pnls).deepest)
  {
    if pnls == [] {
      assert Cumulative(pnls, 0) == 0;
    } else {
      var front := pnls[..|pnls| - 1];
      ScanDeepest(front);
      ScanPeak(pnls);
      FrontAgrees(pnls);
      DeepestStep(pnls, front, ScanDrawdown(front).deepest, ScanDrawdown(pnls).peak);
    }
  }
}
