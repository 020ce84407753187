/** Vocabulary shared by every module: integer units, abstentions and
    canonical evidence. */
module Domain {

  // One whole, in parts per million.
  const PPM: int := 1_000_000

  datatype Option<+T> = None | Some(value: T)

  datatype AbstainReason =
    | UnknownProtocolState
    | UnsupportedProtocolState
    | UnknownFeeConfig
    | MissingFeature
    | StaleState
    | DecoderMismatch

  datatype AbstainResult = AbstainResult(reason: AbstainReason, asOfSlot: int)

  /** A produced artifact, or the abstention returned in its place. */
  datatype Outcome<+T> = Produced(value: T) | Abstained(abstain: AbstainResult)

  newtype Byte = x: int | 0 <= x < 256
  type Bytes = seq<Byte>

  datatype WalletAssetKind = Native | Token | Quote

  datatype CanonicalTransfer = CanonicalTransfer(
    asOfSlot: int,
    slot: int,
    transactionIndex: int,
    eventIndex: int,
    signature: Bytes,
    evidenceIds: seq<string>,
    sourceWallet: string,
    destinationWallet: string,
    assetKind: WalletAssetKind,
    assetId: string,
    amountBaseUnits: int)

  predicate ProbabilityPpm(value: int) {
    0 <= value <= PPM
  }

  predicate Distinct<T(==)>(xs: seq<T>) {
    forall i, j :: 0 <= i < j < |xs| ==> xs[i] != xs[j]
  }

  predicate NonEmptyIds(ids: seq<string>) {
    ids != [] && forall k :: 0 <= k < |ids| ==> ids[k] != ""
  }

  predicate DistinctNonEmptyIds(ids: seq<string>) {
    NonEmptyIds(ids) && Distinct(ids)
  }

  /** The characters that trimming removes. */
  predicate IsWhitespace(c: char) {
    || '\t' <= c <= '\r' || '\U{1C}' <= c <= ' ' || c == '\U{85}' || c == '\U{A0}'
    || c == '\U{1680}' || '\U{2000}' <= c <= '\U{200A}' || '\U{2028}' <= c <= '\U{2029}'
    || c == '\U{202F}' || c == '\U{205F}' || c == '\U{3000}'
  }

  /** A string that is not empty after trimming. */
  predicate NonBlank(text: string) {
    exists k :: 0 <= k < |text| && !IsWhitespace(text[k])
  }

  function Max(a: int, b: int): int {
    if a >= b then a else b
  }

  function Min(a: int, b: int): int {
    if a <= b then a else b
  }

  function Sum(xs: seq<int>): int {
    if xs == [] then 0 else xs[0] + Sum(xs[1..])
  }

  lemma {:induction false} SumConcat(a: seq<int>, b: seq<int>)
    ensures Sum(a + b) == Sum(a) + Sum(b)
  {
    if a == [] {
      assert a + b == b;
    } else {
      assert (a + b)[0] == a[0] && (a + b)[1..] == a[1..] + b;
      SumConcat(a[1..], b);
    }
  }

  function MaxOf(xs: seq<int>): (r: int)
    requires xs != []
    ensures r in xs && forall x :: x in xs ==> x <= r
  {
    if |xs| == 1 then xs[0]
    else
      var rest := MaxOf(xs[1..]);
      assert xs == [xs[0]] + xs[1..];
      Max(xs[0], rest)
  }

  function MinOf(xs: seq<int>): (r: int)
    requires xs != []
    ensures r in xs && forall x :: x in xs ==> r <= x
  {
    if |xs| == 1 then xs[0]
    else
      var rest := MinOf(xs[1..]);
      assert xs == [xs[0]] + xs[1..];
      Min(xs[0], rest)
  }

  /** The elements of `xs` that satisfy `keep`, in order. */
  function Filter<T>(keep: T -> bool, xs: seq<T>): (r: seq<T>)
    ensures forall x :: x in r ==> x in xs && keep(x)
    ensures forall x :: x in xs && keep(x) ==> x in r
    ensures |r| <= |xs|
  {
    if xs == [] then []
    else if keep(xs[0]) then [xs[0]] + Filter(keep, xs[1..])
    else Filter(keep, xs[1..])
  }

  function MapSeq<T, U>(f: T -> U, xs: seq<T>): (r: seq<U>)
    ensures |r| == |xs|
    ensures forall i :: 0 <= i < |xs| ==> r[i] == f(xs[i])
  {
    seq(|xs|, i requires 0 <= i < |xs| => f(xs[i]))
  }

  function Flatten<T(!new)>(xss: seq<seq<T>>): (r: seq<T>)
    ensures forall x :: x in r <==> exists k :: 0 <= k < |xss| && x in xss[k]
  {
    if xss == [] then [] else xss[0] + Flatten(xss[1..])
  }

  /** Keep the first occurrence of each element. */
  function Dedup<T(==, !new)>(xs: seq<T>): (r: seq<T>)
    ensures Distinct(r)
    ensures forall x :: x in r <==> x in xs
  {
    if xs == [] then []
    else
      var before := Dedup(xs[..|xs| - 1]);
      var last := xs[|xs| - 1];
      assert xs == xs[..|xs| - 1] + [last];
      if last in before then before else before + [last]
  }

  lemma {:induction false} FlattenConcat<T(!new)>(a: seq<seq<T>>, b: seq<seq<T>>)
    ensures Flatten(a + b) == Flatten(a) + Flatten(b)
  {
    if a == [] {
      assert a + b == b;
    } else {
      assert (a + b)[0] == a[0] && (a + b)[1..] == a[1..] + b;
      FlattenConcat(a[1..], b);
    }
  }

  /** `x` occurs in the list before the first `y`. */
  ghost predicate OccursBefore<T(!new)>(xs: seq<T>, x: T, y: T) {
    exists q :: 0 <= q < |xs| && xs[q] == y && y !in xs[..q] && x in xs[..q]
  }

  /** The distinct elements come in the order of their first occurrences. */
  lemma {:induction false} DedupKeepsOrder<T(!new)>(xs: seq<T>, i: nat, j: nat)
    requires i < j < |Dedup(xs)|
    ensures OccursBefore(xs, Dedup(xs)[i], Dedup(xs)[j])
  {
    var front, last := xs[..|xs| - 1], xs[|xs| - 1];
    var before := Dedup(front);
    if j < |before| {
      DedupKeepsOrder(front, i, j);
      var q :| 0 <= q < |front| && front[q] == before[j] && before[j] !in front[..q] && before[i] in front[..q];
      assert xs[..q] == front[..q];
    } else {
      assert before[i] in before;
      assert xs[..|front|] == front;
    }
  }

  lemma FloorBounds(a: int, d: int)
    requires d > 0
    ensures (a / d) * d <= a < (a / d) * d + d
  {
    assert a == d * (a / d) + a % d;
  }

  lemma MulCancel(x: int, y: int, d: int)
    requires d > 0 && x * d <= y * d
    ensures x <= y
  {
    assert (x - y) * d <= 0;
  }

  /** The defining property of floor division: `q <= a / d` exactly when `q * d <= a`. */
  lemma FloorGalois(q: int, a: int, d: int)
    requires d > 0
    ensures q <= a / d <==> q * d <= a
  {
    FloorBounds(a, d);
    if q <= a / d {
      assert q * d <= (a / d) * d;
    } else {
      assert q * d >= (a / d + 1) * d;
    }
  }

  /** Floor division by a positive divisor is monotone. */
  lemma FloorMonotone(a: int, b: int, d: int)
    requires d > 0 && a <= b
    ensures a / d <= b / d
  {
    FloorBounds(a, d);
    FloorGalois(a / d, b, d);
  }

  /** a / b <= c / d for floors, from the cross-multiplied comparison. */
  lemma FloorCross(a: int, b: int, c: int, d: int)
    requires b > 0 && d > 0 && a * d <= c * b
    ensures a / b <= c / d
  {
    var q := a / b;
    FloorBounds(a, b);
    assert (q * b) * d <= a * d;
    assert (q * d) * b == (q * b) * d;
    MulCancel(q * d, c, b);
    FloorGalois(q, c, d);
  }
}
