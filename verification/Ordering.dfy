/** Strict orders on strings and tuples, and the stable sort of the language
    the program is written in. */
module Ordering {
  import opened Domain

  ghost predicate StrictOrder<T(!new)>(lt: (T, T) -> bool) {
    && (forall x :: !lt(x, x))
    && (forall x, y :: lt(x, y) || x == y || lt(y, x))
    && (forall x, y, z :: lt(x, y) && lt(y, z) ==> lt(x, z))
  }

  ghost predicate TotalPreorder<T(!new)>(le: (T, T) -> bool) {
    && (forall x, y :: le(x, y) || le(y, x))
    && (forall x, y, z :: le(x, y) && le(y, z) ==> le(x, z))
  }

  // ---------- lexicographic comparison ----------

  predicate LexLess<T(==)>(lt: (T, T) -> bool, a: seq<T>, b: seq<T>) {
    if b == [] then false
    else if a == [] then true
    else lt(a[0], b[0]) || (a[0] == b[0] && LexLess(lt, a[1..], b[1..]))
  }

  lemma {:induction false} LexTotal<T(!new)>(lt: (T, T) -> bool, a: seq<T>, b: seq<T>)
    requires StrictOrder(lt)
    ensures LexLess(lt, a, b) || a == b || LexLess(lt, b, a)
    ensures !(LexLess(lt, a, b) && LexLess(lt, b, a))
    ensures !LexLess(lt, a, a)
    decreases |a| + |b|
  {
    if a != [] {
      LexIrreflexive(lt, a);
      if b != [] && a[0] == b[0] {
        LexTotal(lt, a[1..], b[1..]);
        assert a == [a[0]] + a[1..] && b == [b[0]] + b[1..];
      }
      if b != [] && lt(a[0], b[0]) {
        assert !lt(b[0], a[0]);
      }
    }
  }

  lemma {:induction false} LexIrreflexive<T(!new)>(lt: (T, T) -> bool, a: seq<T>)
    requires StrictOrder(lt)
    ensures !LexLess(lt, a, a)
  {
    if a != [] {
      LexIrreflexive(lt, a[1..]);
    }
  }

  lemma {:induction false} LexTransitive<T(!new)>(lt: (T, T) -> bool, a: seq<T>, b: seq<T>, c: seq<T>)
    requires StrictOrder(lt) && LexLess(lt, a, b) && LexLess(lt, b, c)
    ensures LexLess(lt, a, c)
  {
    if a != [] && a[0] == b[0] && b[0] == c[0] {
      if !lt(a[0], b[0]) && !lt(b[0], c[0]) {
        LexTransitive(lt, a[1..], b[1..], c[1..]);
      }
    }
  }

  lemma LexStrict<T(!new)>(lt: (T, T) -> bool)
    requires StrictOrder(lt)
    ensures StrictOrder((a: seq<T>, b: seq<T>) => LexLess(lt, a, b))
  {
    var less := (a: seq<T>, b: seq<T>) => LexLess(lt, a, b);
    forall a: seq<T>, b: seq<T>
      ensures less(a, b) || a == b || less(b, a)
      ensures !less(a, a)
    {
      LexTotal(lt, a, b);
    }
    forall a: seq<T>, b: seq<T>, c: seq<T> | less(a, b) && less(b, c)
      ensures less(a, c)
    {
      LexTransitive(lt, a, b, c);
    }
  }

  /** The lists agree below `k`, where `a` ends or has the lesser element. */
  ghost predicate LessAt<T>(lt: (T, T) -> bool, a: seq<T>, b: seq<T>, k: int) {
    && 0 <= k <= |a| && k < |b|
    && (forall m :: 0 <= m < k ==> a[m] == b[m])
    && (k < |a| ==> lt(a[k], b[k]))
  }

  /** A list is less than another when it is a proper prefix of it, or has the lesser
      element at the first place where they differ. */
  lemma {:induction false} LexMeans<T>(lt: (T, T) -> bool, a: seq<T>, b: seq<T>)
    ensures LexLess(lt, a, b) <==> exists k :: LessAt(lt, a, b, k)
  {
    assert b != [] && (a == [] || lt(a[0], b[0])) ==> LessAt(lt, a, b, 0);
    if a != [] && b != [] && a[0] == b[0] {
      LexMeans(lt, a[1..], b[1..]);
      if k :| LessAt(lt, a[1..], b[1..], k) {
        LessAtTail(lt, a, b, k);
      }
      if k :| LessAt(lt, a, b, k) && k > 0 {
        LessAtTail(lt, a, b, k - 1);
      }
    }
  }

  lemma LessAtTail<T>(lt: (T, T) -> bool, a: seq<T>, b: seq<T>, k: nat)
    requires a != [] && b != [] && a[0] == b[0]
    ensures LessAt(lt, a[1..], b[1..], k) <==> LessAt(lt, a, b, k + 1)
  {
    if LessAt(lt, a, b, k + 1) {
      assert forall m :: 0 <= m < k ==> a[1..][m] == a[m + 1] && b[1..][m] == b[m + 1];
    }
  }

  predicate CharLess(c: char, d: char) {
    c < d
  }

  predicate StringLess(a: string, b: string) {
    LexLess(CharLess, a, b)
  }

  predicate StringLe(a: string, b: string) {
    !StringLess(b, a)
  }

  predicate StringsLess(a: seq<string>, b: seq<string>) {
    LexLess(StringLess, a, b)
  }

  /** Strings compare by the codes of their characters, and a prefix comes first. */
  ghost predicate CodesLess(a: string, b: string) {
    exists k ::
      && 0 <= k <= |a| && k < |b| && a[..k] == b[..k]
      && (k < |a| ==> (a[k] as int) < (b[k] as int))
  }

  lemma StringLessMeans(a: string, b: string)
    ensures StringLess(a, b) <==> CodesLess(a, b)
  {
    LexMeans(CharLess, a, b);
    if k :| LessAt(CharLess, a, b, k) {
      assert a[..k] == b[..k];
    }
    if k :| 0 <= k <= |a| && k < |b| && a[..k] == b[..k] && (k < |a| ==> (a[k] as int) < (b[k] as int)) {
      assert forall m :: 0 <= m < k ==> a[m] == a[..k][m] == b[..k][m] == b[m];
      assert LessAt(CharLess, a, b, k);
    }
  }

  lemma StringOrder()
    ensures StrictOrder(StringLess)
  {
    LexStrict(CharLess);
    var less := (a: string, b: string) => LexLess(CharLess, a, b);
    assert forall a: string, b: string :: StringLess(a, b) == less(a, b);
  }

  lemma StringIrreflexive(a: string)
    ensures !StringLess(a, a)
  {
    StringOrder();
  }

  lemma StringsOrder()
    ensures StrictOrder(StringsLess)
  {
    StringOrder();
    LexStrict(StringLess);
    var less := (a: seq<string>, b: seq<string>) => LexLess(StringLess, a, b);
    assert forall a: seq<string>, b: seq<string> :: StringsLess(a, b) == less(a, b);
  }

  // ---------- stable sorting ----------

  ghost predicate Ordered<T>(le: (T, T) -> bool, s: seq<T>) {
    forall i, j :: 0 <= i < j < |s| ==> le(s[i], s[j])
  }

  function Insert<T>(le: (T, T) -> bool, x: T, s: seq<T>): (r: seq<T>)
    ensures |r| == |s| + 1
  {
    if s == [] || le(x, s[0]) then [x] + s else [s[0]] + Insert(le, x, s[1..])
  }

  /** A stable sort: equal keys keep their input order. */
  function SortBy<T>(le: (T, T) -> bool, s: seq<T>): (r: seq<T>)
    ensures |r| == |s|
  {
    if s == [] then [] else Insert(le, s[0], SortBy(le, s[1..]))
  }

  lemma {:induction false} InsertMultiset<T>(le: (T, T) -> bool, x: T, s: seq<T>)
    ensures multiset(Insert(le, x, s)) == multiset(s) + multiset{x}
  {
    if s != [] && !le(x, s[0]) {
      assert s == [s[0]] + s[1..];
      InsertMultiset(le, x, s[1..]);
    }
  }

  /** Sorting rearranges and does nothing else. */
  lemma {:induction false} SortMultiset<T>(le: (T, T) -> bool, s: seq<T>)
    ensures multiset(SortBy(le, s)) == multiset(s)
  {
    if s != [] {
      assert s == [s[0]] + s[1..];
      SortMultiset(le, s[1..]);
      InsertMultiset(le, s[0], SortBy(le, s[1..]));
    }
  }

  lemma SameMembers<T>(le: (T, T) -> bool, s: seq<T>)
    ensures forall x :: x in SortBy(le, s) <==> x in s
  {
    SortMultiset(le, s);
    assert forall x :: x in SortBy(le, s) <==> x in multiset(SortBy(le, s));
    assert forall x :: x in s <==> x in multiset(s);
  }

  /** A list already in order is left alone. */
  lemma {:induction false} SortOfOrdered<T>(le: (T, T) -> bool, s: seq<T>)
    requires Ordered(le, s)
    ensures SortBy(le, s) == s
  {
    if s != [] {
      SortOfOrdered(le, s[1..]);
      assert |s| > 1 ==> le(s[0], s[1]);
    }
  }

  lemma {:induction false} InsertOrdered<T(!new)>(le: (T, T) -> bool, x: T, s: seq<T>)
    requires TotalPreorder(le) && Ordered(le, s)
    ensures Ordered(le, Insert(le, x, s))
  {
    if s == [] {
    } else if le(x, s[0]) {
      forall j | 0 <= j < |s| ensures le(x, s[j]) {
        assert j == 0 || le(s[0], s[j]);
      }
    } else {
      InsertOrdered(le, x, s[1..]);
      InsertMultiset(le, x, s[1..]);
      var rest := Insert(le, x, s[1..]);
      assert le(s[0], x);
      forall j | 0 <= j < |rest| ensures le(s[0], rest[j]) {
        assert rest[j] in multiset(rest);
        assert rest[j] == x || rest[j] in s[1..];
      }
    }
  }

  lemma {:induction false} SortOrdered<T(!new)>(le: (T, T) -> bool, s: seq<T>)
    requires TotalPreorder(le)
    ensures Ordered(le, SortBy(le, s))
  {
    if s != [] {
      SortOrdered(le, s[1..]);
      InsertOrdered(le, s[0], SortBy(le, s[1..]));
    }
  }

  /** The elements of `s` with the same key as `key`, in order. */
  function WithKey<T>(le: (T, T) -> bool, key: T, s: seq<T>): seq<T> {
    Filter(x => le(x, key) && le(key, x), s)
  }

  lemma {:induction false} InsertStable<T(!new)>(le: (T, T) -> bool, x: T, s: seq<T>, key: T)
    requires TotalPreorder(le)
    ensures WithKey(le, key, Insert(le, x, s))
            == (if le(x, key) && le(key, x) then [x] else []) + WithKey(le, key, s)
  {
    if s != [] && !le(x, s[0]) {
      InsertStable(le, x, s[1..], key);
    }
  }

  /** Elements with equal keys keep their input order. */
  lemma {:induction false} SortStable<T(!new)>(le: (T, T) -> bool, s: seq<T>, key: T)
    requires TotalPreorder(le)
    ensures WithKey(le, key, SortBy(le, s)) == WithKey(le, key, s)
  {
    if s != [] {
      SortStable(le, s[1..], key);
      InsertStable(le, s[0], SortBy(le, s[1..]), key);
    }
  }

  /** No two different elements have equal keys. */
  ghost predicate KeysUnique<T>(le: (T, T) -> bool, s: seq<T>) {
    forall i, j :: 0 <= i < |s| && 0 <= j < |s| && le(s[i], s[j]) && le(s[j], s[i]) ==> s[i] == s[j]
  }

  lemma LeastFirst<T>(le: (T, T) -> bool, a: seq<T>, b: seq<T>)
    requires Ordered(le, a) && Ordered(le, b) && multiset(a) == multiset(b) && a != [] && b != []
    requires KeysUnique(le, a)
    ensures a[0] == b[0]
  {
    assert b[0] in multiset(a) && a[0] in multiset(b);
    var i :| 0 <= i < |a| && a[i] == b[0];
    var j :| 0 <= j < |b| && b[j] == a[0];
    assert i == 0 || le(a[0], a[i]);
    assert j == 0 || le(b[0], b[j]);
  }

  lemma TailMultiset<T>(s: seq<T>)
    requires s != []
    ensures multiset(s[1..]) == multiset(s) - multiset{s[0]}
  {
    assert s == [s[0]] + s[1..];
  }

  lemma SameSize<T>(a: seq<T>, b: seq<T>)
    requires multiset(a) == multiset(b)
    ensures |a| == |b|
  {
    assert |multiset(a)| == |a| && |multiset(b)| == |b|;
  }

  /** Two ordered arrangements agree on their first element, and their tails are again
      ordered arrangements of the same elements. */
  lemma TailsMatch<T>(le: (T, T) -> bool, a: seq<T>, b: seq<T>)
    requires Ordered(le, a) && Ordered(le, b) && multiset(a) == multiset(b) && a != [] && b != []
    requires KeysUnique(le, a)
    ensures a[0] == b[0] && multiset(a[1..]) == multiset(b[1..])
    ensures Ordered(le, a[1..]) && Ordered(le, b[1..]) && KeysUnique(le, a[1..])
  {
    LeastFirst(le, a, b);
    TailMultiset(a);
    TailMultiset(b);
  }

  /** Two ordered arrangements of the same elements coincide when keys are unique. */
  lemma {:induction false} OrderedUnique<T(!new)>(le: (T, T) -> bool, a: seq<T>, b: seq<T>)
    requires Ordered(le, a) && Ordered(le, b) && multiset(a) == multiset(b)
    requires KeysUnique(le, a)
    ensures a == b
  {
    SameSize(a, b);
    if a != [] {
      TailsMatch(le, a, b);
      OrderedUnique(le, a[1..], b[1..]);
      assert a == [a[0]] + a[1..] && b == [b[0]] + b[1..];
    }
  }

  lemma SortKeepsKeysUnique<T(!new)>(le: (T, T) -> bool, a: seq<T>)
    requires KeysUnique(le, a)
    ensures KeysUnique(le, SortBy(le, a))
  {
    SortMultiset(le, a);
    var s := SortBy(le, a);
    forall i, j | 0 <= i < |s| && 0 <= j < |s| && le(s[i], s[j]) && le(s[j], s[i])
      ensures s[i] == s[j]
    {
      assert s[i] in multiset(a) && s[j] in multiset(a);
      var k :| 0 <= k < |a| && a[k] == s[i];
      var l :| 0 <= l < |a| && a[l] == s[j];
      assert le(a[k], a[l]) && le(a[l], a[k]);
    }
  }

  /** Sorting does not see the input order when keys are unique. */
  lemma SortPermutation<T(!new)>(le: (T, T) -> bool, a: seq<T>, b: seq<T>)
    requires TotalPreorder(le) && multiset(a) == multiset(b) && KeysUnique(le, a)
    ensures SortBy(le, a) == SortBy(le, b)
  {
    SortOrdered(le, a);
    SortOrdered(le, b);
    SortMultiset(le, a);
    SortMultiset(le, b);
    SortKeepsKeysUnique(le, a);
    OrderedUnique(le, SortBy(le, a), SortBy(le, b));
  }

  lemma {:induction false} InsertBefore<T>(le: (T, T) -> bool, x: T, a: seq<T>, b: seq<T>)
    requires forall y :: y in b ==> le(x, y)
    ensures Insert(le, x, a + b) == Insert(le, x, a) + b
  {
    if a == [] {
      assert a + b == b;
      assert b != [] ==> b[0] in b;
    } else {
      assert (a + b)[0] == a[0] && (a + b)[1..] == a[1..] + b;
      if !le(x, a[0]) {
        InsertBefore(le, x, a[1..], b);
      }
    }
  }

  ghost predicate AllBefore<T>(le: (T, T) -> bool, a: seq<T>, b: seq<T>) {
    forall i, j :: 0 <= i < |a| && 0 <= j < |b| ==> le(a[i], b[j])
  }

  /** Elements that come after everything else are sorted on their own. */
  lemma {:induction false} SortAppend<T>(le: (T, T) -> bool, a: seq<T>, b: seq<T>)
    requires AllBefore(le, a, b)
    ensures SortBy(le, a + b) == SortBy(le, a) + SortBy(le, b)
  {
    if a == [] {
      assert a + b == b;
      assert SortBy(le, a) + SortBy(le, b) == SortBy(le, b);
    } else {
      assert (a + b)[0] == a[0] && (a + b)[1..] == a[1..] + b;
      SortAppend(le, a[1..], b);
      var sorted := SortBy(le, b);
      forall y | y in sorted ensures le(a[0], y) {
        SortMultiset(le, b);
        assert y in multiset(sorted);
        assert y in b;
        var j :| 0 <= j < |b| && b[j] == y;
      }
      InsertBefore(le, a[0], SortBy(le, a[1..]), sorted);
    }
  }

  lemma StringsSort(xs: seq<string>)
    ensures Ordered(StringLe, SortBy(StringLe, xs))
  {
    StringOrder();
    SortOrdered(StringLe, xs);
  }

  /** The least-first arrangement of the distinct values of `xs`. */
  function SortDistinct(xs: seq<string>): seq<string>
  {
    SortBy(StringLe, Dedup(xs))
  }

  /** It lists exactly the values of `xs`, in strictly increasing order. */
  lemma SortDistinctIsTheSet(xs: seq<string>)
    ensures forall x :: x in SortDistinct(xs) <==> x in xs
    ensures forall i, j :: 0 <= i < j < |SortDistinct(xs)| ==> StringLess(SortDistinct(xs)[i], SortDistinct(xs)[j])
  {
    var distinct := Dedup(xs);
    SameMembers(StringLe, distinct);
    SortMultiset(StringLe, distinct);
    DistinctMultiset(distinct, SortDistinct(xs));
    StringsSort(distinct);
    StringOrder();
  }

  /** Rearranging a duplicate-free list leaves it duplicate-free. */
  lemma DistinctMultiset<T>(a: seq<T>, b: seq<T>)
    requires Distinct(a) && multiset(a) == multiset(b)
    ensures Distinct(b)
  {
    forall x ensures multiset(a)[x] <= 1 {
      DistinctCount(a, x);
    }
    forall i, j | 0 <= i < j < |b| ensures b[i] != b[j] {
      assert b == b[..i] + [b[i]] + b[i + 1..j] + [b[j]] + b[j + 1..];
      assert b[i] == b[j] ==> multiset(b)[b[i]] >= 2;
    }
  }

  lemma {:induction false} DistinctCount<T>(a: seq<T>, x: T)
    requires Distinct(a)
    ensures multiset(a)[x] <= 1
  {
    if a != [] {
      assert a == [a[0]] + a[1..];
      DistinctCount(a[1..], x);
      if a[0] == x {
        assert x !in a[1..];
        assert x !in multiset(a[1..]);
      }
    }
  }
}
