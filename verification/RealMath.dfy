/** Exact real arithmetic and the sequence operations every engine uses: powers, sums, selections and stable sorts. */
module RealMath {

  /** x to the power n; numpy's `**` with a non-negative integer exponent. */
  function Pow(x: real, n: nat): real {
    if n == 0 then 1.0 else x * Pow(x, n - 1)
  }

  lemma PowZero(x: real)
    ensures Pow(x, 0) == 1.0
  {}

  lemma PowStep(x: real, k: nat)
    ensures Pow(x, k + 1) == x * Pow(x, k)
  {}

  lemma {:induction false} PowGrows(x: real, m: nat, n: nat)
    requires x >= 1.0 && m <= n
    ensures 1.0 <= Pow(x, m) <= Pow(x, n)
    ensures x > 1.0 && m < n ==> Pow(x, m) < Pow(x, n)
  {
    if n != 0 {
      if m == n {
        PowGrows(x, m - 1, n - 1);
        Scale(1.0, x, Pow(x, n - 1));
      } else {
        PowGrows(x, m, n - 1);
        Scale(1.0, x, Pow(x, n - 1));
      }
    }
  }

  lemma Scale(a: real, b: real, c: real)
    requires a <= b && c >= 0.0
    ensures a * c <= b * c
    ensures a < b && c > 0.0 ==> a * c < b * c
  {}

  lemma ScaleLeft(k: real, y: real, x: real)
    requires k >= 0.0 && y <= x
    ensures k * y <= k * x && (k > 0.0 && y < x ==> k * y < k * x)
  {
    Scale(y, x, k);
  }

  lemma Cancel(t: real, x: real, y: real)
    requires t != 0.0 && t * x == t * y
    ensures x == y
  {
    assert t * (x - y) == 0.0;
  }

  /** x / t. */
  function Ratio(x: real, t: real): real
    requires t != 0.0
  {
    x / t
  }

  lemma RatioSpec(x: real, t: real)
    requires t != 0.0
    ensures t * Ratio(x, t) == x
    ensures x >= 0.0 && t > 0.0 ==> Ratio(x, t) >= 0.0
  {}

  lemma RatioUnit(x: real, t: real)
    requires 0.0 <= x <= t && t > 0.0
    ensures 0.0 <= Ratio(x, t) <= 1.0
  {}

  /** a * b. */
  function Prod(a: real, b: real): real { a * b }

  lemma UnitShrinks(a: real, b: real)
    requires a >= 0.0 && 0.0 <= b <= 1.0
    ensures a * b <= a
  {}

  lemma NonNegativeProduct(a: real, b: real)
    requires a >= 0.0 && b >= 0.0
    ensures a * b >= 0.0
  {}

  lemma ProdUnit(a: real, b: real)
    requires a >= 0.0 && 0.0 <= b <= 1.0
    ensures 0.0 <= Prod(a, b) <= a && Prod(b, a) == Prod(a, b)
  {
    UnitShrinks(a, b);
    NonNegativeProduct(a, b);
  }

  lemma ProdGrows(a: real, b: real, c: real, d: real)
    requires 0.0 <= a <= b && 0.0 <= c <= d
    ensures 0.0 <= Prod(a, c) <= Prod(b, d)
  {
    NonNegativeProduct(a, c);
    Scale(a, b, c);
    ScaleLeft(b, c, d);
  }

  lemma ProdZero(a: real)
    ensures Prod(a, 0.0) == 0.0 == Prod(0.0, a) && Prod(a, 1.0) == a == Prod(1.0, a)
  {}

  function Max(a: real, b: real): (m: real)
    ensures m >= a && m >= b && (m == a || m == b)
  {
    if a >= b then a else b
  }

  /** The sum of f over s. */
  function Sum<T>(s: seq<T>, f: T -> real): real {
    if s == [] then 0.0 else f(s[0]) + Sum(s[1..], f)
  }

  lemma {:induction false} SumAppend<T>(s: seq<T>, t: seq<T>, f: T -> real)
    ensures Sum(s + t, f) == Sum(s, f) + Sum(t, f)
  {
    if s == [] {
      assert s + t == t;
    } else {
      assert (s + t)[1..] == s[1..] + t;
      SumAppend(s[1..], t, f);
    }
  }

  lemma {:induction false} SumEqual<T>(s: seq<T>, f: T -> real, g: T -> real)
    requires forall x :: x in s ==> f(x) == g(x)
    ensures Sum(s, f) == Sum(s, g)
  {
    if s != [] {
      SumEqual(s[1..], f, g);
    }
  }

  lemma {:induction false} SumAtMost<T>(s: seq<T>, f: T -> real, g: T -> real)
    requires forall x :: x in s ==> f(x) <= g(x)
    ensures Sum(s, f) <= Sum(s, g)
  {
    if s != [] {
      SumAtMost(s[1..], f, g);
    }
  }

  lemma {:induction false} SumZero<T>(s: seq<T>, f: T -> real)
    requires forall x :: x in s ==> f(x) == 0.0
    ensures Sum(s, f) == 0.0
  {
    if s != [] {
      SumZero(s[1..], f);
    }
  }

  lemma {:induction false} SumNonNegative<T>(s: seq<T>, f: T -> real)
    requires forall x :: x in s ==> f(x) >= 0.0
    ensures Sum(s, f) >= 0.0
  {
    if s != [] {
      SumNonNegative(s[1..], f);
    }
  }

  lemma SumRemove<T>(s: seq<T>, k: nat, f: T -> real)
    requires k < |s|
    ensures Sum(s, f) == f(s[k]) + Sum(s[..k] + s[k + 1..], f)
  {
    hide Sum;
    assert s == s[..k] + ([s[k]] + s[k + 1..]);
    SumAppend(s[..k], [s[k]] + s[k + 1..], f);
    SumCons(s[k], s[k + 1..], f);
    SumAppend(s[..k], s[k + 1..], f);
  }

  lemma SumCons<T>(x: T, s: seq<T>, f: T -> real)
    ensures Sum([x] + s, f) == f(x) + Sum(s, f)
  {
    assert ([x] + s)[1..] == s;
  }

  lemma SumLast<T>(s: seq<T>, x: T, f: T -> real)
    ensures Sum(s + [x], f) == Sum(s, f) + f(x)
  {
    SumAppend(s, [x], f);
    assert Sum([x], f) == f(x) + Sum([x][1..], f);
  }

  lemma RemoveAt<T>(s: seq<T>, k: nat)
    requires k < |s|
    ensures multiset(s[..k] + s[k + 1..]) == multiset(s) - multiset{s[k]}
  {
    assert s == s[..k] + [s[k]] + s[k + 1..];
  }

  /** A sum does not depend on the order of its terms. */
  lemma {:induction false} SumPermutation<T>(s: seq<T>, t: seq<T>, f: T -> real)
    requires multiset(s) == multiset(t)
    ensures Sum(s, f) == Sum(t, f)
    decreases |s|
  {
    hide Sum;
    if s == [] {
      assert |t| == |multiset(t)| == 0;
      assert s == t;
    } else {
      var k := IndexOf(s[0], s, t);
      RemoveAt(s, 0);
      RemoveAt(t, k);
      SumRemove(s, 0, f);
      SumRemove(t, k, f);
      SumPermutation(s[..0] + s[0 + 1..], t[..k] + t[k + 1..], f);
    }
  }

  lemma IndexOf<T>(x: T, s: seq<T>, t: seq<T>) returns (k: nat)
    requires multiset(s) == multiset(t) && x in s
    ensures k < |t| && t[k] == x
  {
    assert x in multiset(t);
    k :| 0 <= k < |t| && t[k] == x;
  }

  /** The concatenation of f over s. */
  function Flatten<T, U>(s: seq<T>, f: T -> seq<U>): seq<U> {
    if s == [] then [] else f(s[0]) + Flatten(s[1..], f)
  }

  lemma {:induction false} FlattenSnoc<T, U>(s: seq<T>, k: nat, f: T -> seq<U>)
    requires k < |s|
    ensures Flatten(s[..k + 1], f) == Flatten(s[..k], f) + f(s[k])
  {
    if k == 0 {
      assert Flatten(s[..1][1..], f) == [];
    } else {
      assert s[..k + 1][1..] == s[1..][..k] && s[..k][1..] == s[1..][..k - 1];
      FlattenSnoc(s[1..], k - 1, f);
    }
  }

  /** The elements of s that satisfy p, in order: a boolean-mask selection. */
  function Filter<T>(s: seq<T>, p: T -> bool): seq<T> {
    if s == [] then [] else (if p(s[0]) then [s[0]] else []) + Filter(s[1..], p)
  }

  lemma {:induction false} FilterMembers<T>(s: seq<T>, p: T -> bool)
    ensures forall x :: x in Filter(s, p) <==> x in s && p(x)
  {
    if s != [] {
      FilterMembers(s[1..], p);
      assert s == [s[0]] + s[1..];
    }
  }

  lemma {:induction false} FilterAppend<T>(s: seq<T>, t: seq<T>, p: T -> bool)
    ensures Filter(s + t, p) == Filter(s, p) + Filter(t, p)
  {
    if s == [] {
      assert s + t == t;
    } else {
      var head := if p(s[0]) then [s[0]] else [];
      assert (s + t)[0] == s[0] && (s + t)[1..] == s[1..] + t;
      FilterAppend(s[1..], t, p);
      assert head + (Filter(s[1..], p) + Filter(t, p)) == (head + Filter(s[1..], p)) + Filter(t, p);
    }
  }

  lemma {:induction false} FilterAll<T>(s: seq<T>, p: T -> bool)
    requires forall x :: x in s ==> p(x)
    ensures Filter(s, p) == s
  {
    if s != [] {
      FilterAll(s[1..], p);
    }
  }

  lemma {:induction false} FilterNone<T>(s: seq<T>, p: T -> bool)
    requires forall x :: x in s ==> !p(x)
    ensures Filter(s, p) == []
  {
    if s != [] {
      FilterNone(s[1..], p);
    }
  }

  /** Selecting from a concatenation selects from each piece. */
  lemma {:induction false} FilterFlatten<T, U>(s: seq<T>, f: T -> seq<U>, p: U -> bool, g: T -> seq<U>)
    requires forall x :: x in s ==> Filter(f(x), p) == g(x)
    ensures Filter(Flatten(s, f), p) == Flatten(s, g)
  {
    if s != [] {
      FilterAppend(f(s[0]), Flatten(s[1..], f), p);
      FilterFlatten(s[1..], f, p, g);
    }
  }

  /** Selecting twice is selecting by both conditions. */
  lemma {:induction false} FilterTwice<T>(s: seq<T>, p: T -> bool, q: T -> bool, r: T -> bool)
    requires forall x :: x in s ==> (r(x) <==> p(x) && q(x))
    ensures Filter(Filter(s, p), q) == Filter(s, r)
  {
    if s != [] {
      FilterTwice(s[1..], p, q, r);
      FilterAppend(if p(s[0]) then [s[0]] else [], Filter(s[1..], p), q);
    }
  }

  lemma {:induction false} FlattenNone<T, U>(s: seq<T>, f: T -> seq<U>)
    requires forall x :: x in s ==> f(x) == []
    ensures Flatten(s, f) == []
  {
    if s != [] {
      FlattenNone(s[1..], f);
    }
  }

  lemma {:induction false} FlattenOne<T, U>(s: seq<T>, f: T -> seq<U>, k: nat)
    requires k < |s| && forall i :: 0 <= i < |s| && i != k ==> f(s[i]) == []
    ensures Flatten(s, f) == f(s[k])
  {
    if k == 0 {
      FlattenNone(s[1..], f);
    } else {
      FlattenOne(s[1..], f, k - 1);
    }
  }

  lemma FilterOne<T>(s: seq<T>, p: T -> bool, k: nat)
    requires k < |s| && forall i :: 0 <= i < |s| ==> (p(s[i]) <==> i == k)
    ensures Filter(s, p) == [s[k]]
  {
    var before, after := s[..k], s[k + 1..];
    assert s == before + ([s[k]] + after);
    FilterNone(before, p);
    FilterNone(after, p);
    FilterAppend(before, [s[k]] + after, p);
    FilterAppend([s[k]], after, p);
    assert Filter([s[k]], p) == [s[k]];
  }

  lemma SumSelected<T>(s: seq<T>, p: T -> bool, f: T -> real)
    requires s != []
    ensures Sum(Filter(s, p), f) == (if p(s[0]) then f(s[0]) else 0.0) + Sum(Filter(s[1..], p), f)
  {
    if p(s[0]) {
      SumCons(s[0], Filter(s[1..], p), f);
    } else {
      assert Filter(s, p) == Filter(s[1..], p);
    }
  }

  /** Summing a selection is summing with the other terms zeroed. */
  lemma {:induction false} SumFilter<T>(s: seq<T>, p: T -> bool, f: T -> real, g: T -> real)
    requires forall x :: x in s ==> g(x) == if p(x) then f(x) else 0.0
    ensures Sum(Filter(s, p), f) == Sum(s, g)
  {
    if s != [] {
      SumFilter(s[1..], p, f, g);
      SumSelected(s, p, f);
    }
  }

  /** A selection split into two disjoint ones sums to their sums. */
  lemma {:induction false} SumSplit<T>(s: seq<T>, p: T -> bool, q: T -> bool, r: T -> bool, f: T -> real)
    requires forall x :: x in s ==> (r(x) <==> p(x) || q(x)) && !(p(x) && q(x))
    ensures Sum(Filter(s, r), f) == Sum(Filter(s, p), f) + Sum(Filter(s, q), f)
  {
    if s != [] {
      SumSplit(s[1..], p, q, r, f);
      SumSelected(s, p, f);
      SumSelected(s, q, f);
      SumSelected(s, r, f);
    }
  }

  lemma FilterSnoc<T>(s: seq<T>, x: T, p: T -> bool)
    ensures Filter(s + [x], p) == if p(x) then Filter(s, p) + [x] else Filter(s, p)
  {
    FilterAppend(s, [x], p);
    assert Filter([x], p) == (if p(x) then [x] else []) + Filter([x][1..], p);
  }

  /** A selection keeps every occurrence of what it selects. */
  lemma {:induction false} FilterCounts<T>(s: seq<T>, p: T -> bool)
    ensures forall x :: multiset(Filter(s, p))[x] == if p(x) then multiset(s)[x] else 0
  {
    if s != [] {
      FilterCounts(s[1..], p);
      assert s == [s[0]] + s[1..];
    }
  }

  lemma FrontOf<T>(a: seq<T>)
    requires a != []
    ensures multiset(a[..|a| - 1]) == multiset(a) - multiset{a[|a| - 1]}
  {
    assert a == a[..|a| - 1] + [a[|a| - 1]];
  }

  lemma SameFront<T>(a: seq<T>, b: seq<T>)
    requires multiset(a) == multiset(b) && a != [] && b != [] && a[|a| - 1] == b[|b| - 1]
    ensures multiset(a[..|a| - 1]) == multiset(b[..|b| - 1])
  {
    FrontOf(a);
    FrontOf(b);
  }

  /** What occurs twice in a sequence, or beside its first element, occurs after it. */
  lemma OccursLater<T>(s: seq<T>, x: T, y: T)
    requires multiset{x, y} <= multiset(s)
    ensures exists i :: 1 <= i < |s| && (s[i] == x || s[i] == y)
  {
    assert x in multiset{x, y};
    assert x in multiset(s);
    assert s == [s[0]] + s[1..];
    var z := if s[0] == x then y else x;
    assert multiset(s)[z] >= multiset{x, y}[z];
    assert z in multiset(s[1..]);
    var i :| 0 <= i < |s[1..]| && s[1..][i] == z;
    assert s[i + 1] == z;
  }

  lemma FlattenCons<T, U>(s: seq<T>, f: T -> seq<U>)
    requires s != []
    ensures Flatten(s, f) == f(s[0]) + Flatten(s[1..], f)
  {}

  lemma {:induction false} FlattenHolds<T, U>(s: seq<T>, f: T -> seq<U>, k: nat)
    requires k < |s|
    ensures multiset(f(s[k])) <= multiset(Flatten(s, f))
  {
    if k > 0 {
      FlattenHolds(s[1..], f, k - 1);
    }
  }

  /** A concatenation holds two of its pieces beside each other. */
  lemma {:induction false} FlattenTwo<T, U>(s: seq<T>, f: T -> seq<U>, a: nat, b: nat)
    requires a < b < |s|
    ensures multiset(f(s[a])) + multiset(f(s[b])) <= multiset(Flatten(s, f))
  {
    if a == 0 {
      FlattenHolds(s[1..], f, b - 1);
    } else {
      FlattenTwo(s[1..], f, a - 1, b - 1);
    }
  }

  // ----- Stable sorting: sort_values(..., kind="mergesort") -----

  function InsertBy<T>(sorted: seq<T>, x: T, leq: (T, T) -> bool): seq<T> {
    if sorted == [] || leq(sorted[|sorted| - 1], x) then sorted + [x]
    else InsertBy(sorted[..|sorted| - 1], x, leq) + [sorted[|sorted| - 1]]
  }

  function SortBy<T>(s: seq<T>, leq: (T, T) -> bool): seq<T> {
    if s == [] then [] else InsertBy(SortBy(s[..|s| - 1], leq), s[|s| - 1], leq)
  }

  predicate AscendsBy<T>(s: seq<T>, leq: (T, T) -> bool) {
    forall i, j :: 0 <= i < j < |s| ==> leq(s[i], s[j])
  }

  ghost predicate TotalOrder<T(!new)>(leq: (T, T) -> bool) {
    && (forall x, y :: leq(x, y) || leq(y, x))
    && (forall x, y, z :: leq(x, y) && leq(y, z) ==> leq(x, z))
  }

  lemma {:induction false} InsertByHolds<T>(sorted: seq<T>, x: T, leq: (T, T) -> bool)
    ensures multiset(InsertBy(sorted, x, leq)) == multiset(sorted) + multiset{x}
  {
    if sorted != [] && !leq(sorted[|sorted| - 1], x) {
      InsertByHolds(sorted[..|sorted| - 1], x, leq);
      assert sorted == sorted[..|sorted| - 1] + [sorted[|sorted| - 1]];
    }
  }

  lemma {:induction false} SortByHolds<T>(s: seq<T>, leq: (T, T) -> bool)
    ensures multiset(SortBy(s, leq)) == multiset(s)
    ensures |SortBy(s, leq)| == |s|
  {
    if s != [] {
      SortByHolds(s[..|s| - 1], leq);
      InsertByHolds(SortBy(s[..|s| - 1], leq), s[|s| - 1], leq);
      assert s == s[..|s| - 1] + [s[|s| - 1]];
      assert |SortBy(s, leq)| == |multiset(SortBy(s, leq))| == |multiset(s)| == |s|;
    }
  }

  lemma {:induction false} InsertByAscends<T(!new)>(sorted: seq<T>, x: T, leq: (T, T) -> bool)
    requires TotalOrder(leq) && AscendsBy(sorted, leq)
    ensures AscendsBy(InsertBy(sorted, x, leq), leq)
  {
    if sorted == [] {
    } else if leq(sorted[|sorted| - 1], x) {
      forall i | 0 <= i < |sorted| ensures leq(sorted[i], x) {
        assert i == |sorted| - 1 || leq(sorted[i], sorted[|sorted| - 1]);
      }
    } else {
      var front, last := sorted[..|sorted| - 1], sorted[|sorted| - 1];
      InsertByAscends(front, x, leq);
      InsertByHolds(front, x, leq);
      var inserted := InsertBy(front, x, leq);
      forall i | 0 <= i < |inserted| ensures leq(inserted[i], last) {
        assert inserted[i] in multiset(inserted);
      }
    }
  }

  lemma {:induction false} SortByAscends<T(!new)>(s: seq<T>, leq: (T, T) -> bool)
    requires TotalOrder(leq)
    ensures AscendsBy(SortBy(s, leq), leq)
  {
    hide AscendsBy, TotalOrder, InsertBy;
    if s == [] {
      AscendsNothing(leq);
    } else {
      SortByAscends(s[..|s| - 1], leq);
      InsertByAscends(SortBy(s[..|s| - 1], leq), s[|s| - 1], leq);
    }
  }

  lemma AscendsNothing<T>(leq: (T, T) -> bool)
    ensures AscendsBy([], leq)
  {}

  lemma {:induction false} InsertByStable<T(!new)>(sorted: seq<T>, x: T, leq: (T, T) -> bool, p: T -> bool)
    requires forall y, z :: p(y) && p(z) ==> leq(y, z)
    ensures Filter(InsertBy(sorted, x, leq), p) == Filter(sorted + [x], p)
  {
    hide Filter;
    if sorted != [] && !leq(sorted[|sorted| - 1], x) {
      var front, last := sorted[..|sorted| - 1], sorted[|sorted| - 1];
      assert sorted == front + [last];
      InsertByStable(front, x, leq, p);
      FilterSnoc(InsertBy(front, x, leq), last, p);
      FilterSnoc(front, x, p);
      FilterSnoc(front, last, p);
      FilterSnoc(sorted, x, p);
    }
  }

  /** The sort is stable: elements that compare equal both ways keep their order. */
  lemma {:induction false} SortByStable<T(!new)>(s: seq<T>, leq: (T, T) -> bool, p: T -> bool)
    requires forall y, z :: p(y) && p(z) ==> leq(y, z)
    ensures Filter(SortBy(s, leq), p) == Filter(s, p)
  {
    hide Filter, InsertBy;
    if s != [] {
      var front, last := s[..|s| - 1], s[|s| - 1];
      assert s == front + [last];
      SortByStable(front, leq, p);
      InsertByStable(SortBy(front, leq), last, leq, p);
      FilterSnoc(SortBy(front, leq), last, p);
      FilterSnoc(front, last, p);
    }
  }

  /** s and t stand in the relation position by position. */
  predicate Pairwise<T>(s: seq<T>, t: seq<T>, rel: (T, T) -> bool) {
    |s| == |t| && forall i :: 0 <= i < |s| ==> rel(s[i], t[i])
  }

  /** Related elements compare alike. */
  ghost predicate Respects<T(!new)>(rel: (T, T) -> bool, leq: (T, T) -> bool) {
    forall a, b, c, d :: rel(a, c) && rel(b, d) ==> leq(a, b) == leq(c, d)
  }

  lemma {:induction false} InsertByPairs<T(!new)>(s: seq<T>, t: seq<T>, x: T, y: T, leq: (T, T) -> bool, rel: (T, T) -> bool)
    requires Pairwise(s, t, rel) && rel(x, y) && Respects(rel, leq)
    ensures Pairwise(InsertBy(s, x, leq), InsertBy(t, y, leq), rel)
  {
    if s != [] && !leq(s[|s| - 1], x) {
      InsertByPairs(s[..|s| - 1], t[..|t| - 1], x, y, leq, rel);
    }
  }

  /** Sorting keeps sequences related position by position. */
  lemma {:induction false} SortByPairs<T(!new)>(s: seq<T>, t: seq<T>, leq: (T, T) -> bool, rel: (T, T) -> bool)
    requires Pairwise(s, t, rel) && Respects(rel, leq)
    ensures Pairwise(SortBy(s, leq), SortBy(t, leq), rel)
  {
    hide InsertBy, Respects;
    if s != [] {
      SortByPairs(s[..|s| - 1], t[..|t| - 1], leq, rel);
      InsertByPairs(SortBy(s[..|s| - 1], leq), SortBy(t[..|t| - 1], leq), s[|s| - 1], t[|t| - 1], leq, rel);
    }
  }
}
