/** Filtering, summing and stable sorting of lists. */
module Lists {
  import opened Options

  function Filter<T>(p: T -> bool, xs: seq<T>): seq<T> {
    if xs == [] then []
    else Filter(p, xs[..|xs| - 1]) + if p(xs[|xs| - 1]) then [xs[|xs| - 1]] else []
  }

  lemma {:induction false} FilterMember<T>(p: T -> bool, xs: seq<T>, x: T)
    ensures x in Filter(p, xs) <==> x in xs && p(x)
  {
    if xs != [] {
      FilterMember(p, xs[..|xs| - 1], x);
      assert xs == xs[..|xs| - 1] + [xs[|xs| - 1]];
    }
  }

  lemma {:induction false} FilterWhole<T>(p: T -> bool, xs: seq<T>)
    requires forall x :: x in xs ==> p(x)
    ensures Filter(p, xs) == xs
  {
    if xs != [] {
      var n := |xs| - 1;
      assert xs == xs[..n] + [xs[n]];
      FilterWhole(p, xs[..n]);
    }
  }

  lemma {:induction false} FilterConcat<T>(p: T -> bool, a: seq<T>, b: seq<T>)
    ensures Filter(p, a + b) == Filter(p, a) + Filter(p, b)
  {
    if b == [] {
      assert a + b == a;
    } else {
      var n := |b| - 1;
      FilterConcat(p, a, b[..n]);
      assert (a + b)[..|a + b| - 1] == a + b[..n];
    }
  }

  /** The last position whose element satisfies `p`. */
  function LastWhere<T>(p: T -> bool, xs: seq<T>): (k: Option<nat>)
    ensures k.Some? ==> k.value < |xs| && p(xs[k.value])
    ensures k.None? ==> forall i :: 0 <= i < |xs| ==> !p(xs[i])
  {
    if xs == [] then None else if p(xs[|xs| - 1]) then Some(|xs| - 1)
    else
      var init := xs[..|xs| - 1];
      assert forall i :: 0 <= i < |init| ==> xs[i] == init[i];
      LastWhere(p, init)
  }

  lemma {:induction false} FilterDistinct<T, K(!new)>(key: T -> K, p: T -> bool, xs: seq<T>)
    requires Distinct(key, xs)
    ensures Distinct(key, Filter(p, xs))
  {
    if xs != [] {
      var n := |xs| - 1;
      FilterDistinct(key, p, xs[..n]);
      var rest := Filter(p, xs[..n]);
      forall i | 0 <= i < |rest| ensures key(rest[i]) != key(xs[n]) {
        FilterMember(p, xs[..n], rest[i]);
        var j :| 0 <= j < n && xs[..n][j] == rest[i];
        assert xs[j] == rest[i];
      }
    }
  }

  ghost function Sum<T>(f: T -> nat, xs: seq<T>): nat {
    if xs == [] then 0 else Sum(f, xs[..|xs| - 1]) + f(xs[|xs| - 1])
  }

  lemma {:induction false} SumConcat<T>(f: T -> nat, xs: seq<T>, ys: seq<T>)
    ensures Sum(f, xs + ys) == Sum(f, xs) + Sum(f, ys)
  {
    if ys == [] {
      assert xs + ys == xs;
    } else {
      SumConcat(f, xs, ys[..|ys| - 1]);
      assert (xs + ys)[..|xs + ys| - 1] == xs + ys[..|ys| - 1];
    }
  }

  lemma {:induction false} SumSame<T>(f: T -> nat, g: T -> nat, xs: seq<T>)
    requires forall x :: x in xs ==> f(x) == g(x)
    ensures Sum(f, xs) == Sum(g, xs)
  {
    if xs != [] {
      assert xs == xs[..|xs| - 1] + [xs[|xs| - 1]];
      SumSame(f, g, xs[..|xs| - 1]);
    }
  }

  ghost function Masked<T>(f: T -> nat, p: T -> bool): T -> nat { x => if p(x) then f(x) else 0 }

  lemma {:induction false} SumFilter<T>(f: T -> nat, p: T -> bool, xs: seq<T>)
    ensures Sum(f, Filter(p, xs)) == Sum(Masked(f, p), xs)
  {
    if xs != [] {
      var n := |xs| - 1;
      SumFilter(f, p, xs[..n]);
      var last := if p(xs[n]) then [xs[n]] else [];
      SumConcat(f, Filter(p, xs[..n]), last);
      assert Sum(f, last) == if p(xs[n]) then f(xs[n]) else 0 by { assert p(xs[n]) ==> last[..0] == []; }
    }
  }

  lemma {:induction false} SumZero<T>(f: T -> nat, xs: seq<T>)
    requires forall x :: x in xs ==> f(x) == 0
    ensures Sum(f, xs) == 0
  {
    if xs != [] {
      assert xs == xs[..|xs| - 1] + [xs[|xs| - 1]];
      SumZero(f, xs[..|xs| - 1]);
    }
  }

  ghost predicate Distinct<T, K(!new)>(key: T -> K, xs: seq<T>) {
    forall i, j :: 0 <= i < j < |xs| ==> key(xs[i]) != key(xs[j])
  }

  lemma DistinctSame<T, K(!new)>(key: T -> K, xs: seq<T>, x: T, y: T)
    requires Distinct(key, xs) && x in xs && y in xs && key(x) == key(y)
    ensures x == y
  {
    var i :| 0 <= i < |xs| && xs[i] == x;
    var j :| 0 <= j < |xs| && xs[j] == y;
  }

  /** The sum is that of its only non-zero element. */
  lemma {:induction false} SumSingle<T>(f: T -> nat, xs: seq<T>, k: nat)
    requires k < |xs| && forall i :: 0 <= i < |xs| && i != k ==> f(xs[i]) == 0
    ensures Sum(f, xs) == f(xs[k])
  {
    var n := |xs| - 1;
    if k == n {
      forall x | x in xs[..n] ensures f(x) == 0 { }
      SumZero(f, xs[..n]);
    } else {
      SumSingle(f, xs[..n], k);
    }
  }

  /** Among the elements satisfying `p`, only `x` counts. */
  lemma SumUnique<T, K(!new)>(f: T -> nat, p: T -> bool, key: T -> K, xs: seq<T>, x: T)
    requires Distinct(key, xs) && x in xs && p(x)
    requires forall y :: y in xs && p(y) && key(y) != key(x) ==> f(y) == 0
    ensures Sum(f, Filter(p, xs)) == f(x)
  {
    SumFilter(f, p, xs);
    var k :| 0 <= k < |xs| && xs[k] == x;
    forall i | 0 <= i < |xs| && i != k ensures Masked(f, p)(xs[i]) == 0 {
      assert i < k ==> key(xs[i]) != key(xs[k]);
      assert k < i ==> key(xs[k]) != key(xs[i]);
    }
    SumSingle(Masked(f, p), xs, k);
  }

  lemma SumNone<T>(f: T -> nat, p: T -> bool, xs: seq<T>)
    requires forall y :: y in xs && p(y) ==> f(y) == 0
    ensures Sum(f, Filter(p, xs)) == 0
  {
    SumFilter(f, p, xs);
    SumZero(Masked(f, p), xs);
  }

  /** Sums over disjoint parts add up. */
  lemma SumSplit<T>(f: T -> nat, p: T -> bool, q: T -> bool, r: T -> bool, xs: seq<T>)
    requires forall x :: r(x) <==> p(x) || q(x)
    requires forall x :: !(p(x) && q(x))
    ensures Sum(f, Filter(r, xs)) == Sum(f, Filter(p, xs)) + Sum(f, Filter(q, xs))
  {
    SumFilter(f, p, xs);
    SumFilter(f, q, xs);
    SumFilter(f, r, xs);
    SumAdd(Masked(f, p), Masked(f, q), Masked(f, r), xs);
  }

  lemma {:induction false} SumAdd<T>(f: T -> nat, g: T -> nat, h: T -> nat, xs: seq<T>)
    requires forall x :: h(x) == f(x) + g(x)
    ensures Sum(h, xs) == Sum(f, xs) + Sum(g, xs)
  {
    if xs != [] { SumAdd(f, g, h, xs[..|xs| - 1]); }
  }

  // ---------------------------------------------------------------- sorting

  /** Lexicographic order of strings, as Python compares them. */
  predicate StringLeq(a: string, b: string) {
    a == "" || (b != "" && (a[0] < b[0] || (a[0] == b[0] && StringLeq(a[1..], b[1..]))))
  }

  /** Puts `x` after every element whose key is not greater. */
  function Insert<T>(key: T -> string, xs: seq<T>, x: T): seq<T> {
    if xs == [] || StringLeq(key(xs[|xs| - 1]), key(x)) then xs + [x]
    else Insert(key, xs[..|xs| - 1], x) + [xs[|xs| - 1]]
  }

  /** `sorted(xs, key=key)`: stable. */
  function SortBy<T>(key: T -> string, xs: seq<T>): seq<T> {
    if xs == [] then [] else Insert(key, SortBy(key, xs[..|xs| - 1]), xs[|xs| - 1])
  }

  lemma {:induction false} InsertSum<T>(key: T -> string, xs: seq<T>, x: T, f: T -> nat)
    ensures Sum(f, Insert(key, xs, x)) == Sum(f, xs) + f(x)
  {
    if xs == [] || StringLeq(key(xs[|xs| - 1]), key(x)) {
      assert (xs + [x])[..|xs|] == xs;
    } else {
      var n := |xs| - 1;
      InsertSum(key, xs[..n], x, f);
      var ys := Insert(key, xs[..n], x);
      assert (ys + [xs[n]])[..|ys|] == ys;
    }
  }

  /** Sorting changes no sum, so it loses and repeats nothing. */
  lemma {:induction false} SortSum<T>(key: T -> string, xs: seq<T>, f: T -> nat)
    ensures Sum(f, SortBy(key, xs)) == Sum(f, xs)
  {
    if xs != [] {
      var n := |xs| - 1;
      SortSum(key, xs[..n], f);
      InsertSum(key, SortBy(key, xs[..n]), xs[n], f);
    }
  }

  lemma {:induction false} InsertMember<T>(key: T -> string, xs: seq<T>, x: T, y: T)
    ensures y in Insert(key, xs, x) <==> y in xs || y == x
  {
    if !(xs == [] || StringLeq(key(xs[|xs| - 1]), key(x))) {
      var n := |xs| - 1;
      InsertMember(key, xs[..n], x, y);
      assert xs == xs[..n] + [xs[n]];
    }
  }

  lemma {:induction false} SortMember<T>(key: T -> string, xs: seq<T>, y: T)
    ensures y in SortBy(key, xs) <==> y in xs
  {
    if xs != [] {
      var n := |xs| - 1;
      SortMember(key, xs[..n], y);
      InsertMember(key, SortBy(key, xs[..n]), xs[n], y);
      assert xs == xs[..n] + [xs[n]];
    }
  }

  lemma {:induction false} InsertDistinct<T, K(!new)>(order: T -> string, key: T -> K, xs: seq<T>, x: T)
    requires Distinct(key, xs) && forall y :: y in xs ==> key(y) != key(x)
    ensures Distinct(key, Insert(order, xs, x))
  {
    if xs != [] && !StringLeq(order(xs[|xs| - 1]), order(x)) {
      var n := |xs| - 1;
      InsertDistinct(order, key, xs[..n], x);
      var rest := Insert(order, xs[..n], x);
      forall i | 0 <= i < |rest| ensures key(rest[i]) != key(xs[n]) {
        InsertMember(order, xs[..n], x, rest[i]);
        assert xs[n] in xs;
      }
    }
  }

  lemma {:induction false} SortDistinct<T, K(!new)>(order: T -> string, key: T -> K, xs: seq<T>)
    requires Distinct(key, xs)
    ensures Distinct(key, SortBy(order, xs))
  {
    if xs != [] {
      var n := |xs| - 1;
      SortDistinct(order, key, xs[..n]);
      forall y | y in SortBy(order, xs[..n]) ensures key(y) != key(xs[n]) { SortMember(order, xs[..n], y); }
      InsertDistinct(order, key, SortBy(order, xs[..n]), xs[n]);
    }
  }

  ghost predicate Sorted<T(!new)>(key: T -> string, xs: seq<T>) {
    forall i :: 0 <= i < |xs| - 1 ==> StringLeq(key(xs[i]), key(xs[i + 1]))
  }

  lemma {:induction false} LeqTotal(a: string, b: string)
    ensures StringLeq(a, b) || StringLeq(b, a)
  {
    if a != "" && b != "" && a[0] == b[0] { LeqTotal(a[1..], b[1..]); }
  }

  lemma {:induction false} InsertSorted<T(!new)>(key: T -> string, xs: seq<T>, x: T)
    requires Sorted(key, xs)
    ensures Sorted(key, Insert(key, xs, x))
    ensures var r := Insert(key, xs, x); |r| == |xs| + 1 && (r[|r| - 1] == x || (xs != [] && r[|r| - 1] == xs[|xs| - 1]))
  {
    if !(xs == [] || StringLeq(key(xs[|xs| - 1]), key(x))) {
      var n := |xs| - 1;
      InsertSorted(key, xs[..n], x);
      LeqTotal(key(xs[n]), key(x));
      assert n > 0 ==> StringLeq(key(xs[n - 1]), key(xs[n - 1 + 1]));
    }
  }

  lemma {:induction false} SortSorts<T(!new)>(key: T -> string, xs: seq<T>)
    ensures Sorted(key, SortBy(key, xs)) && |SortBy(key, xs)| == |xs|
  {
    if xs != [] {
      SortSorts(key, xs[..|xs| - 1]);
      InsertSorted(key, SortBy(key, xs[..|xs| - 1]), xs[|xs| - 1]);
    }
  }

  /** The order of texts: a text comes first if it is a prefix of the other one or has the smaller character where they
      first differ. */
  lemma {:induction false} LeqLaw(a: string, b: string)
    ensures StringLeq(a, b) <==> a <= b || exists k: nat :: FirstLess(a, b, k)
  {
    if a != "" && b != "" {
      if a[0] == b[0] {
        LeqLaw(a[1..], b[1..]);
        assert a == [a[0]] + a[1..] && b == [b[0]] + b[1..];
        if k: nat :| FirstLess(a[1..], b[1..], k) { assert FirstLess(a, b, k + 1); }
        if k: nat :| FirstLess(a, b, k) { assert FirstLess(a[1..], b[1..], k - 1); }
      } else {
        assert a[0] < b[0] ==> FirstLess(a, b, 0);
        assert forall k: nat :: FirstLess(a, b, k) ==> k == 0;
      }
    }
  }

  predicate FirstLess(a: string, b: string, k: nat) {
    k < |a| && k < |b| && a[k] < b[k] && forall j :: 0 <= j < k ==> a[j] == b[j]
  }

  lemma {:induction false} InsertStable<T>(key: T -> string, xs: seq<T>, x: T, k: string)
    ensures Filter(KeyIs(key, k), Insert(key, xs, x)) == Filter(KeyIs(key, k), xs) + if key(x) == k then [x] else []
  {
    if !(xs == [] || StringLeq(key(xs[|xs| - 1]), key(x))) {
      var n := |xs| - 1;
      LeqTotal(k, k);
      InsertStable(key, xs[..n], x, k);
      assert (Insert(key, xs[..n], x) + [xs[n]])[..|Insert(key, xs[..n], x)|] == Insert(key, xs[..n], x);
    } else {
      assert (xs + [x])[..|xs|] == xs;
    }
  }

  /** Elements with the same key stay in order. */
  lemma {:induction false} SortStable<T>(key: T -> string, xs: seq<T>, k: string)
    ensures Filter(KeyIs(key, k), SortBy(key, xs)) == Filter(KeyIs(key, k), xs)
  {
    if xs != [] {
      SortStable(key, xs[..|xs| - 1], k);
      InsertStable(key, SortBy(key, xs[..|xs| - 1]), xs[|xs| - 1], k);
    }
  }

  // ---------------------------------------------------------------- grouping

  /** The non-empty keys of `xs`, each once, in order of first occurrence: the keys of a dictionary of buckets. */
  function Keys<T>(key: T -> string, xs: seq<T>): seq<string> {
    if xs == [] then []
    else
      var ks, k := Keys(key, xs[..|xs| - 1]), key(xs[|xs| - 1]);
      if k == "" || k in ks then ks else ks + [k]
  }

  lemma {:induction false} KeysExact<T>(key: T -> string, xs: seq<T>)
    ensures Distinct(Same, Keys(key, xs))
    ensures forall x :: x in xs ==> key(x) == "" || key(x) in Keys(key, xs)
    ensures "" !in Keys(key, xs)
  {
    if xs != [] {
      KeysExact(key, xs[..|xs| - 1]);
      assert xs == xs[..|xs| - 1] + [xs[|xs| - 1]];
    }
  }

  function KeyIs<T>(key: T -> string, k: string): T -> bool { x => key(x) == k }
  ghost function KeyIn<T>(key: T -> string, keys: seq<string>): T -> bool { x => key(x) in keys }
  function Same(k: string): string { k }

  /** The sum over one bucket. */
  ghost function BucketSum<T>(f: T -> nat, key: T -> string, xs: seq<T>): string -> nat {
    k => Sum(f, Filter(KeyIs(key, k), xs))
  }

  lemma {:induction false} BucketsSum<T>(f: T -> nat, key: T -> string, keys: seq<string>, xs: seq<T>)
    requires Distinct(Same, keys)
    ensures Sum(BucketSum(f, key, xs), keys) == Sum(f, Filter(KeyIn(key, keys), xs))
  {
    if keys == [] {
      FilterNone(KeyIn(key, keys), xs);
    } else {
      var n := |keys| - 1;
      assert keys == keys[..n] + [keys[n]];
      BucketsSum(f, key, keys[..n], xs);
      forall x | key(x) in keys[..n] ensures key(x) != keys[n] {
        var i :| 0 <= i < n && keys[i] == key(x);
        assert Same(keys[i]) != Same(keys[n]);
      }
      SumSplit(f, KeyIn(key, keys[..n]), KeyIs(key, keys[n]), KeyIn(key, keys), xs);
    }
  }

  lemma {:induction false} FilterNone<T>(p: T -> bool, xs: seq<T>)
    requires forall x :: !p(x)
    ensures Filter(p, xs) == []
  {
    if xs != [] { FilterNone(p, xs[..|xs| - 1]); }
  }

  /** Buckets in any sorted order, plus the elements without a key, make up the whole. */
  lemma GroupedSum<T>(f: T -> nat, key: T -> string, order: string -> string, xs: seq<T>)
    ensures Sum(BucketSum(f, key, xs), SortBy(order, Keys(key, xs))) + Sum(f, Filter(KeyIs(key, ""), xs)) == Sum(f, xs)
  {
    var keys := Keys(key, xs);
    KeysExact(key, xs);
    SortSum(order, keys, BucketSum(f, key, xs));
    BucketsSum(f, key, keys, xs);
    var all := x => key(x) in keys || key(x) == "";
    SumSplit(f, KeyIn(key, keys), KeyIs(key, ""), all, xs);
    FilterWhole(all, xs);
  }
}
