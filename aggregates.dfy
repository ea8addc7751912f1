/** The aggregations the dashboards and the reports share: buckets filled
    by a `forEach` that adds each record's amount to the pre-initialised
    entry its key names (records whose key names no entry are dropped),
    the per-category dictionary, and the stable sort-by-number the
    dashboards apply before cutting a list to its first ten items. A
    JavaScript object used as a dictionary is modelled as its keys, in
    insertion order, beside their values. */
module Aggregates {
  import opened Dates
  import opened Records

  // ---------------------------------------------------------------
  // Buckets
  // ---------------------------------------------------------------

  /** What bucket `k` collects from `s`: the sum of the amounts of the
      records whose key is `k`. */
  function SumAt<K(==)>(s: seq<Record>, key: Record -> K, k: K): int {
    if s == [] then 0
    else SumAt(s[..|s| - 1], key, k) + (if key(s[|s| - 1]) == k then s[|s| - 1].amount else 0)
  }

  predicate Distinct<K(==)>(ks: seq<K>) {
    forall i, j :: 0 <= i < j < |ks| ==> ks[i] != ks[j]
  }

  function Sum(xs: seq<int>): int {
    if xs == [] then 0 else Sum(xs[..|xs| - 1]) + xs[|xs| - 1]
  }

  /** Index of `k` among the bucket keys, or -1: the `if (buckets[key])` test. */
  function IndexOf<K(==)>(ks: seq<K>, k: K): (i: int)
    ensures -1 <= i < |ks|
    ensures i == -1 <==> k !in ks
    ensures 0 <= i ==> ks[i] == k
  {
    if ks == [] then -1
    else if ks[|ks| - 1] == k then |ks| - 1
    else IndexOf(ks[..|ks| - 1], k)
  }

  /** The records some bucket collects, in their order. */
  function Covered<K(==)>(s: seq<Record>, key: Record -> K, ks: seq<K>): (r: seq<Record>)
    ensures forall x :: x in r <==> x in s && key(x) in ks
  {
    if s == [] then []
    else Covered(s[..|s| - 1], key, ks) + (if key(s[|s| - 1]) in ks then [s[|s| - 1]] else [])
  }

  /** The sum over all buckets `ks`. */
  function SumOver<K(==)>(s: seq<Record>, key: Record -> K, ks: seq<K>): int {
    if ks == [] then 0 else SumOver(s, key, ks[..|ks| - 1]) + SumAt(s, key, ks[|ks| - 1])
  }

  /** One `forEach` pass over `s` into buckets `keys` that start at zero. */
  method Accumulate<K(==)>(s: seq<Record>, key: Record -> K, keys: seq<K>) returns (values: seq<int>)
    requires Distinct(keys)
    ensures |values| == |keys|
    ensures forall j :: 0 <= j < |keys| ==> values[j] == SumAt(s, key, keys[j])
  {
    values := seq(|keys|, _ => 0);
    var i := 0;
    while i < |s|
      invariant 0 <= i <= |s|
      invariant |values| == |keys|
      invariant forall j :: 0 <= j < |keys| ==> values[j] == SumAt(s[..i], key, keys[j])
    {
      assert s[..i + 1][..i] == s[..i];
      var j := IndexOf(keys, key(s[i]));
      if j != -1 {
        values := values[j := values[j] + s[i].amount];
      }
      i := i + 1;
    }
    assert s[..i] == s;
  }

  /** A bucket that does not match the last record keeps its sum. */
  lemma {:induction false} CoveredStep<K>(s: seq<Record>, key: Record -> K, ks: seq<K>, k: K)
    requires k !in ks
    ensures Total(Covered(s, key, ks + [k])) == Total(Covered(s, key, ks)) + SumAt(s, key, k)
    decreases |s|
  {
    if s != [] {
      var init, x := s[..|s| - 1], s[|s| - 1];
      CoveredStep(init, key, ks, k);
      var with := if key(x) in ks + [k] then [x] else [];
      var without := if key(x) in ks then [x] else [];
      TotalAppend(Covered(init, key, ks + [k]), with);
      TotalAppend(Covered(init, key, ks), without);
    }
  }

  /** With distinct keys no record is counted twice: the buckets add up to
      the total of the records they collect. */
  lemma {:induction false} SumOverCovered<K>(s: seq<Record>, key: Record -> K, ks: seq<K>)
    requires Distinct(ks)
    ensures SumOver(s, key, ks) == Total(Covered(s, key, ks))
    decreases |ks|
  {
    if ks == [] {
      CoveredNone(s, key);
    } else {
      var init := ks[..|ks| - 1];
      assert init + [ks[|ks| - 1]] == ks;
      SumOverCovered(s, key, init);
      CoveredStep(s, key, init, ks[|ks| - 1]);
    }
  }

  lemma {:induction false} CoveredNone<K>(s: seq<Record>, key: Record -> K)
    ensures Covered(s, key, []) == []
    decreases |s|
  {
    if s != [] {
      CoveredNone(s[..|s| - 1], key);
    }
  }

  /** When every record's key is a bucket, nothing is dropped. */
  lemma {:induction false} CoveredAll<K>(s: seq<Record>, key: Record -> K, ks: seq<K>)
    requires forall x :: x in s ==> key(x) in ks
    ensures Covered(s, key, ks) == s
    decreases |s|
  {
    if s != [] {
      var init, last := s[..|s| - 1], s[|s| - 1];
      assert s == init + [last];
      forall x | x in init ensures key(x) in ks {
        assert x in s;
      }
      CoveredAll(init, key, ks);
      assert last in s;
      assert Covered(s, key, ks) == Covered(init, key, ks) + [last];
    }
  }

  /** The values a pass produced add up to the sum over the buckets. */
  lemma {:induction false} SumOfValues<K>(values: seq<int>, s: seq<Record>, key: Record -> K, ks: seq<K>)
    requires |values| == |ks|
    requires forall j :: 0 <= j < |ks| ==> values[j] == SumAt(s, key, ks[j])
    ensures Sum(values) == SumOver(s, key, ks)
    decreases |ks|
  {
    if ks != [] {
      SumOfValues(values[..|values| - 1], s, key, ks[..|ks| - 1]);
    }
  }

  /** The bucket values of a pass add up to the total of the records whose
      key is a bucket; when every record has one, to the total of all. */
  lemma BucketsAddUp<K>(values: seq<int>, s: seq<Record>, key: Record -> K, ks: seq<K>)
    requires Distinct(ks) && |values| == |ks|
    requires forall j :: 0 <= j < |ks| ==> values[j] == SumAt(s, key, ks[j])
    ensures Sum(values) == Total(Covered(s, key, ks))
    ensures (forall x :: x in s ==> key(x) in ks) ==> Sum(values) == Total(s)
  {
    SumOfValues(values, s, key, ks);
    SumOverCovered(s, key, ks);
    if forall x :: x in s ==> key(x) in ks {
      CoveredAll(s, key, ks);
    }
  }

  // ---------------------------------------------------------------
  // Categories
  // ---------------------------------------------------------------

  /** One entry of `Object.entries(categories)`. */
  datatype Entry = Entry(category: string, amount: int)

  function Keys(es: seq<Entry>): (r: seq<string>)
    ensures |r| == |es| && forall i :: 0 <= i < |es| ==> r[i] == es[i].category
  {
    seq(|es|, i requires 0 <= i < |es| => es[i].category)
  }

  function Amounts(es: seq<Entry>): (r: seq<int>)
    ensures |r| == |es| && forall i :: 0 <= i < |es| ==> r[i] == es[i].amount
  {
    seq(|es|, i requires 0 <= i < |es| => es[i].amount)
  }

  /** `categories[c]`, reading a missing entry as 0. */
  function AmountOf(es: seq<Entry>, c: string): int {
    var i := IndexOf(Keys(es), c);
    if i == -1 then 0 else es[i].amount
  }

  /** `categories[c] += a`, creating the entry at the end when `c` is new. */
  function Bump(es: seq<Entry>, c: string, a: int): seq<Entry> {
    var i := IndexOf(Keys(es), c);
    if i == -1 then es + [Entry(c, a)] else es[i := Entry(c, es[i].amount + a)]
  }

  /** The dictionary `groupByCategory` builds from `s`. */
  function CategoryTotals(s: seq<Record>): seq<Entry> {
    if s == [] then [] else Bump(CategoryTotals(s[..|s| - 1]), s[|s| - 1].category, s[|s| - 1].amount)
  }

  function CategoryOf(x: Record): string {
    x.category
  }

  lemma IndexOfDistinct<K>(ks: seq<K>, i: int)
    requires Distinct(ks) && 0 <= i < |ks|
    ensures IndexOf(ks, ks[i]) == i
  {
  }

  /** A `+=` on a new category appends its entry. */
  lemma BumpNew(es: seq<Entry>, c: string, a: int)
    requires Distinct(Keys(es)) && c !in Keys(es)
    ensures Keys(Bump(es, c, a)) == Keys(es) + [c]
    ensures Amounts(Bump(es, c, a)) == Amounts(es) + [a]
    ensures Distinct(Keys(Bump(es, c, a)))
    ensures forall d :: AmountOf(Bump(es, c, a), d) == AmountOf(es, d) + (if d == c then a else 0)
  {
    var r := Bump(es, c, a);
    assert Keys(r) == Keys(es) + [c];
    assert Amounts(r) == Amounts(es) + [a];
    forall d ensures AmountOf(r, d) == AmountOf(es, d) + (if d == c then a else 0) {
      assert Keys(r)[..|es|] == Keys(es);
    }
  }

  /** A `+=` on a known category changes that entry in place. */
  lemma BumpOld(es: seq<Entry>, c: string, a: int)
    requires Distinct(Keys(es)) && c in Keys(es)
    ensures Keys(Bump(es, c, a)) == Keys(es)
    ensures Amounts(Bump(es, c, a)) == Amounts(es)[IndexOf(Keys(es), c) := Amounts(es)[IndexOf(Keys(es), c)] + a]
    ensures forall d :: AmountOf(Bump(es, c, a), d) == AmountOf(es, d) + (if d == c then a else 0)
  {
    var r := Bump(es, c, a);
    assert Keys(r) == Keys(es);
  }

  /** One `+=` keeps the categories distinct, adds `c` to them, raises the
      entry of `c` by `a` and no other entry, and raises the sum by `a`. */
  lemma BumpLaws(es: seq<Entry>, c: string, a: int)
    requires Distinct(Keys(es))
    ensures Distinct(Keys(Bump(es, c, a)))
    ensures forall d :: d in Keys(Bump(es, c, a)) <==> d in Keys(es) || d == c
    ensures forall d :: AmountOf(Bump(es, c, a), d) == AmountOf(es, d) + (if d == c then a else 0)
    ensures Sum(Amounts(Bump(es, c, a))) == Sum(Amounts(es)) + a
  {
    if c in Keys(es) {
      BumpOld(es, c, a);
      SumOfUpdate(Amounts(es), IndexOf(Keys(es), c), a);
    } else {
      BumpNew(es, c, a);
      SumOfAppend(Amounts(es), a);
    }
  }

  /** The categories with an entry are those of the records. */
  predicate HasCategory(s: seq<Record>, c: string) {
    exists x :: x in s && x.category == c
  }

  lemma HasCategoryStep(s: seq<Record>, c: string)
    requires s != []
    ensures HasCategory(s, c) <==> HasCategory(s[..|s| - 1], c) || s[|s| - 1].category == c
  {
    var init, x := s[..|s| - 1], s[|s| - 1];
    assert s == init + [x];
    if HasCategory(s, c) {
      var y :| y in s && y.category == c;
      assert y in init || y == x;
    }
  }

  /** Each category appears once, exactly the categories of `s` appear,
      each with the sum of its records, and the sums add up to the total. */
  lemma {:induction false} CategoryTotalsLaws(s: seq<Record>)
    ensures Distinct(Keys(CategoryTotals(s)))
    ensures forall c :: c in Keys(CategoryTotals(s)) <==> HasCategory(s, c)
    ensures forall c :: AmountOf(CategoryTotals(s), c) == SumAt(s, CategoryOf, c)
    ensures Sum(Amounts(CategoryTotals(s))) == Total(s)
    decreases |s|
  {
    if s != [] {
      var init, x := s[..|s| - 1], s[|s| - 1];
      CategoryTotalsLaws(init);
      BumpLaws(CategoryTotals(init), x.category, x.amount);
      forall c ensures c in Keys(CategoryTotals(s)) <==> HasCategory(s, c) {
        HasCategoryStep(s, c);
      }
    }
  }

  /** Read entry by entry: every entry carries the sum of its category. */
  lemma EntrySums(s: seq<Record>)
    ensures forall i :: 0 <= i < |CategoryTotals(s)| ==>
              CategoryTotals(s)[i].amount == SumAt(s, CategoryOf, CategoryTotals(s)[i].category)
  {
    var es := CategoryTotals(s);
    CategoryTotalsLaws(s);
    forall i | 0 <= i < |es| ensures es[i].amount == SumAt(s, CategoryOf, es[i].category) {
      IndexOfDistinct(Keys(es), i);
      assert AmountOf(es, es[i].category) == es[i].amount;
    }
  }

  lemma SumOfAppend(xs: seq<int>, a: int)
    ensures Sum(xs + [a]) == Sum(xs) + a
  {
    assert (xs + [a])[..|xs|] == xs;
  }

  lemma {:induction false} SumOfUpdate(xs: seq<int>, i: int, a: int)
    requires 0 <= i < |xs|
    ensures Sum(xs[i := xs[i] + a]) == Sum(xs) + a
    decreases |xs|
  {
    var ys := xs[i := xs[i] + a];
    if i < |xs| - 1 {
      assert ys[..|ys| - 1] == xs[..|xs| - 1][i := xs[i] + a];
      SumOfUpdate(xs[..|xs| - 1], i, a);
    } else {
      assert ys[..|ys| - 1] == xs[..|xs| - 1];
    }
  }

  /** The `forEach` of `groupByCategory`: one `+=` per item into the entry
      of its category. */
  method GroupByCategory(items: seq<Record>) returns (es: seq<Entry>)
    ensures es == CategoryTotals(items)
  {
    es := [];
    var i := 0;
    while i < |items|
      invariant 0 <= i <= |items|
      invariant es == CategoryTotals(items[..i])
    {
      assert items[..i + 1][..i] == items[..i];
      es := Bump(es, items[i].category, items[i].amount);
      i := i + 1;
    }
    assert items[..i] == items;
  }

  // ---------------------------------------------------------------
  // Stable sort by a number, largest first
  // ---------------------------------------------------------------

  predicate NonIncreasing<T>(s: seq<T>, key: T -> int) {
    forall i, j :: 0 <= i < j < |s| ==> key(s[i]) >= key(s[j])
  }

  /** The items of `s` whose key is `k`, in their order. */
  function WithKey<T>(s: seq<T>, key: T -> int, k: int): seq<T> {
    if s == [] then [] else (if key(s[0]) == k then [s[0]] else []) + WithKey(s[1..], key, k)
  }

  /** `x` placed before the first item whose key is not larger. */
  function Insert<T>(x: T, s: seq<T>, key: T -> int): (r: seq<T>)
    ensures multiset(r) == multiset(s) + multiset{x} && |r| == |s| + 1
  {
    if s == [] then [x]
    else if key(s[0]) <= key(x) then [x] + s
    else
      assert s == [s[0]] + s[1..];
      [s[0]] + Insert(x, s[1..], key)
  }

  lemma {:induction false} InsertSorted<T>(x: T, s: seq<T>, key: T -> int)
    requires NonIncreasing(s, key)
    ensures NonIncreasing(Insert(x, s, key), key)
    decreases |s|
  {
    if s != [] && key(s[0]) > key(x) {
      var rest := Insert(x, s[1..], key);
      SortedTail(s, key);
      InsertSorted(x, s[1..], key);
      forall j | 0 <= j < |rest| ensures key(s[0]) >= key(rest[j]) {
        assert rest[j] in multiset(rest);
        if rest[j] != x {
          assert rest[j] in multiset(s[1..]);
          var m :| 0 <= m < |s[1..]| && s[1..][m] == rest[j];
          assert s[m + 1] == rest[j];
        }
      }
      ConsSorted(s[0], rest, key);
    }
  }

  /** A head no smaller than any item of a sorted tail keeps it sorted. */
  lemma ConsSorted<T>(h: T, rest: seq<T>, key: T -> int)
    requires NonIncreasing(rest, key)
    requires forall j :: 0 <= j < |rest| ==> key(h) >= key(rest[j])
    ensures NonIncreasing([h] + rest, key)
  {
    var r := [h] + rest;
    forall i, j | 0 <= i < j < |r| ensures key(r[i]) >= key(r[j]) {
      assert r[j] == rest[j - 1];
      if i > 0 {
        assert r[i] == rest[i - 1];
      }
    }
  }

  /** Inserting `x` puts it ahead of the items with its key and moves no
      other item past one with the same key. */
  lemma {:induction false} InsertWithKey<T>(x: T, s: seq<T>, key: T -> int, k: int)
    ensures WithKey(Insert(x, s, key), key, k)
         == if key(x) == k then [x] + WithKey(s, key, k) else WithKey(s, key, k)
    decreases |s|
  {
    if s == [] {
      assert WithKey([x], key, k) == (if key(x) == k then [x] else []) + WithKey([], key, k);
    } else if key(s[0]) <= key(x) {
      assert ([x] + s)[1..] == s;
      if key(x) == k && key(s[0]) != k {
        assert WithKey(s, key, k) == WithKey(s[1..], key, k);
      }
    } else {
      var rest := Insert(x, s[1..], key);
      assert ([s[0]] + rest)[1..] == rest;
      InsertWithKey(x, s[1..], key, k);
    }
  }

  /** `s.sort((a, b) => key(b) - key(a))`: nothing gained or lost. */
  function SortDesc<T>(s: seq<T>, key: T -> int): (r: seq<T>)
    ensures multiset(r) == multiset(s) && |r| == |s|
  {
    if s == [] then []
    else
      assert s == [s[0]] + s[1..];
      Insert(s[0], SortDesc(s[1..], key), key)
  }

  /** Largest key first, and items with equal keys in their original order:
      the stability ECMAScript requires of `Array.prototype.sort`. */
  lemma {:induction false} SortDescLaws<T>(s: seq<T>, key: T -> int)
    ensures NonIncreasing(SortDesc(s, key), key)
    ensures forall k :: WithKey(SortDesc(s, key), key, k) == WithKey(s, key, k)
    decreases |s|
  {
    if s != [] {
      SortDescLaws(s[1..], key);
      InsertSorted(s[0], SortDesc(s[1..], key), key);
      forall k ensures WithKey(SortDesc(s, key), key, k) == WithKey(s, key, k) {
        InsertWithKey(s[0], SortDesc(s[1..], key), key, k);
      }
    }
  }

  /** Sortedness and stability pin the order down: any stable sort by the
      same key gives exactly `SortDesc`. */
  lemma {:induction false} StableSortUnique<T>(r1: seq<T>, r2: seq<T>, key: T -> int)
    requires NonIncreasing(r1, key) && NonIncreasing(r2, key)
    requires forall k :: WithKey(r1, key, k) == WithKey(r2, key, k)
    ensures r1 == r2
    decreases |r1| + |r2|
  {
    SameEmptiness(r1, r2, key);
    if r1 != [] {
      var k1, k2 := key(r1[0]), key(r2[0]);
      assert WithKey(r1, key, k1) != [];
      assert WithKey(r2, key, k2) != [];
      WithKeyMember(r2, key, k1);
      WithKeyMember(r1, key, k2);
      assert k1 == k2;
      assert r1[0] == r2[0] by {
        assert WithKey(r1, key, k1)[0] == r1[0];
        assert WithKey(r2, key, k1)[0] == r2[0];
      }
      forall k ensures WithKey(r1[1..], key, k) == WithKey(r2[1..], key, k) {
        var head := if k1 == k then [r1[0]] else [];
        assert WithKey(r1, key, k) == head + WithKey(r1[1..], key, k);
        assert WithKey(r2, key, k) == head + WithKey(r2[1..], key, k);
        assert WithKey(r1[1..], key, k) == WithKey(r1, key, k)[|head|..];
        assert WithKey(r2[1..], key, k) == WithKey(r2, key, k)[|head|..];
      }
      SortedTail(r1, key);
      SortedTail(r2, key);
      StableSortUnique(r1[1..], r2[1..], key);
    }
  }

  /** Sequences that agree on every key are empty together. */
  lemma SameEmptiness<T>(r1: seq<T>, r2: seq<T>, key: T -> int)
    requires forall k :: WithKey(r1, key, k) == WithKey(r2, key, k)
    ensures r1 == [] <==> r2 == []
  {
    if r1 != [] {
      assert WithKey(r1, key, key(r1[0])) != [];
      WithKeyMember(r2, key, key(r1[0]));
    }
    if r2 != [] {
      assert WithKey(r2, key, key(r2[0])) != [];
      WithKeyMember(r1, key, key(r2[0]));
    }
  }

  /** A non-empty `WithKey` comes from an item with that key, and the
      first item of a non-increasing sequence has the largest key. */
  lemma {:induction false} WithKeyMember<T>(s: seq<T>, key: T -> int, k: int)
    requires WithKey(s, key, k) != []
    ensures s != [] && exists i :: 0 <= i < |s| && key(s[i]) == k
    ensures s != [] && NonIncreasing(s, key) ==> key(s[0]) >= k
    decreases |s|
  {
    if key(s[0]) != k {
      WithKeyMember(s[1..], key, k);
      var i :| 0 <= i < |s[1..]| && key(s[1..][i]) == k;
      assert key(s[i + 1]) == k;
    }
  }

  lemma SortedTail<T>(s: seq<T>, key: T -> int)
    requires s != [] && NonIncreasing(s, key)
    ensures NonIncreasing(s[1..], key)
  {
    forall i, j | 0 <= i < j < |s[1..]| ensures key(s[1..][i]) >= key(s[1..][j]) {
      assert s[1..][i] == s[i + 1] && s[1..][j] == s[j + 1];
    }
  }

  /** `slice(0, n)`. */
  function Take<T>(s: seq<T>, n: nat): (r: seq<T>)
    ensures |r| == if |s| < n then |s| else n
    ensures r == s[..|r|]
  {
    if |s| <= n then s else s[..n]
  }

  // ---------------------------------------------------------------
  // Distinctness survives a permutation
  // ---------------------------------------------------------------

  lemma {:induction false} DistinctOnce<T>(s: seq<T>, x: T)
    requires Distinct(s)
    ensures multiset(s)[x] <= 1
    decreases |s|
  {
    if s != [] {
      var init := s[..|s| - 1];
      assert s == init + [s[|s| - 1]];
      DistinctOnce(init, x);
      if x == s[|s| - 1] {
        assert x !in init by {
          forall m | 0 <= m < |init| ensures init[m] != x {
            assert s[m] != s[|s| - 1];
          }
        }
      }
    }
  }

  lemma PermutationDistinct<T>(a: seq<T>, b: seq<T>)
    requires Distinct(a) && multiset(a) == multiset(b)
    ensures Distinct(b)
  {
    forall i, j | 0 <= i < j < |b| ensures b[i] != b[j] {
      if b[i] == b[j] {
        assert b == b[..i] + [b[i]] + b[i + 1..j] + [b[j]] + b[j + 1..];
        assert multiset(b)[b[i]] >= 2;
        DistinctOnce(a, b[i]);
      }
    }
  }

  /** Sorting a dictionary's entries keeps their categories distinct. */
  lemma SortKeepsCategoriesDistinct(es: seq<Entry>)
    requires Distinct(Keys(es))
    ensures Distinct(Keys(SortDesc(es, EntryAmount)))
  {
    var sorted := SortDesc(es, EntryAmount);
    assert Distinct(es) by {
      forall i, j | 0 <= i < j < |es| ensures es[i] != es[j] {
        assert Keys(es)[i] != Keys(es)[j];
      }
    }
    PermutationDistinct(es, sorted);
    forall i, j | 0 <= i < j < |sorted| ensures Keys(sorted)[i] != Keys(sorted)[j] {
      assert sorted[i] in multiset(es) && sorted[j] in multiset(es);
      var p :| 0 <= p < |es| && es[p] == sorted[i];
      var q :| 0 <= q < |es| && es[q] == sorted[j];
      if p != q {
        assert Keys(es)[p] != Keys(es)[q];
      }
    }
  }

  // ---------------------------------------------------------------
  // The dashboards' category chart
  // ---------------------------------------------------------------

  function EntryAmount(e: Entry): int {
    e.amount
  }

  /** The chart's entries: categories by sum, largest first, at most ten. */
  function TopCategories(expenses: seq<Record>): seq<Entry> {
    Take(SortDesc(CategoryTotals(expenses), EntryAmount), 10)
  }

  lemma TakeSorted<T>(s: seq<T>, n: nat, key: T -> int)
    requires NonIncreasing(s, key)
    ensures NonIncreasing(Take(s, n), key)
  {
  }

  lemma TakeDistinctKeys(es: seq<Entry>, n: nat)
    requires Distinct(Keys(es))
    ensures Distinct(Keys(Take(es, n)))
  {
    var t := Take(es, n);
    forall i, j | 0 <= i < j < |t| ensures Keys(t)[i] != Keys(t)[j] {
      assert t[i] == es[i] && t[j] == es[j];
      assert Keys(es)[i] != Keys(es)[j];
    }
  }

  /** What the cut drops ranks no higher than anything it keeps. */
  lemma TakeLeftOut<T>(s: seq<T>, n: nat, key: T -> int)
    requires NonIncreasing(s, key)
    ensures forall e, i :: (e in s && e !in Take(s, n) && 0 <= i < |Take(s, n)|) ==>
              key(Take(s, n)[i]) >= key(e)
  {
    var t := Take(s, n);
    forall e, i | e in s && e !in t && 0 <= i < |t| ensures key(t[i]) >= key(e) {
      var j :| 0 <= j < |s| && s[j] == e;
      assert j >= |t|;
      assert t[i] == s[i];
    }
  }

  lemma EntryStaysEntry(all: seq<Entry>, e: Entry)
    requires e in Take(SortDesc(all, EntryAmount), 10)
    ensures e in all
  {
    var sorted := SortDesc(all, EntryAmount);
    assert e in sorted;
    assert e in multiset(sorted);
  }

  /** At most ten distinct categories, each with its sum, largest first; a
      category left out sums to no more than any category shown. */
  lemma TopCategoriesLaws(expenses: seq<Record>)
    ensures |TopCategories(expenses)| == if |CategoryTotals(expenses)| < 10 then |CategoryTotals(expenses)| else 10
    ensures NonIncreasing(TopCategories(expenses), EntryAmount)
    ensures Distinct(Keys(TopCategories(expenses)))
    ensures forall e :: e in TopCategories(expenses) ==>
              e.amount == SumAt(expenses, CategoryOf, e.category)
    ensures forall e, i :: (e in CategoryTotals(expenses) && e !in TopCategories(expenses)
              && 0 <= i < |TopCategories(expenses)|) ==> TopCategories(expenses)[i].amount >= e.amount
  {
    var all := CategoryTotals(expenses);
    var sorted := SortDesc(all, EntryAmount);
    CategoryTotalsLaws(expenses);
    EntrySums(expenses);
    SortDescLaws(all, EntryAmount);
    SortKeepsCategoriesDistinct(all);
    TakeSorted(sorted, 10, EntryAmount);
    TakeDistinctKeys(sorted, 10);
    TakeLeftOut(sorted, 10, EntryAmount);
    forall e | e in TopCategories(expenses) ensures e.amount == SumAt(expenses, CategoryOf, e.category) {
      EntryStaysEntry(all, e);
    }
    forall e | e in all ensures e in sorted {
      assert e in multiset(sorted);
    }
  }

  /** A category of the records that the top ten leave out sums to no
      more than any category shown. */
  lemma TopCategoriesLeftOut(expenses: seq<Record>, c: string)
    requires HasCategory(expenses, c) && c !in Keys(TopCategories(expenses))
    ensures forall i :: 0 <= i < |TopCategories(expenses)| ==>
              TopCategories(expenses)[i].amount >= SumAt(expenses, CategoryOf, c)
  {
    var e := CategoryEntry(expenses, c);
    var top := TopCategories(expenses);
    assert e !in top;
    TopCategoriesLaws(expenses);
  }

  /** The entry of the category dictionary that holds a category of the
      records, with its sum. */
  lemma CategoryEntry(s: seq<Record>, c: string) returns (e: Entry)
    requires HasCategory(s, c)
    ensures e in CategoryTotals(s) && e.category == c && e.amount == SumAt(s, CategoryOf, c)
  {
    var all := CategoryTotals(s);
    CategoryTotalsLaws(s);
    EntrySums(s);
    var j :| 0 <= j < |all| && Keys(all)[j] == c;
    e := all[j];
  }

  /** The `forEach`, then the `sort` and `slice` of `groupByCategory`:
      the chart's labels and amounts. */
  method TopCategoryChart(expenses: seq<Record>) returns (labels: seq<string>, amounts: seq<int>)
    ensures labels == Keys(TopCategories(expenses)) && amounts == Amounts(TopCategories(expenses))
  {
    var categories := GroupByCategory(expenses);
    var sorted := Take(SortDesc(categories, EntryAmount), 10);
    labels := Keys(sorted);
    amounts := Amounts(sorted);
  }

  /** Sorting by `key`, largest first, and cutting to `n` items keeps at
      most `n` items of `all`, in order, and drops none that ranks above an
      item kept. */
  lemma SortedCutLaws<T>(all: seq<T>, key: T -> int, n: nat)
    ensures |Take(SortDesc(all, key), n)| == if |all| < n then |all| else n
    ensures NonIncreasing(Take(SortDesc(all, key), n), key)
    ensures forall t :: t in Take(SortDesc(all, key), n) ==> t in all
    ensures forall t, i :: (t in all && t !in Take(SortDesc(all, key), n) && 0 <= i < |Take(SortDesc(all, key), n)|)
              ==> key(Take(SortDesc(all, key), n)[i]) >= key(t)
  {
    var sorted := SortDesc(all, key);
    SortDescLaws(all, key);
    TakeSorted(sorted, n, key);
    TakeLeftOut(sorted, n, key);
    forall t | t in Take(sorted, n) ensures t in all {
      assert t in sorted;
      assert t in multiset(sorted);
    }
    forall t | t in all ensures t in sorted {
      assert t in multiset(sorted);
    }
  }

  /** Bucket sums over a concatenation add up. */
  lemma {:induction false} SumAtAppend<K>(a: seq<Record>, b: seq<Record>, key: Record -> K, k: K)
    ensures SumAt(a + b, key, k) == SumAt(a, key, k) + SumAt(b, key, k)
    decreases |b|
  {
    if b == [] {
      assert a + b == a;
    } else {
      assert (a + b)[..|a + b| - 1] == a + b[..|b| - 1];
      SumAtAppend(a, b[..|b| - 1], key, k);
    }
  }
}
