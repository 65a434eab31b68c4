/**
 * Python's insertion-ordered `dict`, as a sequence of entries with distinct keys,
 * together with the two things the analysis passes do to their counting dicts:
 * `d[k] += 1` (or `d[k] = 1` for a new key), and
 * `dict(sorted(d.items(), key=lambda item: item[1], reverse=True))`.
 */
module OrderedCounts {

  /** One key/value pair of a dict, in its insertion position. */
  datatype Entry<K, V> = Entry(key: K, value: V)

  type Counts<K> = seq<Entry<K, int>>

  /** `list(d.keys())` */
  function Keys<K, V>(d: seq<Entry<K, V>>): (r: seq<K>)
    ensures |r| == |d| && forall i :: 0 <= i < |d| ==> r[i] == d[i].key
  {
    seq(|d|, i requires 0 <= i < |d| => d[i].key)
  }

  /** A dict never holds a key twice. */
  predicate DistinctKeys<K(==), V>(d: seq<Entry<K, V>>) {
    forall i, j :: 0 <= i < j < |d| ==> d[i].key != d[j].key
  }

  /** `d.get(k, 0)` */
  function Count<K(==)>(d: Counts<K>, k: K): int {
    if d == [] then 0 else if d[0].key == k then d[0].value else Count(d[1..], k)
  }

  /** `sum(d.values())` */
  function Total<K>(d: Counts<K>): int {
    if d == [] then 0 else d[0].value + Total(d[1..])
  }

  /** `if k in d: d[k] += 1` / `else: d[k] = 1` */
  function Bump<K(==)>(d: Counts<K>, k: K): Counts<K> {
    if d == [] then [Entry(k, 1)]
    else if d[0].key == k then [Entry(k, d[0].value + 1)] + d[1..]
    else [d[0]] + Bump(d[1..], k)
  }

  lemma {:induction false} BumpSpec<K>(d: Counts<K>, k: K)
    ensures Total(Bump(d, k)) == Total(d) + 1
    ensures Keys(Bump(d, k)) == if k in Keys(d) then Keys(d) else Keys(d) + [k]
    ensures forall x :: Count(Bump(d, k), x) == Count(d, x) + (if x == k then 1 else 0)
    ensures DistinctKeys(d) ==> DistinctKeys(Bump(d, k))
    ensures (forall i :: 0 <= i < |d| ==> d[i].value > 0) ==>
              forall i :: 0 <= i < |Bump(d, k)| ==> Bump(d, k)[i].value > 0
  {
    BumpTotalAndCounts(d, k);
    BumpKeys(d, k);
    if DistinctKeys(d) {
      BumpDistinct(d, k);
    }
    if forall i :: 0 <= i < |d| ==> d[i].value > 0 {
      BumpPositive(d, k);
    }
  }

  lemma {:induction false} BumpTotalAndCounts<K>(d: Counts<K>, k: K)
    ensures Total(Bump(d, k)) == Total(d) + 1
    ensures forall x :: Count(Bump(d, k), x) == Count(d, x) + (if x == k then 1 else 0)
  {
    if d != [] && d[0].key != k {
      BumpTotalAndCounts(d[1..], k);
    }
  }

  lemma {:induction false} BumpKeys<K>(d: Counts<K>, k: K)
    ensures Keys(Bump(d, k)) == if k in Keys(d) then Keys(d) else Keys(d) + [k]
  {
    var r := Bump(d, k);
    if d == [] {
    } else if d[0].key == k {
      assert Keys(r) == Keys(d);
    } else {
      BumpKeys(d[1..], k);
      assert Keys(d) == [d[0].key] + Keys(d[1..]);
      assert Keys(r) == [d[0].key] + Keys(Bump(d[1..], k));
      assert k in Keys(d) <==> k in Keys(d[1..]);
    }
  }

  lemma {:induction false} BumpDistinct<K>(d: Counts<K>, k: K)
    requires DistinctKeys(d)
    ensures DistinctKeys(Bump(d, k))
  {
    var r := Bump(d, k);
    if d != [] && d[0].key != k {
      BumpDistinct(d[1..], k);
      BumpKeys(d[1..], k);
      assert d[0].key !in Keys(d[1..]);
      forall i, j | 0 <= i < j < |r| ensures r[i].key != r[j].key {
        if i == 0 {
          assert r[j].key in Keys(Bump(d[1..], k));
        }
      }
    }
  }

  lemma {:induction false} BumpPositive<K>(d: Counts<K>, k: K)
    requires forall i :: 0 <= i < |d| ==> d[i].value > 0
    ensures forall i :: 0 <= i < |Bump(d, k)| ==> Bump(d, k)[i].value > 0
  {
    if d != [] && d[0].key != k {
      BumpPositive(d[1..], k);
    }
  }

  /** The counting dict a scan builds: every element of `xs`, in order, bumped into an empty dict. */
  function Tally<K(==)>(xs: seq<K>): Counts<K> {
    if xs == [] then [] else Bump(Tally(xs[..|xs| - 1]), xs[|xs| - 1])
  }

  /** The distinct elements of `xs` in the order they first occur. */
  function FirstOccurrences<K(==)>(xs: seq<K>): seq<K> {
    if xs == [] then []
    else
      var p := xs[..|xs| - 1];
      if xs[|xs| - 1] in p then FirstOccurrences(p) else FirstOccurrences(p) + [xs[|xs| - 1]]
  }

  lemma TallyAppend<K>(xs: seq<K>, x: K)
    ensures Tally(xs + [x]) == Bump(Tally(xs), x)
  {
    assert (xs + [x])[..|xs|] == xs;
  }

  /**
   * The dict a scan builds holds each element of `xs` once, counted exactly as often as it
   * occurs, with positive counts summing to `|xs|`, and its keys in first-occurrence order.
   */
  lemma {:induction false} TallySpec<K>(xs: seq<K>)
    ensures DistinctKeys(Tally(xs))
    ensures Total(Tally(xs)) == |xs|
    ensures forall k :: Count(Tally(xs), k) == multiset(xs)[k]
    ensures forall k :: k in Keys(Tally(xs)) <==> k in xs
    ensures Keys(Tally(xs)) == FirstOccurrences(xs)
    ensures forall i :: 0 <= i < |Tally(xs)| ==> Tally(xs)[i].value > 0
    decreases |xs|
  {
    if xs != [] {
      var p, x := xs[..|xs| - 1], xs[|xs| - 1];
      assert xs == p + [x];
      TallySpec(p);
      BumpSpec(Tally(p), x);
      forall k ensures Count(Tally(xs), k) == multiset(xs)[k] {
        assert multiset(xs) == multiset(p) + multiset{x};
      }
    }
  }

  // ---------------------------------------------------------------------------
  // Stable sort by count, descending
  // ---------------------------------------------------------------------------

  predicate SortedDesc<K>(d: Counts<K>) {
    forall i, j :: 0 <= i < j < |d| ==> d[i].value >= d[j].value
  }

  /** The entries of `d` whose count is `c`, in their order in `d`. */
  function WithCount<K>(d: Counts<K>, c: int): Counts<K> {
    if d == [] then [] else (if d[0].value == c then [d[0]] else []) + WithCount(d[1..], c)
  }

  /** Puts `e` before the first entry of `t` whose count is not larger than its own. */
  function InsertDesc<K>(e: Entry<K, int>, t: Counts<K>): Counts<K> {
    if t == [] || t[0].value <= e.value then [e] + t else [t[0]] + InsertDesc(e, t[1..])
  }

  /**
   * `dict(sorted(d.items(), key=lambda item: item[1], reverse=True))`. Python's sort is stable
   * also with `reverse=True`; this insertion sort is stable too, and SortByCountDescUnique shows
   * that every stable descending sort yields the same sequence.
   */
  function SortByCountDesc<K>(d: Counts<K>): Counts<K> {
    if d == [] then [] else InsertDesc(d[0], SortByCountDesc(d[1..]))
  }

  lemma {:induction false} InsertDescPerm<K>(e: Entry<K, int>, t: Counts<K>)
    ensures multiset(InsertDesc(e, t)) == multiset(t) + multiset{e}
    ensures |InsertDesc(e, t)| == |t| + 1
    ensures Total(InsertDesc(e, t)) == e.value + Total(t)
    decreases |t|
  {
    if !(t == [] || t[0].value <= e.value) {
      InsertDescPerm(e, t[1..]);
      assert t == [t[0]] + t[1..];
    }
  }

  lemma WithCountCons<K>(x: Entry<K, int>, d: Counts<K>, c: int)
    ensures WithCount([x] + d, c) == (if x.value == c then [x] else []) + WithCount(d, c)
  {
    assert ([x] + d)[1..] == d;
  }

  lemma {:induction false} InsertDescWithCount<K>(e: Entry<K, int>, t: Counts<K>, c: int)
    ensures WithCount(InsertDesc(e, t), c) == (if e.value == c then [e] else []) + WithCount(t, c)
    decreases |t|
  {
    if t == [] || t[0].value <= e.value {
      WithCountCons(e, t, c);
    } else {
      var u := InsertDesc(e, t[1..]);
      InsertDescWithCount(e, t[1..], c);
      WithCountCons(t[0], u, c);
      WithCountCons(t[0], t[1..], c);
      assert t == [t[0]] + t[1..];
      if e.value == c {
        assert t[0].value != c;
      }
    }
  }

  lemma {:induction false} InsertDescKeys<K>(e: Entry<K, int>, t: Counts<K>)
    ensures forall k :: k in Keys(InsertDesc(e, t)) <==> k == e.key || k in Keys(t)
    ensures DistinctKeys(t) && e.key !in Keys(t) ==> DistinctKeys(InsertDesc(e, t))
    decreases |t|
  {
    var r := InsertDesc(e, t);
    if t == [] || t[0].value <= e.value {
      assert Keys(r) == [e.key] + Keys(t);
      if DistinctKeys(t) && e.key !in Keys(t) {
        forall i, j | 0 <= i < j < |r| ensures r[i].key != r[j].key {
          if i == 0 {
            assert r[j].key == Keys(t)[j - 1];
          }
        }
      }
    } else {
      var u := InsertDesc(e, t[1..]);
      InsertDescKeys(e, t[1..]);
      assert Keys(t) == [t[0].key] + Keys(t[1..]);
      assert Keys(r) == [t[0].key] + Keys(u);
      if DistinctKeys(t) && e.key !in Keys(t) {
        assert DistinctKeys(t[1..]);
        forall i, j | 0 <= i < j < |r| ensures r[i].key != r[j].key {
          if i == 0 {
            assert r[j].key in Keys(u);
            assert t[0].key !in Keys(t[1..]);
          }
        }
      }
    }
  }

  lemma {:induction false} InsertDescSorted<K>(e: Entry<K, int>, t: Counts<K>)
    requires SortedDesc(t)
    ensures SortedDesc(InsertDesc(e, t))
    decreases |t|
  {
    var r := InsertDesc(e, t);
    if t == [] || t[0].value <= e.value {
      forall i, j | 0 <= i < j < |r| ensures r[i].value >= r[j].value {
        if i == 0 && j > 1 {
          assert r[j] == t[j - 1];
        }
      }
    } else {
      var u := InsertDesc(e, t[1..]);
      InsertDescSorted(e, t[1..]);
      InsertDescPerm(e, t[1..]);
      assert r[1..] == u;
      forall i, j | 0 <= i < j < |r| ensures r[i].value >= r[j].value {
        if i == 0 {
          assert r[j] in multiset(u);
          if r[j] != e {
            assert r[j] in t[1..];
          }
        }
      }
    }
  }

  lemma {:induction false} SortByCountDescPerm<K>(d: Counts<K>)
    ensures multiset(SortByCountDesc(d)) == multiset(d)
    ensures |SortByCountDesc(d)| == |d|
    ensures Total(SortByCountDesc(d)) == Total(d)
    decreases |d|
  {
    if d != [] {
      SortByCountDescPerm(d[1..]);
      InsertDescPerm(d[0], SortByCountDesc(d[1..]));
      assert d == [d[0]] + d[1..];
    }
  }

  lemma {:induction false} SortByCountDescSorted<K>(d: Counts<K>)
    ensures SortedDesc(SortByCountDesc(d))
    decreases |d|
  {
    if d != [] {
      SortByCountDescSorted(d[1..]);
      InsertDescSorted(d[0], SortByCountDesc(d[1..]));
    }
  }

  lemma {:induction false} SortByCountDescWithCount<K>(d: Counts<K>, c: int)
    ensures WithCount(SortByCountDesc(d), c) == WithCount(d, c)
    decreases |d|
  {
    if d != [] {
      SortByCountDescWithCount(d[1..], c);
      InsertDescWithCount(d[0], SortByCountDesc(d[1..]), c);
      WithCountCons(d[0], d[1..], c);
      assert d == [d[0]] + d[1..];
    }
  }

  lemma {:induction false} SortByCountDescKeys<K>(d: Counts<K>)
    ensures forall k :: k in Keys(SortByCountDesc(d)) <==> k in Keys(d)
    ensures DistinctKeys(d) ==> DistinctKeys(SortByCountDesc(d))
    decreases |d|
  {
    if d != [] {
      SortByCountDescKeys(d[1..]);
      InsertDescKeys(d[0], SortByCountDesc(d[1..]));
      assert Keys(d) == [d[0].key] + Keys(d[1..]);
      if DistinctKeys(d) {
        assert DistinctKeys(d[1..]);
      }
    }
  }

  /**
   * The sorted dict holds the same entries, is ordered by count descending, and keeps, for
   * every count, the entries with that count in their original relative order (stability).
   */
  lemma SortByCountDescSpec<K>(d: Counts<K>)
    ensures SortedDesc(SortByCountDesc(d))
    ensures multiset(SortByCountDesc(d)) == multiset(d)
    ensures |SortByCountDesc(d)| == |d|
    ensures forall c :: WithCount(SortByCountDesc(d), c) == WithCount(d, c)
    ensures Total(SortByCountDesc(d)) == Total(d)
    ensures forall k :: k in Keys(SortByCountDesc(d)) <==> k in Keys(d)
    ensures DistinctKeys(d) ==> DistinctKeys(SortByCountDesc(d))
  {
    SortByCountDescPerm(d);
    SortByCountDescSorted(d);
    SortByCountDescKeys(d);
    forall c ensures WithCount(SortByCountDesc(d), c) == WithCount(d, c) {
      SortByCountDescWithCount(d, c);
    }
  }

  lemma {:induction false} WithCountMember<K>(d: Counts<K>, c: int)
    requires WithCount(d, c) != []
    ensures exists i :: 0 <= i < |d| && d[i].value == c
    decreases |d|
  {
    if d[0].value != c {
      WithCountMember(d[1..], c);
      var i :| 0 <= i < |d[1..]| && d[1..][i].value == c;
      assert d[i + 1].value == c;
    }
  }

  lemma WithCountHead<K>(d: Counts<K>)
    ensures d != [] ==> WithCount(d, d[0].value) != []
  {
  }

  lemma {:induction false} WithCountOfSortedHead<K>(d: Counts<K>)
    requires d != [] && SortedDesc(d)
    ensures WithCount(d, d[0].value) == [d[0]] + WithCount(d[1..], d[0].value)
    ensures forall c :: c != d[0].value ==> WithCount(d, c) == WithCount(d[1..], c)
  {
  }

  /**
   * A stable descending sort is unique: two sequences ordered by count descending that agree,
   * count by count, on the order of their entries are equal.
   */
  lemma {:induction false} SortByCountDescUnique<K>(a: Counts<K>, b: Counts<K>)
    requires SortedDesc(a) && SortedDesc(b)
    requires forall c :: WithCount(a, c) == WithCount(b, c)
    ensures a == b
    decreases |a|
  {
    if a == [] || b == [] {
      WithCountHead(a);
      WithCountHead(b);
    } else {
      var ca, cb := a[0].value, b[0].value;
      assert WithCount(b, ca) != [] by { assert WithCount(a, ca) != []; }
      WithCountMember(b, ca);
      assert WithCount(a, cb) != [] by { assert WithCount(b, cb) != []; }
      WithCountMember(a, cb);
      assert ca == cb;
      WithCountOfSortedHead(a);
      WithCountOfSortedHead(b);
      assert a[0] == WithCount(a, ca)[0] == WithCount(b, ca)[0] == b[0];
      assert SortedDesc(a[1..]) && SortedDesc(b[1..]);
      forall c ensures WithCount(a[1..], c) == WithCount(b[1..], c) {
        if c == ca {
          assert WithCount(a[1..], c) == WithCount(a, c)[1..];
          assert WithCount(b[1..], c) == WithCount(b, c)[1..];
        }
      }
      SortByCountDescUnique(a[1..], b[1..]);
      assert a == [a[0]] + a[1..] && b == [b[0]] + b[1..];
    }
  }

  // ---------------------------------------------------------------------------
  // Weighted sums over a dict with integer keys (length -> occurrences)
  // ---------------------------------------------------------------------------

  function Sum(xs: seq<int>): int {
    if xs == [] then 0 else xs[0] + Sum(xs[1..])
  }

  /** `sum(key * value for key, value in d.items())` */
  function WeightedSum(d: Counts<int>): int {
    if d == [] then 0 else d[0].key * d[0].value + WeightedSum(d[1..])
  }

  lemma {:induction false} WeightedSumBump(d: Counts<int>, k: int)
    ensures WeightedSum(Bump(d, k)) == WeightedSum(d) + k
    decreases |d|
  {
    if d != [] && d[0].key != k {
      WeightedSumBump(d[1..], k);
      assert Bump(d, k)[1..] == Bump(d[1..], k);
    } else if d != [] {
      assert Bump(d, k)[1..] == d[1..];
    }
  }

  lemma {:induction false} SumAppend(xs: seq<int>, x: int)
    ensures Sum(xs + [x]) == Sum(xs) + x
    decreases |xs|
  {
    if xs != [] {
      SumAppend(xs[1..], x);
      assert (xs + [x])[1..] == xs[1..] + [x];
    }
  }

  /** A tally of lengths weighs out to the sum of the lengths tallied. */
  lemma {:induction false} WeightedSumTally(xs: seq<int>)
    ensures WeightedSum(Tally(xs)) == Sum(xs)
    decreases |xs|
  {
    if xs != [] {
      var p, x := xs[..|xs| - 1], xs[|xs| - 1];
      WeightedSumTally(p);
      WeightedSumBump(Tally(p), x);
      SumAppend(p, x);
      assert xs == p + [x];
    }
  }

  lemma {:induction false} WeightedSumInsertDesc(e: Entry<int, int>, t: Counts<int>)
    ensures WeightedSum(InsertDesc(e, t)) == e.key * e.value + WeightedSum(t)
    decreases |t|
  {
    if t != [] && t[0].value > e.value {
      WeightedSumInsertDesc(e, t[1..]);
      assert InsertDesc(e, t)[1..] == InsertDesc(e, t[1..]);
    } else {
      assert InsertDesc(e, t)[1..] == t;
    }
  }

  /** Sorting a dict does not change its weighted sum. */
  lemma {:induction false} WeightedSumSort(d: Counts<int>)
    ensures WeightedSum(SortByCountDesc(d)) == WeightedSum(d)
    decreases |d|
  {
    if d != [] {
      WeightedSumSort(d[1..]);
      WeightedSumInsertDesc(d[0], SortByCountDesc(d[1..]));
    }
  }

  /** `a` is `b` with some elements left out, the rest kept in order. */
  predicate IsSubsequence<T(==)>(a: seq<T>, b: seq<T>)
    decreases |b|
  {
    a == [] || (b != [] && ((a[0] == b[0] && IsSubsequence(a[1..], b[1..])) || IsSubsequence(a, b[1..])))
  }
}
