/**
 * Id-keyed tables. Every table of the store is a map from the integer primary
 * key to the row; an auto-increment key means that every key lies in
 * [1, next) where `next` is the id the next inserted row receives. A query
 * without ORDER BY is taken to scan keys in ascending order, so `.first()` is
 * the smallest matching key.
 */
module Tables {
  import opened Wrappers

  /** Every key of `m` was handed out by an auto-increment counter now at `next`. */
  predicate IdsBelow<T>(m: map<int, T>, next: int) {
    forall k :: k in m ==> 1 <= k < next
  }

  /** `.filter(p).first()` over the keys in [lo, hi): the smallest matching key, if any. */
  function FirstKey<T>(m: map<int, T>, p: T -> bool, lo: int, hi: int): (r: Option<int>)
    ensures r.Some? ==> lo <= r.value < hi && r.value in m && p(m[r.value])
    ensures r.Some? ==> forall k :: lo <= k < r.value && k in m ==> !p(m[k])
    ensures r.None? ==> forall k :: lo <= k < hi && k in m ==> !p(m[k])
    decreases hi - lo
  {
    if lo >= hi then None
    else if lo in m && p(m[lo]) then Some(lo)
    else FirstKey(m, p, lo + 1, hi)
  }

  /** Two tables whose rows agree on `p` find the same first key. */
  lemma {:induction false} FirstKeyAgrees<T>(m: map<int, T>, m': map<int, T>, p: T -> bool, lo: int, hi: int)
    requires m.Keys == m'.Keys && forall k :: k in m ==> p(m[k]) == p(m'[k])
    ensures FirstKey(m, p, lo, hi) == FirstKey(m', p, lo, hi)
    decreases hi - lo
  {
    if lo < hi {
      FirstKeyAgrees(m, m', p, lo + 1, hi);
    }
  }

  /** `.filter(p).count()` over the keys in [1, hi). */
  function Count<T>(m: map<int, T>, p: T -> bool, hi: int): (n: nat)
    ensures n <= if hi <= 1 then 0 else hi - 1
    ensures n == 0 <== forall k :: 1 <= k < hi && k in m ==> !p(m[k])
    decreases hi
  {
    if hi <= 1 then 0
    else Count(m, p, hi - 1) + (if hi - 1 in m && p(m[hi - 1]) then 1 else 0)
  }

  /** `func.sum(f)` over the keys in [1, hi). */
  function Sum<T>(m: map<int, T>, f: T -> int, hi: int): int
    decreases hi
  {
    if hi <= 1 then 0 else Sum(m, f, hi - 1) + (if hi - 1 in m then f(m[hi - 1]) else 0)
  }

  /** A predicate that holds of fewer rows counts fewer rows. */
  lemma {:induction false} CountMonotonic<T>(m: map<int, T>, p: T -> bool, q: T -> bool, hi: int)
    requires forall k :: k in m && p(m[k]) ==> q(m[k])
    ensures Count(m, p, hi) <= Count(m, q, hi)
    decreases hi
  {
    if hi > 1 {
      CountMonotonic(m, p, q, hi - 1);
    }
  }

  /** Two tables with the same rows below `hi` count alike below `hi`. */
  lemma {:induction false} CountAgrees<T>(m: map<int, T>, m': map<int, T>, p: T -> bool, hi: int)
    requires forall k :: 1 <= k < hi ==> (k in m <==> k in m') && (k in m ==> m[k] == m'[k])
    ensures Count(m, p, hi) == Count(m', p, hi)
    decreases hi
  {
    if hi > 1 {
      CountAgrees(m, m', p, hi - 1);
    }
  }

  /** Replacing one existing row changes a sum by the difference of that row's terms. */
  lemma {:induction false} SumUpdate<T>(m: map<int, T>, f: T -> int, hi: int, key: int, row: T)
    requires key in m && 1 <= key < hi
    ensures Sum(m[key := row], f, hi) == Sum(m, f, hi) - f(m[key]) + f(row)
    decreases hi
  {
    if hi - 1 != key {
      SumUpdate(m, f, hi - 1, key, row);
    } else {
      SumAgrees(m[key := row], m, f, hi - 1);
    }
  }

  /** Two tables with the same rows below `hi` sum alike below `hi`. */
  lemma {:induction false} SumAgrees<T>(m: map<int, T>, m': map<int, T>, f: T -> int, hi: int)
    requires forall k :: 1 <= k < hi ==> (k in m <==> k in m') && (k in m ==> m[k] == m'[k])
    ensures Sum(m, f, hi) == Sum(m', f, hi)
    decreases hi
  {
    if hi > 1 {
      SumAgrees(m, m', f, hi - 1);
    }
  }

  /** A sum of terms that are all zero is zero. */
  lemma {:induction false} SumOfZeros<T>(m: map<int, T>, f: T -> int, hi: int)
    requires forall k :: k in m ==> f(m[k]) == 0
    ensures Sum(m, f, hi) == 0
    decreases hi
  {
    if hi > 1 {
      SumOfZeros(m, f, hi - 1);
    }
  }

  /** A sum of non-negative terms is non-negative. */
  lemma {:induction false} SumNonNegative<T>(m: map<int, T>, f: T -> int, hi: int)
    requires forall k :: k in m ==> f(m[k]) >= 0
    ensures Sum(m, f, hi) >= 0
    decreases hi
  {
    if hi > 1 {
      SumNonNegative(m, f, hi - 1);
    }
  }

  /**
   * A list comprehension with a condition, or `.filter(...).all()` over rows
   * already listed in scan order: the rows satisfying `p`, in order.
   */
  function Filter<T>(s: seq<T>, p: T -> bool): (r: seq<T>)
    ensures |r| <= |s|
    ensures forall i :: 0 <= i < |r| ==> p(r[i])
    decreases |s|
  {
    if s == [] then [] else (if p(s[0]) then [s[0]] else []) + Filter(s[1..], p)
  }

  /** Filtering adds nothing: every kept row was a row before. */
  lemma {:induction false} FilterSubset<T>(s: seq<T>, p: T -> bool)
    ensures forall i :: 0 <= i < |Filter(s, p)| ==> Filter(s, p)[i] in s
    decreases |s|
  {
    if s != [] {
      FilterSubset(s[1..], p);
      var rest := Filter(s[1..], p);
      forall i | 0 <= i < |rest|
        ensures rest[i] in s
      {
        assert rest[i] in s[1..];
      }
    }
  }

  /** Filtering loses nothing: every row that satisfies the condition is kept. */
  lemma {:induction false} FilterComplete<T>(s: seq<T>, p: T -> bool)
    ensures forall i :: 0 <= i < |s| && p(s[i]) ==> s[i] in Filter(s, p)
    decreases |s|
  {
    if s != [] {
      FilterComplete(s[1..], p);
      forall i | 1 <= i < |s| && p(s[i])
        ensures s[i] in Filter(s, p)
      {
        assert s[i] == s[1..][i - 1];
      }
    }
  }

  /** A condition every row satisfies keeps the whole list. */
  lemma {:induction false} FilterAll<T>(s: seq<T>, p: T -> bool)
    requires forall i :: 0 <= i < |s| ==> p(s[i])
    ensures Filter(s, p) == s
    decreases |s|
  {
    if s != [] {
      FilterAll(s[1..], p);
    }
  }

  /** Filtering a concatenation filters each part. */
  lemma {:induction false} FilterAppend<T>(a: seq<T>, b: seq<T>, p: T -> bool)
    ensures Filter(a + b, p) == Filter(a, p) + Filter(b, p)
    decreases |a|
  {
    if a == [] {
      assert a + b == b;
    } else {
      assert (a + b)[1..] == a[1..] + b;
      FilterAppend(a[1..], b, p);
    }
  }

  /** Filtering one row keeps it or drops it. */
  lemma FilterOne<T>(x: T, p: T -> bool)
    ensures Filter([x], p) == if p(x) then [x] else []
  {
    assert [x][1..] == [];
  }

  /** Two filters applied one after the other keep exactly the rows satisfying both. */
  lemma {:induction false} FilterTwice<T>(s: seq<T>, p: T -> bool, q: T -> bool, both: T -> bool)
    requires forall x :: both(x) == (p(x) && q(x))
    ensures Filter(Filter(s, p), q) == Filter(s, both)
    decreases |s|
  {
    if s != [] {
      FilterTwice(s[1..], p, q, both);
      if p(s[0]) {
        assert Filter(s, p) == [s[0]] + Filter(s[1..], p);
        assert Filter(s, p)[1..] == Filter(s[1..], p);
      } else {
        assert Filter(s, p) == Filter(s[1..], p);
      }
    }
  }

  /** A loop that has walked one more item has walked the old prefix and that item. */
  lemma PrefixExtend<T>(s: seq<T>, i: int)
    requires 0 <= i < |s|
    ensures s[..i + 1] == s[..i] + [s[i]]
  {
  }

  /** Python's `s[:n]`: the first `n` items, or all of them when there are fewer. */
  function Take<T>(s: seq<T>, n: nat): (r: seq<T>)
    ensures |r| == if |s| < n then |s| else n
    ensures r == s[..|r|]
  {
    if |s| <= n then s else s[..n]
  }

  /** Two predicates that agree everywhere filter alike. */
  lemma {:induction false} FilterAgrees<T>(s: seq<T>, p: T -> bool, q: T -> bool)
    requires forall x :: p(x) == q(x)
    ensures Filter(s, p) == Filter(s, q)
    decreases |s|
  {
    if s != [] {
      FilterAgrees(s[1..], p, q);
    }
  }

  /** A row together with its primary key. */
  datatype Keyed<T> = Keyed(id: int, row: T)

  /** Keys strictly increase along the sequence (so no key is listed twice). */
  predicate Ascending<T>(s: seq<Keyed<T>>) {
    forall i, j :: 0 <= i < j < |s| ==> s[i].id < s[j].id
  }

  /** Filtering rows whose keys all exceed `bound` leaves such rows only. */
  lemma {:induction false} FilterKeysAbove<T>(s: seq<Keyed<T>>, p: Keyed<T> -> bool, bound: int)
    requires forall i :: 0 <= i < |s| ==> bound < s[i].id
    ensures forall i :: 0 <= i < |Filter(s, p)| ==> bound < Filter(s, p)[i].id
    decreases |s|
  {
    if s != [] {
      FilterKeysAbove(s[1..], p, bound);
    }
  }

  /** Filtering keeps the rows in their order. */
  lemma {:induction false} FilterAscending<T>(s: seq<Keyed<T>>, p: Keyed<T> -> bool)
    requires Ascending(s)
    ensures Ascending(Filter(s, p))
    decreases |s|
  {
    if s != [] {
      FilterAscending(s[1..], p);
      if p(s[0]) {
        FilterKeysAbove(s[1..], p, s[0].id);
        AscendingCons(s[0], Filter(s[1..], p));
      }
    }
  }

  lemma AscendingCons<T>(x: Keyed<T>, rest: seq<Keyed<T>>)
    requires Ascending(rest) && forall i :: 0 <= i < |rest| ==> x.id < rest[i].id
    ensures Ascending([x] + rest)
  {
    var f := [x] + rest;
    forall i, j | 0 <= i < j < |f|
      ensures f[i].id < f[j].id
    {
      assert f[j] == rest[j - 1];
      if i > 0 {
        assert f[i] == rest[i - 1];
      }
    }
  }

  /** `if guard: query = query.filter(cond)`: one more condition, added only when its guard holds. */
  function Refine<T>(s: seq<T>, guard: bool, cond: T -> bool): seq<T> {
    if guard then Filter(s, cond) else s
  }

  /**
   * A refined filter is one filter whose condition is the old one and, when
   * the guard holds, the new one: the conditions of a query built step by
   * step are joined with AND.
   */
  lemma RefineStep<T>(s: seq<T>, base: T -> bool, guard: bool, cond: T -> bool, both: T -> bool)
    requires forall x :: both(x) == (base(x) && (guard ==> cond(x)))
    ensures Refine(Filter(s, base), guard, cond) == Filter(s, both)
  {
    if guard {
      FilterTwice(s, base, cond, both);
    } else {
      FilterAgrees(s, base, both);
    }
  }

  /** `.all()` without ORDER BY: the rows with keys in [1, hi), in ascending key order. */
  function Scan<T>(m: map<int, T>, hi: int): (r: seq<Keyed<T>>)
    ensures forall i :: 0 <= i < |r| ==> 1 <= r[i].id < hi && r[i].id in m && m[r[i].id] == r[i].row
    ensures Ascending(r)
    decreases hi
  {
    if hi <= 1 then [] else Scan(m, hi - 1) + (if hi - 1 in m then [Keyed(hi - 1, m[hi - 1])] else [])
  }

  /** Every row with a key below `hi` is listed by the scan. */
  lemma {:induction false} ScanComplete<T>(m: map<int, T>, hi: int, k: int)
    requires 1 <= k < hi && k in m
    ensures Keyed(k, m[k]) in Scan(m, hi)
    decreases hi
  {
    if k < hi - 1 {
      ScanComplete(m, hi - 1, k);
    }
  }

  /** A condition on rows as a condition on keyed rows. */
  function OnRow<T>(p: T -> bool): Keyed<T> -> bool {
    (k: Keyed<T>) => p(k.row)
  }

  /** `len(query.filter(p).all()) == query.filter(p).count()`. */
  lemma {:induction false} ScanCount<T>(m: map<int, T>, p: T -> bool, hi: int)
    ensures |Filter(Scan(m, hi), OnRow(p))| == Count(m, p, hi)
    decreases hi
  {
    if hi > 1 {
      ScanCount(m, p, hi - 1);
      FilterAppend(Scan(m, hi - 1), if hi - 1 in m then [Keyed(hi - 1, m[hi - 1])] else [], OnRow(p));
    }
  }

  /** `RefineStep` for conditions on the rows of a scan. */
  lemma RefineRows<T>(s: seq<Keyed<T>>, base: T -> bool, guard: bool, cond: T -> bool, both: T -> bool)
    requires forall x :: both(x) == (base(x) && (guard ==> cond(x)))
    ensures Refine(Filter(s, OnRow(base)), guard, OnRow(cond)) == Filter(s, OnRow(both))
  {
    forall k: Keyed<T>
      ensures OnRow(both)(k) == (OnRow(base)(k) && (guard ==> OnRow(cond)(k)))
    {
      assert OnRow(both)(k) == both(k.row);
      assert OnRow(base)(k) == base(k.row);
      assert OnRow(cond)(k) == cond(k.row);
    }
    RefineStep(s, OnRow(base), guard, OnRow(cond), OnRow(both));
  }

  function Min(a: int, b: int): int { if a <= b then a else b }

  const PageSize := 20

  /**
   * `.offset((page - 1) * 20).limit(20).all()` over the query's results; a
   * negative offset is rejected by the database, which is `None`.
   */
  function PageSlice<T>(results: seq<T>, page: int): (r: Option<seq<T>>)
    ensures r.None? <==> page < 1
    ensures r.Some? ==> |r.value| <= PageSize
    ensures r.Some? ==> (page - 1) * PageSize >= |results| ==> r.value == []
    ensures r.Some? && (page - 1) * PageSize < |results| ==>
      r.value == results[(page - 1) * PageSize..Min(page * PageSize, |results|)]
  {
    if page < 1 then None
    else
      var lo := (page - 1) * PageSize;
      if lo >= |results| then Some([]) else Some(results[lo..Min(lo + PageSize, |results|)])
  }

  /** Item i of page `page` is result `(page - 1) * 20 + i`. */
  lemma PageSliceItem<T>(results: seq<T>, page: int, i: int)
    requires page >= 1 && 0 <= i < |PageSlice(results, page).value|
    ensures (page - 1) * PageSize + i < |results|
    ensures PageSlice(results, page).value[i] == results[(page - 1) * PageSize + i]
  {
  }

  /** `has_next`, computed as `total > page * 20`, says exactly that the following page is not empty. */
  lemma HasNextMeansMore<T>(results: seq<T>, page: int)
    requires page >= 1
    ensures |results| > page * PageSize <==> PageSlice(results, page + 1).value != []
  {
    if |results| > page * PageSize {
      assert PageSlice(results, page + 1).value == results[page * PageSize..Min((page + 1) * PageSize, |results|)];
    }
  }

  /** The items of pages 1 to n, one page after the other. */
  function FirstPages<T>(results: seq<T>, n: nat): seq<T> {
    if n == 0 then [] else FirstPages(results, n - 1) + PageSlice(results, n).value
  }

  /** Pages 1 to n list the results from the start, without gap or overlap. */
  lemma {:induction false} PagesTile<T>(results: seq<T>, n: nat)
    ensures FirstPages(results, n) == results[..Min(n * PageSize, |results|)]
  {
    if n > 0 {
      PagesTile(results, n - 1);
      var before := Min((n - 1) * PageSize, |results|);
      if (n - 1) * PageSize < |results| {
        assert results[..before] + results[before..Min(n * PageSize, |results|)] == results[..Min(n * PageSize, |results|)];
      } else {
        assert Min(n * PageSize, |results|) == |results|;
      }
    }
  }
}
