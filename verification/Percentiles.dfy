/** Sorting samples, and what a nearest-rank percentile is. */
module Percentiles {

  predicate Ascending(s: seq<int>) {
    forall i, j :: 0 <= i < j < |s| ==> s[i] <= s[j]
  }

  function Insert(x: int, s: seq<int>): seq<int> {
    if s == [] || x <= s[0] then [x] + s else [s[0]] + Insert(x, s[1..])
  }

  /** Array.prototype.sort with a numeric comparison. */
  function Sort(s: seq<int>): seq<int> {
    if s == [] then [] else Insert(s[0], Sort(s[1..]))
  }

  function CountAtMost(s: seq<int>, v: int): nat {
    if s == [] then 0 else (if s[0] <= v then 1 else 0) + CountAtMost(s[1..], v)
  }

  /** `v` is the least sample that at least `p` percent of the samples do not exceed. */
  ghost predicate NearestRank(samples: seq<int>, p: real, v: int) {
    && v in samples
    && 100.0 * CountAtMost(samples, v) as real >= p * |samples| as real
    && 100.0 * CountAtMost(samples, v - 1) as real < p * |samples| as real
  }

  lemma {:induction false} CountMonotone(s: seq<int>, v: int, w: int)
    requires v <= w
    ensures CountAtMost(s, v) <= CountAtMost(s, w)
  {
    if s != [] {
      CountMonotone(s[1..], v, w);
    }
  }

  lemma NearestRankUnique(samples: seq<int>, p: real, v: int, w: int)
    requires NearestRank(samples, p, v) && NearestRank(samples, p, w)
    ensures v == w
  {
    if v < w {
      CountMonotone(samples, v, w - 1);
    } else if w < v {
      CountMonotone(samples, w, v - 1);
    }
  }

  lemma {:induction false} InsertElements(x: int, s: seq<int>)
    ensures multiset(Insert(x, s)) == multiset{x} + multiset(s)
    ensures |Insert(x, s)| == |s| + 1
  {
    if s != [] && x > s[0] {
      InsertElements(x, s[1..]);
      assert s == [s[0]] + s[1..];
    }
  }

  lemma {:induction false} InsertAscending(x: int, s: seq<int>)
    requires Ascending(s)
    ensures Ascending(Insert(x, s))
    ensures x <= Insert(x, s)[0] || (s != [] && s[0] <= Insert(x, s)[0])
  {
    if s != [] && x > s[0] {
      InsertAscending(x, s[1..]);
      PrependAscending(s[0], Insert(x, s[1..]));
    }
  }

  lemma PrependAscending(x: int, s: seq<int>)
    requires Ascending(s) && (s != [] ==> x <= s[0])
    ensures Ascending([x] + s)
  {
  }

  lemma {:induction false} InsertCounts(x: int, s: seq<int>, v: int)
    ensures CountAtMost(Insert(x, s), v) == CountAtMost([x] + s, v)
  {
    assert ([x] + s)[1..] == s;
    if s != [] && x > s[0] {
      InsertCounts(x, s[1..], v);
      assert ([x] + s[1..])[1..] == s[1..];
    }
  }

  lemma {:induction false} SortKeeps(s: seq<int>)
    ensures Ascending(Sort(s)) && multiset(Sort(s)) == multiset(s) && |Sort(s)| == |s|
  {
    if s != [] {
      SortKeeps(s[1..]);
      InsertElements(s[0], Sort(s[1..]));
      InsertAscending(s[0], Sort(s[1..]));
      assert s == [s[0]] + s[1..];
    }
  }

  lemma {:induction false} SortCounts(s: seq<int>, v: int)
    ensures CountAtMost(Sort(s), v) == CountAtMost(s, v)
  {
    if s != [] {
      SortCounts(s[1..], v);
      InsertCounts(s[0], Sort(s[1..]), v);
      assert ([s[0]] + Sort(s[1..]))[1..] == Sort(s[1..]);
    }
  }

  /** In ascending order, at least `k + 1` entries are at most the one at `k`, and at most
      `k` are below it. */
  lemma {:induction false} CountAscending(s: seq<int>, k: nat)
    requires Ascending(s) && k < |s|
    ensures CountAtMost(s, s[k]) >= k + 1 && CountAtMost(s, s[k] - 1) <= k
  {
    if k > 0 {
      CountAscending(s[1..], k - 1);
    } else {
      CountNone(s, s[0] - 1);
    }
  }

  lemma {:induction false} CountNone(s: seq<int>, v: int)
    requires forall i :: 0 <= i < |s| ==> s[i] > v
    ensures CountAtMost(s, v) == 0
  {
    if s != [] {
      CountNone(s[1..], v);
    }
  }

  function Ceil(x: real): int {
    -((-x).Floor)
  }

  lemma CeilBounds(x: real, n: int)
    requires 0.0 < x <= n as real
    ensures 1 <= Ceil(x) <= n && Ceil(x) as real - 1.0 < x <= Ceil(x) as real
  {
  }

  lemma PercentOf(p: real, n: real)
    requires 0.0 < p <= 100.0 && n > 0.0
    ensures 0.0 < p / 100.0 * n <= n && 100.0 * (p / 100.0 * n) == p * n
  {
  }

  /** The index the source computes picks the nearest rank of the sorted samples. */
  lemma IndexIsNearestRank(sorted: seq<int>, p: real)
    requires Ascending(sorted) && sorted != [] && 0.0 < p <= 100.0
    ensures var k := Ceil(p / 100.0 * |sorted| as real) - 1;
            0 <= k < |sorted| && NearestRank(sorted, p, sorted[k])
  {
    PercentOf(p, |sorted| as real);
    CeilBounds(p / 100.0 * |sorted| as real, |sorted|);
    hide Ceil, Ascending, CountAtMost;
    CountAscending(sorted, Ceil(p / 100.0 * |sorted| as real) - 1);
  }
}
