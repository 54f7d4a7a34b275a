/**
 * `percentile` of the scaling test: sort the samples, then interpolate linearly between
 * the two ranks around `(n - 1) * p / 100`. Also Python's `min`, `max` and `sorted` on
 * lists of floats, which it and the summary rely on.
 */
module Stats {

  predicate Sorted(s: seq<real>) {
    forall i, j :: 0 <= i < j < |s| ==> s[i] <= s[j]
  }

  /** `min(s)`. */
  function SeqMin(s: seq<real>): (m: real)
    requires |s| > 0
    ensures m in s && forall k :: 0 <= k < |s| ==> m <= s[k]
  {
    if |s| == 1 then s[0]
    else
      var m := SeqMin(s[..|s| - 1]);
      if s[|s| - 1] < m then s[|s| - 1] else m
  }

  /** `max(s)`. */
  function SeqMax(s: seq<real>): (m: real)
    requires |s| > 0
    ensures m in s && forall k :: 0 <= k < |s| ==> s[k] <= m
  {
    if |s| == 1 then s[0]
    else
      var m := SeqMax(s[..|s| - 1]);
      if s[|s| - 1] > m then s[|s| - 1] else m
  }

  /** Put `x` into an ascending sequence. */
  function Insert(x: real, s: seq<real>): (r: seq<real>)
    requires Sorted(s)
    ensures Sorted(r) && multiset(r) == multiset(s) + multiset{x}
  {
    if s == [] then [x]
    else if x <= s[0] then
      ConsSorted(x, s);
      [x] + s
    else
      var rest := Insert(x, s[1..]);
      InsertBehind(x, s, rest);
      [s[0]] + rest
  }

  lemma ConsSorted(h: real, t: seq<real>)
    requires Sorted(t) && (|t| > 0 ==> h <= t[0])
    ensures Sorted([h] + t)
  {
  }

  /** `x` placed behind the head of `s`, into the rest. */
  lemma InsertBehind(x: real, s: seq<real>, rest: seq<real>)
    requires Sorted(s) && |s| > 0 && s[0] < x
    requires Sorted(rest) && multiset(rest) == multiset(s[1..]) + multiset{x}
    ensures Sorted([s[0]] + rest) && multiset([s[0]] + rest) == multiset(s) + multiset{x}
  {
    assert s == [s[0]] + s[1..];
    LowerBound(s[0], s[1..], x, rest);
  }

  lemma LowerBound(lo: real, s: seq<real>, x: real, r: seq<real>)
    requires forall k :: 0 <= k < |s| ==> lo <= s[k]
    requires lo <= x && multiset(r) == multiset(s) + multiset{x}
    ensures forall k :: 0 <= k < |r| ==> lo <= r[k]
  {
    forall k | 0 <= k < |r| ensures lo <= r[k] {
      assert r[k] in multiset(r);
      if r[k] != x {
        assert r[k] in multiset(s);
        var i :| 0 <= i < |s| && s[i] == r[k];
      }
    }
  }

  /** `sorted(s)`: the same samples in ascending order. */
  function SortReals(s: seq<real>): (r: seq<real>)
    ensures Sorted(r) && multiset(r) == multiset(s) && |r| == |s|
  {
    if s == [] then []
    else
      assert s == s[..|s| - 1] + [s[|s| - 1]];
      var r := Insert(s[|s| - 1], SortReals(s[..|s| - 1]));
      assert |r| == |multiset(r)|;
      r
  }

  /** Two ascending arrangements of the same samples are the same sequence. */
  lemma {:induction false} SortedUnique(a: seq<real>, b: seq<real>)
    requires Sorted(a) && Sorted(b) && multiset(a) == multiset(b)
    ensures a == b
  {
    assert |a| == |multiset(a)| == |multiset(b)| == |b|;
    if a != [] {
      SameHead(a, b);
      Tail(a);
      Tail(b);
      SortedUnique(a[1..], b[1..]);
      assert a == [a[0]] + a[1..] && b == [b[0]] + b[1..];
    }
  }

  lemma SameHead(a: seq<real>, b: seq<real>)
    requires Sorted(a) && Sorted(b) && multiset(a) == multiset(b) && |a| > 0 && |b| > 0
    ensures a[0] == b[0]
  {
    assert a[0] in multiset(b);
    assert b[0] in multiset(a);
    var i :| 0 <= i < |a| && a[i] == b[0];
    var j :| 0 <= j < |b| && b[j] == a[0];
    assert a[0] <= a[i] && b[0] <= b[j];
  }

  lemma Tail(a: seq<real>)
    requires |a| > 0
    ensures Sorted(a) ==> Sorted(a[1..])
    ensures multiset(a[1..]) == multiset(a) - multiset{a[0]}
  {
    assert a == [a[0]] + a[1..];
    assert multiset(a) == multiset{a[0]} + multiset(a[1..]);
  }

  /** The first element of the sorted samples is their minimum, the last their maximum. */
  lemma SortedEnds(data: seq<real>)
    requires |data| > 0
    ensures var s := SortReals(data);
      |s| == |data| && s[0] == SeqMin(data) && s[|s| - 1] == SeqMax(data)
  {
    var s := SortReals(data);
    SortedFirst(data, s);
    SortedLast(data, s);
  }

  lemma SortedFirst(data: seq<real>, s: seq<real>)
    requires |data| > 0 && Sorted(s) && multiset(s) == multiset(data) && |s| == |data|
    ensures s[0] == SeqMin(data)
  {
    var lo := SeqMin(data);
    assert lo in multiset(s);
    var i :| 0 <= i < |s| && s[i] == lo;
    assert s[0] <= s[i];
    assert s[0] in multiset(data);
    var j :| 0 <= j < |data| && data[j] == s[0];
    assert lo <= data[j];
  }

  lemma SortedLast(data: seq<real>, s: seq<real>)
    requires |data| > 0 && Sorted(s) && multiset(s) == multiset(data) && |s| == |data|
    ensures s[|s| - 1] == SeqMax(data)
  {
    var hi := SeqMax(data);
    assert hi in multiset(s);
    var i :| 0 <= i < |s| && s[i] == hi;
    assert s[i] <= s[|s| - 1];
    assert s[|s| - 1] in multiset(data);
    var j :| 0 <= j < |data| && data[j] == s[|s| - 1];
    assert data[j] <= hi;
  }

  /** Linear interpolation at fractional rank `k` of ascending samples `s`. */
  function Interpolate(s: seq<real>, k: real): real
    requires |s| > 0 && 0.0 <= k <= (|s| - 1) as real
  {
    var f := k.Floor;
    var c := Ceiling(|s|, f);
    s[f] + (k - f as real) * (s[c] - s[f])
  }

  /** `min(f + 1, n - 1)`: the upper neighbour of rank `f`. */
  function Ceiling(n: nat, f: int): (c: int)
    requires 0 <= f < n
    ensures f <= c < n && (c == f + 1 || c == f)
    ensures f + 1 < n ==> c == f + 1
  {
    if f + 1 < n - 1 then f + 1 else n - 1
  }

  function Rank(n: nat, p: real): (k: real)
    requires n > 0 && 0.0 <= p <= 100.0
    ensures 0.0 <= k <= (n - 1) as real
  {
    var m := (n - 1) as real;
    var t := p / 100.0;
    ScaleBelow(t, m);
    t * m
  }

  lemma ScaleBelow(t: real, m: real)
    requires m >= 0.0 && 0.0 <= t <= 1.0
    ensures 0.0 <= t * m <= m
  {
  }

  lemma ScaleMonotone(t1: real, t2: real, m: real)
    requires m >= 0.0 && t1 <= t2
    ensures t1 * m <= t2 * m
  {
  }

  /**
   * `percentile(data, p)`: 0.0 for no samples, otherwise the interpolated value. The
   * load tester only asks for p in {50, 90, 95, 99}.
   */
  function Percentile(data: seq<real>, p: real): (r: real)
    requires 0.0 <= p <= 100.0
    ensures data == [] ==> r == 0.0
  {
    if data == [] then 0.0
    else Interpolate(SortReals(data), Rank(|data|, p))
  }

  lemma InterpolateBetween(s: seq<real>, k: real)
    requires |s| > 0 && 0.0 <= k <= (|s| - 1) as real && Sorted(s)
    ensures s[k.Floor] <= Interpolate(s, k)
    ensures k.Floor + 1 < |s| ==> Interpolate(s, k) <= s[k.Floor + 1]
    ensures k.Floor + 1 >= |s| ==> Interpolate(s, k) == s[k.Floor]
  {
    var f := k.Floor;
    var c := Ceiling(|s|, f);
    var t := k - f as real;
    var d := s[c] - s[f];
    assert 0.0 <= t <= 1.0;
    assert d >= 0.0;
    ScaleBelow(t, d);
    assert Interpolate(s, k) == s[f] + t * d;
  }

  /** Interpolation never decreases as the rank grows. */
  lemma InterpolateMonotone(s: seq<real>, k1: real, k2: real)
    requires |s| > 0 && 0.0 <= k1 <= k2 <= (|s| - 1) as real && Sorted(s)
    ensures Interpolate(s, k1) <= Interpolate(s, k2)
  {
    var f1, f2 := k1.Floor, k2.Floor;
    if f1 == f2 {
      InterpolateSameFloor(s, k1, k2);
    } else {
      InterpolateBetween(s, k1);
      InterpolateBetween(s, k2);
      assert f1 + 1 <= f2 < |s|;
      var upper := s[f1 + 1];
      assert Interpolate(s, k1) <= upper;
      assert upper <= s[f2];
    }
  }

  lemma InterpolateSameFloor(s: seq<real>, k1: real, k2: real)
    requires |s| > 0 && 0.0 <= k1 <= k2 <= (|s| - 1) as real && Sorted(s) && k1.Floor == k2.Floor
    ensures Interpolate(s, k1) <= Interpolate(s, k2)
  {
    var f := k1.Floor;
    var c := Ceiling(|s|, f);
    var d := s[c] - s[f];
    assert d >= 0.0;
    var t1, t2 := k1 - f as real, k2 - f as real;
    ScaleMonotone(t1, t2, d);
    assert Interpolate(s, k1) == s[f] + t1 * d;
    assert Interpolate(s, k2) == s[f] + t2 * d;
  }

  /** Every percentile lies between the smallest and the largest sample. */
  lemma PercentileBounds(data: seq<real>, p: real)
    requires |data| > 0 && 0.0 <= p <= 100.0
    ensures SeqMin(data) <= Percentile(data, p) <= SeqMax(data)
  {
    var s := SortReals(data);
    SortedEnds(data);
    var k := Rank(|data|, p);
    InterpolateMonotone(s, 0.0, k);
    InterpolateMonotone(s, k, (|s| - 1) as real);
    InterpolateBetween(s, 0.0);
    InterpolateBetween(s, (|s| - 1) as real);
  }

  /** `percentile(data, 0)` is `min(data)`. */
  lemma PercentileZero(data: seq<real>)
    requires |data| > 0
    ensures Percentile(data, 0.0) == SeqMin(data)
  {
    SortedEnds(data);
    InterpolateBetween(SortReals(data), 0.0);
  }

  /** `percentile(data, 100)` is `max(data)`. */
  lemma PercentileHundred(data: seq<real>)
    requires |data| > 0
    ensures Percentile(data, 100.0) == SeqMax(data)
  {
    SortedEnds(data);
    var s := SortReals(data);
    assert Rank(|data|, 100.0) == (|s| - 1) as real;
    InterpolateBetween(s, (|s| - 1) as real);
  }

  /** A higher percentile is never smaller. */
  lemma PercentileMonotone(data: seq<real>, p: real, q: real)
    requires 0.0 <= p <= q <= 100.0
    ensures Percentile(data, p) <= Percentile(data, q)
  {
    if data != [] {
      RankMonotone(|data|, p, q);
      InterpolateMonotone(SortReals(data), Rank(|data|, p), Rank(|data|, q));
    }
  }

  lemma RankMonotone(n: nat, p: real, q: real)
    requires n > 0 && 0.0 <= p <= q <= 100.0
    ensures Rank(n, p) <= Rank(n, q)
  {
    var m := (n - 1) as real;
    var t1, t2 := p / 100.0, q / 100.0;
    ScaleMonotone(t1, t2, m);
    assert Rank(n, p) == t1 * m;
    assert Rank(n, q) == t2 * m;
  }

  /** The order in which the samples arrive does not matter. */
  lemma PercentileOrderFree(a: seq<real>, b: seq<real>, p: real)
    requires multiset(a) == multiset(b) && 0.0 <= p <= 100.0
    ensures Percentile(a, p) == Percentile(b, p)
  {
    SortedUnique(SortReals(a), SortReals(b));
    assert |a| == |multiset(a)| == |multiset(b)| == |b|;
  }
}
