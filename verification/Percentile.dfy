/** Interpolated percentiles of measured durations (app/performance_baseline.py), over the reals and for any
    monotone rounding. */
module Percentile {
  import opened Options

  /** Missing samples count as zero, and so do negative ones. */
  function Clamped(value: Option<real>): (r: real)
    ensures r >= 0.0
  {
    if value.Some? && value.value >= 0.0 then value.value else 0.0
  }

  ghost predicate Sorted(s: seq<real>) {
    forall i, j :: 0 <= i <= j < |s| ==> s[i] <= s[j]
  }

  function Insert(s: seq<real>, x: real): (r: seq<real>)
    ensures |r| == |s| + 1
  {
    if s == [] || s[|s| - 1] <= x then s + [x] else Insert(s[..|s| - 1], x) + [s[|s| - 1]]
  }

  /** The clamped samples in increasing order. */
  function Samples(values: seq<Option<real>>): (s: seq<real>)
    ensures |s| == |values|
  {
    if values == [] then [] else Insert(Samples(values[..|values| - 1]), Clamped(values[|values| - 1]))
  }

  function UnitClamp(q: real): (r: real)
    ensures 0.0 <= r <= 1.0
  {
    if q < 0.0 then 0.0 else if q > 1.0 then 1.0 else q
  }

  function Rank(n: nat, q: real): (r: real)
    requires n > 0
    ensures 0.0 <= r <= (n - 1) as real
  {
    ScaledMonotone((n - 1) as real, 0.0, UnitClamp(q));
    ScaledMonotone((n - 1) as real, UnitClamp(q), 1.0);
    Times((n - 1) as real, UnitClamp(q))
  }

  function Times(x: real, w: real): real {
    x * w
  }

  lemma Distributes(x: real, v: real, w: real)
    ensures x * (w - v) == x * w - x * v
  {
  }

  lemma ScaledMonotone(x: real, v: real, w: real)
    requires x >= 0.0 && v <= w
    ensures Times(x, v) <= Times(x, w) && Times(x, 0.0) == 0.0 && Times(x, 1.0) == x
  {
    var d := w - v;
    assert x * d >= 0.0;
    Distributes(x, v, w);
  }

  function Mix(x: real, y: real, w: real): real {
    x * (1.0 - w) + y * w
  }

  /** The value at a rank: a sample, or the interpolation between its two neighbours. */
  function Interpolated(s: seq<real>, rank: real): real
    requires 0.0 <= rank <= (|s| - 1) as real
  {
    var lower := rank.Floor;
    if lower as real == rank then s[lower]
    else Mix(s[lower], s[lower + 1], rank - lower as real)
  }

  /** percentile. */
  function Percentile(values: seq<Option<real>>, quantile: real, round: real -> real): real {
    var s := Samples(values);
    if s == [] then 0.0 else round(Interpolated(s, Rank(|s|, quantile)))
  }

  ghost predicate Monotone(round: real -> real) {
    forall x, y :: x <= y ==> round(x) <= round(y)
  }

  // ---------------------------------------------------------------- sorting

  lemma {:induction false} InsertAdds(s: seq<real>, x: real)
    ensures multiset(Insert(s, x)) == multiset(s) + multiset{x}
  {
    if s != [] && s[|s| - 1] > x {
      InsertAdds(s[..|s| - 1], x);
      assert s == s[..|s| - 1] + [s[|s| - 1]];
    }
  }

  lemma {:induction false} InsertSorts(s: seq<real>, x: real)
    requires Sorted(s)
    ensures Sorted(Insert(s, x)) && forall y :: y in Insert(s, x) ==> y in s || y == x
  {
    if s != [] && s[|s| - 1] > x {
      var before, last := s[..|s| - 1], s[|s| - 1];
      InsertSorts(before, x);
      var inserted := Insert(before, x);
      forall i | 0 <= i < |inserted| ensures inserted[i] <= last {
        assert inserted[i] in inserted;
      }
    }
  }

  lemma {:induction false} SamplesAreSorted(values: seq<Option<real>>)
    ensures Sorted(Samples(values))
  {
    if values != [] {
      var before, last := values[..|values| - 1], Clamped(values[|values| - 1]);
      SamplesAreSorted(before);
      InsertSorts(Samples(before), last);
    }
  }

  lemma {:induction false} SortedAsGiven(values: seq<Option<real>>)
    ensures Sorted(Samples(values)) && multiset(Samples(values)) == ClampedAll(multiset(values))
  {
    if values == [] {
      assert multiset(values) == multiset{};
    } else {
      var before, last := values[..|values| - 1], values[|values| - 1];
      SortedAsGiven(before);
      InsertSorts(Samples(before), Clamped(last));
      InsertAdds(Samples(before), Clamped(last));
      assert values == before + [last];
      WithoutLast(before, last);
      ClampedSplit(multiset(values), last);
    }
  }

  lemma WithoutLast<T>(before: seq<T>, last: T)
    ensures last in multiset(before + [last]) && multiset(before + [last]) - multiset{last} == multiset(before)
  {
  }

  lemma RemovedTwice<T>(some: multiset<T>, x: T, y: T)
    ensures some - multiset{x} - multiset{y} == some - multiset{y} - multiset{x}
    ensures x != y && x in some ==> x in some - multiset{y}
  {
  }

  lemma AddedTwice(some: multiset<real>, x: real, y: real)
    ensures some + multiset{x} + multiset{y} == some + multiset{y} + multiset{x}
  {
  }

  ghost function ClampedAll(values: multiset<Option<real>>): multiset<real> {
    if values == multiset{} then multiset{}
    else var v :| v in values; ClampedAll(values - multiset{v}) + multiset{Clamped(v)}
  }

  lemma {:induction false} ClampedSplit(values: multiset<Option<real>>, v: Option<real>)
    requires v in values
    ensures ClampedAll(values) == ClampedAll(values - multiset{v}) + multiset{Clamped(v)}
    decreases values
  {
    var u :| u in values && ClampedAll(values) == ClampedAll(values - multiset{u}) + multiset{Clamped(u)};
    if u != v {
      RemovedTwice(values, u, v);
      RemovedTwice(values, v, u);
      ClampedSplit(values - multiset{u}, v);
      ClampedSplit(values - multiset{v}, u);
      AddedTwice(ClampedAll(values - multiset{u} - multiset{v}), Clamped(u), Clamped(v));
    }
  }

  lemma AtMostLast(a: seq<real>, b: seq<real>)
    requires Sorted(b) && multiset(a) == multiset(b) && a != [] && b != []
    ensures a[|a| - 1] <= b[|b| - 1]
  {
    assert a[|a| - 1] in multiset(b);
    var i :| 0 <= i < |b| && b[i] == a[|a| - 1];
  }

  lemma WithoutLastSame(a: seq<real>, b: seq<real>, x: real)
    requires multiset(a + [x]) == multiset(b + [x])
    ensures multiset(a) == multiset(b)
  {
    WithoutLast(a, x);
    WithoutLast(b, x);
  }

  lemma {:induction false} SortingIsUnique(a: seq<real>, b: seq<real>)
    requires Sorted(a) && Sorted(b) && multiset(a) == multiset(b)
    ensures a == b
  {
    assert |multiset(a)| == |a| && |multiset(b)| == |b|;
    if a != [] {
      var x, y := a[|a| - 1], b[|b| - 1];
      AtMostLast(a, b);
      AtMostLast(b, a);
      assert a == a[..|a| - 1] + [x] && b == b[..|b| - 1] + [y];
      WithoutLastSame(a[..|a| - 1], b[..|b| - 1], x);
      SortingIsUnique(a[..|a| - 1], b[..|b| - 1]);
    }
  }

  /** The order of the samples is irrelevant. */
  lemma OrderIsIrrelevant(a: seq<Option<real>>, b: seq<Option<real>>, q: real, round: real -> real)
    requires multiset(a) == multiset(b)
    ensures Percentile(a, q, round) == Percentile(b, q, round)
  {
    SortedAsGiven(a);
    SortedAsGiven(b);
    SortingIsUnique(Samples(a), Samples(b));
  }

  // ---------------------------------------------------------------- interpolation

  lemma MixIsOffset(x: real, y: real, w: real)
    ensures Mix(x, y, w) == x + Times(y - x, w)
  {
    Distributes(x, w, 1.0);
    Distributes(w, x, y);
  }

  lemma Between(x: real, y: real, w: real)
    requires x <= y && 0.0 <= w <= 1.0
    ensures x <= Mix(x, y, w) <= y
  {
    MixIsOffset(x, y, w);
    ScaledMonotone(y - x, 0.0, w);
    ScaledMonotone(y - x, w, 1.0);
  }

  lemma WeightMonotone(x: real, y: real, v: real, w: real)
    requires x <= y && v <= w
    ensures Mix(x, y, v) <= Mix(x, y, w)
  {
    MixIsOffset(x, y, v);
    MixIsOffset(x, y, w);
    ScaledMonotone(y - x, v, w);
  }

  /** A value at a rank lies between its neighbours. */
  lemma InterpolatedBetween(s: seq<real>, rank: real)
    requires Sorted(s) && 0.0 <= rank <= (|s| - 1) as real
    ensures s[rank.Floor] <= Interpolated(s, rank)
    ensures rank.Floor + 1 < |s| ==> Interpolated(s, rank) <= s[rank.Floor + 1]
    ensures rank.Floor + 1 >= |s| ==> Interpolated(s, rank) == s[rank.Floor]
  {
    var lower := rank.Floor;
    if lower as real != rank { Between(s[lower], s[lower + 1], rank - lower as real); }
  }

  /** Interpolation is monotone in the rank, also across samples. */
  lemma InterpolatedMonotone(s: seq<real>, a: real, b: real)
    requires Sorted(s) && 0.0 <= a <= b <= (|s| - 1) as real
    ensures Interpolated(s, a) <= Interpolated(s, b)
  {
    var i, j := a.Floor, b.Floor;
    InterpolatedBetween(s, a);
    InterpolatedBetween(s, b);
    if i == j && i as real != b { WeightMonotone(s[i], s[i + 1], a - i as real, b - i as real); }
  }

  lemma RankMonotone(n: nat, p: real, q: real)
    requires n > 0 && p <= q
    ensures Rank(n, p) <= Rank(n, q)
  {
    ScaledMonotone((n - 1) as real, UnitClamp(p), UnitClamp(q));
  }

  /** p50 <= p95 <= p99 <= max: a higher quantile never gives a lower percentile. */
  lemma MonotoneInQuantile(values: seq<Option<real>>, p: real, q: real, round: real -> real)
    requires p <= q && Monotone(round)
    ensures Percentile(values, p, round) <= Percentile(values, q, round)
  {
    var s := Samples(values);
    SamplesAreSorted(values);
    if s != [] {
      RankMonotone(|s|, p, q);
      InterpolatedMonotone(s, Rank(|s|, p), Rank(|s|, q));
    }
  }

  /** Between the rounded smallest and largest samples. */
  lemma WithinSamples(values: seq<Option<real>>, q: real, round: real -> real)
    requires values != [] && Monotone(round)
    ensures Sorted(Samples(values))
    ensures round(Samples(values)[0]) <= Percentile(values, q, round) <= round(Samples(values)[|values| - 1])
  {
    var s := Samples(values);
    SamplesAreSorted(values);
    InterpolatedMonotone(s, 0.0, Rank(|s|, q));
    InterpolatedMonotone(s, Rank(|s|, q), (|s| - 1) as real);
  }

  /** At an integer rank the percentile is that sample, the extreme quantiles being the extreme samples. */
  lemma ExactAtSamples(values: seq<Option<real>>, q: real, k: nat, round: real -> real)
    requires k < |values|
    requires Rank(|values|, q) == k as real
    ensures Percentile(values, q, round) == round(Samples(values)[k])
    ensures q <= 0.0 ==> k == 0
    ensures q >= 1.0 ==> k == |values| - 1
  {
    assert (k as real).Floor == k;
    ScaledMonotone((|values| - 1) as real, 0.0, 1.0);
  }

  // ---------------------------------------------------------------- exactly

  /** A sample as it counts: nothing for a missing or a negative one. */
  ghost predicate CountsAs(value: Option<real>, x: real) {
    match value
    case None => x == 0.0
    case Some(v) => if v < 0.0 then x == 0.0 else x == v
  }

  /** The samples as they count, in increasing order. */
  ghost predicate Arranges(s: seq<real>, values: seq<Option<real>>) {
    Sorted(s) && exists counted: seq<real> :: Counted(counted, values) && multiset(counted) == multiset(s)
  }

  ghost predicate Counted(counted: seq<real>, values: seq<Option<real>>) {
    |counted| == |values| && forall i :: 0 <= i < |values| ==> CountsAs(values[i], counted[i])
  }

  /** A quantile below 0 is 0, and one above 1 is 1. */
  ghost predicate Bounded(q: real, w: real) {
    if q < 0.0 then w == 0.0 else if q > 1.0 then w == 1.0 else w == q
  }

  lemma {:induction false} SamplesAreCounted(values: seq<Option<real>>, counted: seq<real>)
    requires Counted(counted, values)
    ensures multiset(Samples(values)) == multiset(counted)
  {
    if values != [] {
      var n := |values| - 1;
      SamplesAreCounted(values[..n], counted[..n]);
      InsertAdds(Samples(values[..n]), Clamped(values[n]));
      assert CountsAs(values[n], counted[n]);
      assert counted == counted[..n] + [counted[n]];
    }
  }

  lemma SamplesAreArranged(values: seq<Option<real>>, s: seq<real>)
    requires Arranges(s, values)
    ensures Samples(values) == s && |s| == |values|
  {
    var counted: seq<real> :| Counted(counted, values) && multiset(counted) == multiset(s);
    SamplesAreSorted(values);
    SamplesAreCounted(values, counted);
    SortingIsUnique(Samples(values), s);
  }

  /** A value between two samples is as far from the lower one as its rank says. */
  lemma InterpolatedAt(s: seq<real>, k: nat, part: real)
    requires 0.0 <= part < 1.0 && k as real + part <= (|s| - 1) as real
    ensures part == 0.0 ==> Interpolated(s, k as real + part) == s[k]
    ensures part > 0.0 ==>
              k + 1 < |s| && Interpolated(s, k as real + part) == s[k] + Times(s[k + 1] - s[k], part)
  {
    assert (k as real + part).Floor == k;
    if part > 0.0 { MixIsOffset(s[k], s[k + 1], part); }
  }

  /** The rank of a quantile: that part of the way from the first sample to the last. */
  lemma RankExactly(n: nat, q: real, w: real)
    requires n > 0 && Bounded(q, w)
    ensures Rank(n, q) == (n - 1) as real * w
  {
  }

  /** The percentile is read off the sorted samples. None gives zero; a rank that is the position of a sample gives
      that sample; and a rank between two positions gives the same part of the way from one sample to the next. */
  lemma PercentileExactly(values: seq<Option<real>>, s: seq<real>, q: real, k: nat, part: real, round: real -> real)
    requires Arranges(s, values)
    requires s != [] ==> 0.0 <= part < 1.0 && Rank(|s|, q) == k as real + part
    ensures s == [] ==> Percentile(values, q, round) == 0.0
    ensures s != [] && part == 0.0 ==> k < |s| && Percentile(values, q, round) == round(s[k])
    ensures s != [] && part > 0.0 ==>
              k + 1 < |s| && Percentile(values, q, round) == round(s[k] + (s[k + 1] - s[k]) * part)
  {
    SamplesAreArranged(values, s);
    if s != [] { InterpolatedAt(s, k, part); }
  }
}
