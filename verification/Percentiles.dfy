/** Latency summaries of a failover campaign (validation/statistical-resilience/statistical_resilience.py),
    over real numbers. */
module Percentiles {
  import opened Basics

  datatype StatError = NoValues | OutOfRange | NegativeSample

  // ----- sorting --------------------------------------------------------------------------------

  ghost predicate Ordered(s: seq<real>) { forall i, j :: 0 <= i <= j < |s| ==> s[i] <= s[j] }

  function Insert(x: real, s: seq<real>): (r: seq<real>)
    ensures |r| == |s| + 1
  {
    if s == [] || x <= s[0] then [x] + s else [s[0]] + Insert(x, s[1..])
  }

  /** Python's `sorted`. */
  function Sort(s: seq<real>): (r: seq<real>)
    ensures |r| == |s|
  {
    if s == [] then [] else Insert(s[0], Sort(s[1..]))
  }

  lemma {:induction false} InsertAdds(x: real, s: seq<real>)
    ensures multiset(Insert(x, s)) == multiset(s) + multiset{x}
  {
    if s != [] && !(x <= s[0]) {
      InsertAdds(x, s[1..]);
      assert s == [s[0]] + s[1..];
    }
  }

  lemma {:induction false} InsertKeepsOrder(x: real, s: seq<real>)
    requires Ordered(s)
    ensures Ordered(Insert(x, s))
  {
    if s != [] && !(x <= s[0]) {
      InsertKeepsOrder(x, s[1..]);
      InsertAdds(x, s[1..]);
      var r := Insert(x, s[1..]);
      forall i | 0 <= i < |r| ensures s[0] <= r[i] {
        assert r[i] in multiset(r);
        assert r[i] == x || r[i] in s[1..];
      }
    }
  }

  lemma {:induction false} SortSorts(s: seq<real>)
    ensures Ordered(Sort(s)) && multiset(Sort(s)) == multiset(s)
  {
    if s != [] {
      SortSorts(s[1..]);
      InsertKeepsOrder(s[0], Sort(s[1..]));
      InsertAdds(s[0], Sort(s[1..]));
      assert s == [s[0]] + s[1..];
    }
  }

  lemma HeadIsLeast(s: seq<real>, t: seq<real>)
    requires Ordered(s) && s != [] && t != [] && multiset(s) == multiset(t)
    ensures s[0] <= t[0]
  {
    assert t[0] in multiset(t);
    assert t[0] in s;
  }

  lemma TailLosesHead(s: seq<real>)
    requires s != []
    ensures multiset(s[1..]) == multiset(s) - multiset{s[0]}
  {
    assert s == [s[0]] + s[1..];
  }

  /** Sorted lists of the same values are equal. */
  lemma {:induction false} SortedIsUnique(s: seq<real>, t: seq<real>)
    requires Ordered(s) && Ordered(t) && multiset(s) == multiset(t)
    ensures s == t
  {
    assert |s| == |multiset(s)| == |multiset(t)| == |t|;
    if s != [] {
      HeadIsLeast(s, t);
      HeadIsLeast(t, s);
      TailLosesHead(s);
      TailLosesHead(t);
      SortedIsUnique(s[1..], t[1..]);
      assert s == [s[0]] + s[1..] && t == [t[0]] + t[1..];
    }
  }

  lemma SortIgnoresOrder(s: seq<real>, t: seq<real>)
    requires multiset(s) == multiset(t)
    ensures Sort(s) == Sort(t)
  {
    SortSorts(s);
    SortSorts(t);
    SortedIsUnique(Sort(s), Sort(t));
  }

  // ----- interpolation ---------------------------------------------------------------------------

  lemma ProductNotNegative(x: real, y: real)
    requires x >= 0.0 && y >= 0.0
    ensures x * y >= 0.0
  {
  }


  function Blend(low: real, high: real, w: real): real { low * (1.0 - w) + high * w }

  lemma BlendIsBetween(low: real, high: real, w: real)
    requires low <= high && 0.0 <= w <= 1.0
    ensures low <= Blend(low, high, w) <= high
  {
    ProductNotNegative(high - low, w);
    ProductNotNegative(high - low, 1.0 - w);
    assert Blend(low, high, w) == low + (high - low) * w;
    assert Blend(low, high, w) == high - (high - low) * (1.0 - w);
  }

  lemma BlendGrows(low: real, high: real, v: real, w: real)
    requires low <= high && v <= w
    ensures Blend(low, high, v) <= Blend(low, high, w)
  {
    assert Blend(low, high, w) - Blend(low, high, v) == (high - low) * (w - v);
  }

  function Ceiling(x: real): int { if x.Floor as real == x then x.Floor else x.Floor + 1 }

  /** The value at a fractional position of a sorted list. */
  function At(ordered: seq<real>, rank: real): real
    requires ordered != [] && 0.0 <= rank <= (|ordered| - 1) as real
  {
    var lower := rank.Floor;
    var upper := Ceiling(rank);
    if lower == upper then ordered[lower]
    else Blend(ordered[lower], ordered[upper], rank - lower as real)
  }

  lemma AtIsBetweenNeighbours(s: seq<real>, rank: real)
    requires Ordered(s) && s != [] && 0.0 <= rank <= (|s| - 1) as real
    ensures s[rank.Floor] <= At(s, rank) <= s[Ceiling(rank)]
  {
    BlendIsBetween(s[rank.Floor], s[Ceiling(rank)], rank - rank.Floor as real);
  }

  lemma AtGrows(s: seq<real>, low: real, high: real)
    requires Ordered(s) && s != [] && 0.0 <= low <= high <= (|s| - 1) as real
    ensures At(s, low) <= At(s, high)
  {
    AtIsBetweenNeighbours(s, low);
    AtIsBetweenNeighbours(s, high);
    if low.Floor == high.Floor {
      if Ceiling(low) == Ceiling(high) && Ceiling(low) != low.Floor {
        BlendGrows(s[low.Floor], s[Ceiling(low)], low - low.Floor as real, high - low.Floor as real);
      }
    } else {
      assert Ceiling(low) <= high.Floor;
    }
  }

  // ----- percentile --------------------------------------------------------------------------------

  lemma Scaling(x: real, y: real, z: real)
    requires z > 0.0
    ensures x < y <==> x * z < y * z
  {
    assert (y - x) * z == y * z - x * z;
    if x < y { assert (y - x) * z > 0.0; } else { ProductNotNegative(x - y, z); }
  }

  function Rank(n: nat, p: real): real
    requires n > 0
  {
    ((n - 1) as real) * (p / 100.0)
  }

  lemma RankGrows(n: nat, p: real, q: real)
    requires n > 0 && p <= q
    ensures Rank(n, p) <= Rank(n, q)
  {
    if n > 1 { Scaling(q / 100.0, p / 100.0, (n - 1) as real); }
  }

  lemma RankEnds(n: nat)
    requires n > 0
    ensures Rank(n, 0.0) == 0.0 && Rank(n, 100.0) == (n - 1) as real
  {
  }

  lemma RankInRange(n: nat, p: real)
    requires n > 0 && 0.0 <= p <= 100.0
    ensures 0.0 <= Rank(n, p) <= (n - 1) as real
  {
    RankGrows(n, 0.0, p);
    RankGrows(n, p, 100.0);
    RankEnds(n);
  }

  function Percentile(values: seq<real>, p: real): (r: Result<real, StatError>)
    ensures r.Ok? <==> values != [] && 0.0 <= p <= 100.0
  {
    if values == [] then Err(NoValues)
    else if !(0.0 <= p <= 100.0) then Err(OutOfRange)
    else
      RankInRange(|values|, p);
      Ok(At(Sort(values), Rank(|values|, p)))
  }

  /** Only the values count, not their order. */
  lemma PercentileIgnoresOrder(v: seq<real>, w: seq<real>, p: real)
    requires multiset(v) == multiset(w)
    ensures Percentile(v, p) == Percentile(w, p)
  {
    assert |v| == |multiset(v)| == |multiset(w)| == |w|;
    SortIgnoresOrder(v, w);
  }

  lemma PercentileGrows(v: seq<real>, p: real, q: real)
    requires v != [] && 0.0 <= p <= q <= 100.0
    ensures Percentile(v, p).value <= Percentile(v, q).value
  {
    SortSorts(v);
    RankInRange(|v|, p);
    RankInRange(|v|, q);
    RankGrows(|v|, p, q);
    AtGrows(Sort(v), Rank(|v|, p), Rank(|v|, q));
  }

  lemma QuotientBounds(sum: real, n: real, low: real, high: real)
    requires n > 0.0 && low * n <= sum <= high * n
    ensures low <= sum / n <= high
  {
    assert (sum / n) * n == sum;
    Scaling(sum / n, low, n);
    Scaling(high, sum / n, n);
  }

  lemma ShareOfHundred(k: real, n: real)
    requires 0.0 <= k <= n && n > 0.0
    ensures 0.0 <= 100.0 * k / n <= 100.0 && n * (100.0 * k / n / 100.0) == k
  {
    QuotientBounds(100.0 * k, n, 0.0, 100.0);
    var q := 100.0 * k / n;
    assert q * n == 100.0 * k;
    assert n * (q / 100.0) == q * n / 100.0;
  }

  /** The k-th of n sorted values is the percentile 100 k / (n - 1). */
  lemma PercentileHitsValues(v: seq<real>, k: nat)
    requires |v| > 1 && k < |v|
    ensures var p := 100.0 * (k as real) / ((|v| - 1) as real);
            0.0 <= p <= 100.0 && Percentile(v, p) == Ok(Sort(v)[k])
  {
    ShareOfHundred(k as real, (|v| - 1) as real);
    assert Rank(|v|, 100.0 * (k as real) / ((|v| - 1) as real)) == k as real;
  }

  // ----- summaries -----------------------------------------------------------------------------------

  function Least(s: seq<real>): (m: real)
    requires s != []
    ensures m in s && forall x :: x in s ==> m <= x
  {
    if |s| == 1 then s[0]
    else
      var m := Least(s[1..]);
      assert forall x :: x in s ==> x == s[0] || x in s[1..];
      if s[0] <= m then s[0] else m
  }

  function Most(s: seq<real>): (m: real)
    requires s != []
    ensures m in s && forall x :: x in s ==> x <= m
  {
    if |s| == 1 then s[0]
    else
      var m := Most(s[1..]);
      assert forall x :: x in s ==> x == s[0] || x in s[1..];
      if s[0] >= m then s[0] else m
  }

  function Sum(s: seq<real>): real { if s == [] then 0.0 else s[0] + Sum(s[1..]) }

  function Mean(s: seq<real>): real
    requires s != []
  {
    Sum(s) / (|s| as real)
  }

  /** `statistics.median`: the middle value, or the mean of the two middle ones. */
  function Median(s: seq<real>): real
    requires s != []
  {
    var o := Sort(s);
    var half := |o| / 2;
    if |o| % 2 == 1 then o[half] else (o[half - 1] + o[half]) / 2.0
  }

  datatype Summary = Summary(
    count: nat, min: real, max: real, mean: real, median: real, p50: real, p90: real, p95: real, p99: real)

  function Summarize(samples: seq<real>): (r: Result<Summary, StatError>)
    ensures r.Ok? <==> samples != [] && forall x :: x in samples ==> x >= 0.0
  {
    if samples == [] then Err(NoValues)
    else if exists x :: x in samples && x < 0.0 then Err(NegativeSample)
    else
      Ok(Summary(
           |samples|, Least(samples), Most(samples), Mean(samples), Median(samples),
           Percentile(samples, 50.0).value, Percentile(samples, 90.0).value,
           Percentile(samples, 95.0).value, Percentile(samples, 99.0).value))
  }

  lemma SortedEnds(v: seq<real>)
    requires v != []
    ensures Sort(v)[0] == Least(v) && Sort(v)[|v| - 1] == Most(v)
  {
    SortSorts(v);
    var o := Sort(v);
    forall x ensures x in o <==> x in v { assert x in o <==> x in multiset(o); assert x in v <==> x in multiset(v); }
    assert o[0] in v && o[|v| - 1] in v;
    var i :| 0 <= i < |o| && o[i] == Least(v);
    var j :| 0 <= j < |o| && o[j] == Most(v);
  }

  lemma PercentileEnds(v: seq<real>)
    requires v != []
    ensures Percentile(v, 0.0) == Ok(Least(v)) && Percentile(v, 100.0) == Ok(Most(v))
  {
    SortedEnds(v);
    RankEnds(|v|);
  }

  /** Every percentile lies between the least and the greatest value, which are the 0th and 100th. */
  lemma PercentileIsBetween(v: seq<real>, p: real)
    requires v != [] && 0.0 <= p <= 100.0
    ensures Least(v) <= Percentile(v, p).value <= Most(v)
    ensures Percentile(v, 0.0) == Ok(Least(v)) && Percentile(v, 100.0) == Ok(Most(v))
  {
    PercentileEnds(v);
    PercentileGrows(v, 0.0, p);
    PercentileGrows(v, p, 100.0);
  }

  lemma HalfRank(n: nat)
    requires n > 0
    ensures n % 2 == 1 ==> Rank(n, 50.0) == (n / 2) as real
    ensures n % 2 == 0 ==> Rank(n, 50.0) == (n / 2 - 1) as real + 0.5
  {
    assert Rank(n, 50.0) == ((n - 1) as real) * 0.5;
    assert n == 2 * (n / 2) + n % 2;
  }

  lemma AtWhole(s: seq<real>, k: nat)
    requires k < |s|
    ensures At(s, k as real) == s[k]
  {
  }

  lemma AtHalf(s: seq<real>, k: nat)
    requires k + 1 < |s|
    ensures At(s, k as real + 0.5) == (s[k] + s[k + 1]) / 2.0
  {
    var rank := k as real + 0.5;
    assert rank.Floor == k && Ceiling(rank) == k + 1;
    assert rank - k as real == 0.5;
    assert Blend(s[k], s[k + 1], 0.5) == (s[k] + s[k + 1]) / 2.0;
  }

  /** The 50th percentile is the median, for every sample count. */
  lemma HalfIsMedian(v: seq<real>)
    requires v != []
    ensures Percentile(v, 50.0) == Ok(Median(v))
  {
    HalfRank(|v|);
    if |v| % 2 == 0 { AtHalf(Sort(v), |v| / 2 - 1); } else { AtWhole(Sort(v), |v| / 2); }
  }

  /** The order every summary shows. */
  lemma SummaryIsOrdered(samples: seq<real>)
    requires samples != [] && forall x :: x in samples ==> x >= 0.0
    ensures var s := Summarize(samples).value;
            0.0 <= s.min <= s.p50 == s.median <= s.p90 <= s.p95 <= s.p99 <= s.max
  {
    HalfIsMedian(samples);
    PercentileIsBetween(samples, 50.0);
    PercentileGrows(samples, 50.0, 90.0);
    PercentileGrows(samples, 90.0, 95.0);
    PercentileGrows(samples, 95.0, 99.0);
    PercentileIsBetween(samples, 99.0);
    assert Least(samples) in samples;
  }

  lemma OneTimesMore(x: real, n: real)
    ensures x * (n + 1.0) == x * n + x
  {
  }

  lemma {:induction false} SumBounds(s: seq<real>, low: real, high: real)
    requires forall x :: x in s ==> low <= x <= high
    ensures low * (|s| as real) <= Sum(s) <= high * (|s| as real)
  {
    if s != [] {
      var n := |s[1..]| as real;
      assert |s| as real == n + 1.0;
      assert forall x :: x in s[1..] ==> x in s;
      SumBounds(s[1..], low, high);
      OneTimesMore(low, n);
      OneTimesMore(high, n);
      assert s[0] in s;
    }
  }

  lemma MeanIsBetween(samples: seq<real>)
    requires samples != []
    ensures Least(samples) <= Mean(samples) <= Most(samples)
  {
    SumBounds(samples, Least(samples), Most(samples));
    QuotientBounds(Sum(samples), |samples| as real, Least(samples), Most(samples));
  }

  lemma {:induction false} InsertSums(x: real, s: seq<real>)
    ensures Sum(Insert(x, s)) == x + Sum(s)
  {
    if s != [] && !(x <= s[0]) {
      InsertSums(x, s[1..]);
      assert Insert(x, s)[1..] == Insert(x, s[1..]);
    } else {
      assert Insert(x, s)[1..] == s;
    }
  }

  lemma {:induction false} SortSums(s: seq<real>)
    ensures Sum(Sort(s)) == Sum(s)
  {
    if s != [] {
      SortSums(s[1..]);
      InsertSums(s[0], Sort(s[1..]));
    }
  }

  lemma ValuesIgnoreOrder(v: seq<real>, w: seq<real>)
    requires multiset(v) == multiset(w) && v != [] && w != []
    ensures Least(v) == Least(w) && Most(v) == Most(w) && Mean(v) == Mean(w) && Median(v) == Median(w)
  {
    assert |v| == |multiset(v)| == |multiset(w)| == |w|;
    SortIgnoresOrder(v, w);
    SortSums(v);
    SortSums(w);
    SortedEnds(v);
    SortedEnds(w);
  }

  /** The whole summary depends on the samples only, not on the order they came in. */
  lemma SummaryIgnoresOrder(v: seq<real>, w: seq<real>)
    requires multiset(v) == multiset(w)
    ensures Summarize(v) == Summarize(w)
  {
    assert |v| == |multiset(v)| == |multiset(w)| == |w|;
    assert forall x :: x in v <==> x in multiset(v);
    assert forall x :: x in w <==> x in multiset(w);
    if v != [] {
      ValuesIgnoreOrder(v, w);
      PercentileIgnoresOrder(v, w, 50.0);
      PercentileIgnoresOrder(v, w, 90.0);
      PercentileIgnoresOrder(v, w, 95.0);
      PercentileIgnoresOrder(v, w, 99.0);
    }
  }

  // ----- every value of a summary ------------------------------------------------------------

  /** The point a share w of the way from low to high. */
  function OnLine(low: real, high: real, w: real): real { low + w * (high - low) }

  /** Between two ranks the value lies on the straight line between theirs. */
  lemma AtBetween(s: seq<real>, rank: real, k: nat, w: real)
    requires k + 1 < |s| && 0.0 <= w < 1.0 && rank == k as real + w
    ensures At(s, rank) == OnLine(s[k], s[k + 1], w)
  {
    assert rank.Floor == k;
    if w == 0.0 {
      assert Ceiling(rank) == k;
    } else {
      assert Ceiling(rank) == k + 1 && rank - k as real == w;
      BlendIsLinear(s[k], s[k + 1], w);
    }
  }

  lemma BlendIsLinear(low: real, high: real, w: real)
    ensures Blend(low, high, w) == OnLine(low, high, w)
  {
  }

  ghost predicate SortedOf(o: seq<real>, v: seq<real>) {
    multiset(o) == multiset(v) && forall i, j :: 0 <= i <= j < |o| ==> o[i] <= o[j]
  }

  lemma SortIsIt(v: seq<real>, o: seq<real>)
    requires SortedOf(o, v)
    ensures Sort(v) == o && |o| == |v|
  {
    SortSorts(v);
    SortedIsUnique(Sort(v), o);
  }

  lemma PercentileIsAt(v: seq<real>, o: seq<real>, p: real, rank: real)
    requires SortedOf(o, v) && v != [] && 0.0 <= p <= 100.0
    requires ((|v| - 1) as real) * (p / 100.0) == rank
    ensures |o| == |v| && 0.0 <= rank <= (|v| - 1) as real && Percentile(v, p) == Ok(At(o, rank))
  {
    SortIsIt(v, o);
    RankInRange(|v|, p);
  }

  /** A percentile lies on the straight line between the neighbours of its rank (n - 1) p / 100 in
      the ordered values. */
  lemma PercentileInterpolates(v: seq<real>, o: seq<real>, p: real, rank: real, k: nat)
    requires SortedOf(o, v) && k + 1 < |o| && 0.0 <= p <= 100.0
    requires ((|v| - 1) as real) * (p / 100.0) == rank && k as real <= rank < (k + 1) as real
    ensures Percentile(v, p) == Ok(OnLine(o[k], o[k + 1], rank - k as real))
  {
    SortIsIt(v, o);
    PercentileIsAt(v, o, p, rank);
    AtBetween(o, rank, k, rank - k as real);
  }

  /** The errors, and what each field of a summary is. */
  lemma SummaryFields(samples: seq<real>)
    ensures Summarize(samples) == Err(NoValues) <==> samples == []
    ensures Summarize(samples) == Err(NegativeSample) <==> exists x :: x in samples && x < 0.0
    ensures Summarize(samples).Ok? ==>
              var s := Summarize(samples).value;
              && s.count == |samples| && s.mean == Sum(samples) / (|samples| as real)
              && s.min in samples && s.max in samples && (forall x :: x in samples ==> s.min <= x <= s.max)
              && Percentile(samples, 50.0) == Ok(s.median) == Ok(s.p50)
              && Percentile(samples, 90.0) == Ok(s.p90)
              && Percentile(samples, 95.0) == Ok(s.p95) && Percentile(samples, 99.0) == Ok(s.p99)
  {
    if samples != [] { HalfIsMedian(samples); }
  }

  lemma {:induction false} SumAppends(s: seq<real>, x: real)
    ensures Sum(s + [x]) == Sum(s) + x
  {
    if s == [] {
      assert [] + [x] == [x] && [x][1..] == [];
    } else {
      assert (s + [x])[1..] == s[1..] + [x];
      SumAppends(s[1..], x);
    }
  }

  lemma PercentileErrors(v: seq<real>, p: real)
    ensures Percentile(v, p) == Err(NoValues) <==> v == []
    ensures Percentile(v, p) == Err(OutOfRange) <==> v != [] && (p < 0.0 || p > 100.0)
  {
  }
}
