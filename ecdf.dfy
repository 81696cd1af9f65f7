/**
 * Empirical cumulative distribution functions: a curve of (value, percentile) points with both
 * coordinates strictly increasing and the last percentile 100. Curves are built from a checked
 * list of points or from raw samples, read from text, averaged by the trapezoid rule and sampled
 * by linear interpolation of the inverse. Floating-point values are modelled as reals.
 */
module EmpiricalCdf {
  import opened Wrappers
  import opened Text
  import opened Sorting

  datatype Ecdf = Ecdf(ecdf: seq<(real, real)>)

  datatype EcdfError = InvalidEcdf | NoValues

  /** Strictly increasing in both coordinates. */
  ghost predicate Increasing(c: seq<(real, real)>) {
    forall i, j | 0 <= i < j < |c| :: c[i].0 < c[j].0 && c[i].1 < c[j].1
  }

  /** What `from_ecdf` accepts: a non-empty curve, ending at percentile 100, increasing. */
  ghost predicate ValidCurve(c: seq<(real, real)>) {
    |c| > 0 && c[|c| - 1].1 == 100.0 && Increasing(c)
  }

  lemma {:induction false} AdjacentIncreasing(c: seq<(real, real)>, n: nat)
    requires n <= |c|
    requires forall i | 1 <= i < n :: c[i - 1].0 < c[i].0 && c[i - 1].1 < c[i].1
    ensures forall i, j | 0 <= i < j < n :: c[i].0 < c[j].0 && c[i].1 < c[j].1
    decreases n
  {
    if n > 1 {
      AdjacentIncreasing(c, n - 1);
      forall i | 0 <= i < n - 1 ensures c[i].0 < c[n - 1].0 && c[i].1 < c[n - 1].1 {
        if i < n - 2 {
          assert c[i].0 < c[n - 2].0 && c[i].1 < c[n - 2].1;
        }
      }
    }
  }

  /**
   * `from_ecdf`: the curve unchanged when valid; `InvalidEcdf` when it is empty, does not end at
   * 100 (compared exactly), or some neighbour does not increase in both coordinates.
   */
  method FromEcdf(curve: seq<(real, real)>) returns (r: Result<Ecdf, EcdfError>)
    ensures r.Ok? <==> ValidCurve(curve)
    ensures r.Ok? ==> r.value.ecdf == curve
    ensures r.Err? ==> r.error == InvalidEcdf
  {
    if |curve| == 0 {
      return Err(InvalidEcdf);
    }
    var len := |curve|;
    if curve[len - 1].1 != 100.0 {
      return Err(InvalidEcdf);
    }
    for i := 1 to len
      invariant forall j | 1 <= j < i :: curve[j - 1].0 < curve[j].0 && curve[j - 1].1 < curve[j].1
    {
      if curve[i].1 <= curve[i - 1].1 || curve[i].0 <= curve[i - 1].0 {
        return Err(InvalidEcdf);
      }
    }
    AdjacentIncreasing(curve, len);
    return Ok(Ecdf(curve));
  }

  // ---------------------------------------------------------------- from_values

  function RealLe(a: real, b: real): bool { a <= b }

  lemma RealLeTotal()
    ensures TotalPreorder(RealLe)
  {
  }

  /** The samples in ascending order. */
  function Sorted(values: seq<real>): (r: seq<real>)
    ensures multiset(r) == multiset(values) && |r| == |values|
    ensures SortedBy(r, RealLe)
  {
    RealLeTotal();
    SortByLength(values, RealLe);
    SortBy(values, RealLe)
  }

  /** `BTreeMap::insert` on a map held as a key-sorted list of (value, rank) entries: a present key has its rank replaced. */
  function MapInsert(m: seq<(real, nat)>, x: real, v: nat): seq<(real, nat)>
  {
    if m == [] then [(x, v)]
    else if x < m[0].0 then [(x, v)] + m
    else if x == m[0].0 then [(x, v)] + m[1..]
    else [m[0]] + MapInsert(m[1..], x, v)
  }

  /** Inserting a key above every key but the last, and no smaller than the last, replaces the last entry or appends. */
  lemma {:induction false} MapInsertLast(m: seq<(real, nat)>, x: real, v: nat)
    requires forall a | 0 <= a < |m| - 1 :: m[a].0 < x
    requires m != [] ==> m[|m| - 1].0 <= x
    ensures MapInsert(m, x, v) == if m != [] && m[|m| - 1].0 == x then m[..|m| - 1] + [(x, v)] else m + [(x, v)]
    decreases |m|
  {
    if |m| > 1 {
      var rest := m[1..];
      assert forall a | 0 <= a < |rest| - 1 :: rest[a] == m[a + 1];
      MapInsertLast(rest, x, v);
      assert rest[..|rest| - 1] == m[1..|m| - 1];
      assert m[..|m| - 1] == [m[0]] + m[1..|m| - 1];
      assert m == [m[0]] + rest;
    }
  }

  /** The percentile of the sample of rank `count` (1-based) among n. */
  function Percentile(count: nat, n: nat): real
    requires n > 0
  {
    count as real / n as real * 100.0
  }

  lemma PercentileIncreasing(a: nat, b: nat, n: nat)
    requires n > 0 && a < b
    ensures Percentile(a, n) < Percentile(b, n)
  {
    assert b as real / n as real - a as real / n as real == (b - a) as real / n as real;
  }

  /** Some entry of `m` has key `x`. */
  ghost predicate HasKey<V>(m: seq<(real, V)>, x: real) {
    exists j | 0 <= j < |m| :: m[j].0 == x
  }

  /** Position t of a sorted sequence is the last occurrence of its value. */
  predicate LastOf(sorted: seq<real>, t: nat)
    requires t < |sorted|
  {
    t + 1 == |sorted| || sorted[t + 1] != sorted[t]
  }

  /**
   * The curve built from sorted samples: one point per distinct value, at the percentile of its
   * last occurrence, and every sample value present.
   */
  ghost predicate RankedCurve(c: seq<(real, real)>, sorted: seq<real>) {
    && |sorted| > 0
    && (forall j | 0 <= j < |c| ::
          exists t | 0 <= t < |sorted| :: LastOf(sorted, t) && c[j] == (sorted[t], Percentile(t + 1, |sorted|)))
    && (forall t {:trigger HasKey(c, sorted[t])} | 0 <= t < |sorted| :: HasKey(c, sorted[t]))
  }

  /** Every entry is the sample of its 1-based rank, at most i. */
  ghost predicate RankedEntries(m: seq<(real, nat)>, sorted: seq<real>, i: nat) {
    forall j | 0 <= j < |m| :: 1 <= m[j].1 <= i <= |sorted| && m[j].0 == sorted[m[j].1 - 1]
  }

  /** Keys and ranks strictly increase. */
  ghost predicate BothIncreasing(m: seq<(real, nat)>) {
    forall a, b | 0 <= a < b < |m| :: m[a].0 < m[b].0 && m[a].1 < m[b].1
  }

  /** Every entry but one of rank i is the last sample of its value. */
  ghost predicate LastOfValue(m: seq<(real, nat)>, sorted: seq<real>, i: nat)
    requires RankedEntries(m, sorted, i)
  {
    forall j | 0 <= j < |m| :: m[j].1 == i || sorted[m[j].1] != sorted[m[j].1 - 1]
  }

  /** Every one of the first i sample values is a key. */
  ghost predicate Covers(m: seq<(real, nat)>, sorted: seq<real>, i: nat)
    requires i <= |sorted|
  {
    forall t {:trigger HasKey(m, sorted[t])} | 0 <= t < i :: HasKey(m, sorted[t])
  }

  /**
   * The map after inserting the first i samples, each keyed by its value with its 1-based rank:
   * every entry is the sample of its rank, keys and ranks strictly increase, each entry is the
   * last of its value so far, the newest entry has rank i, and every sample value so far is a key.
   */
  ghost predicate Inserted(m: seq<(real, nat)>, sorted: seq<real>, i: nat)
    requires i <= |sorted|
  {
    && RankedEntries(m, sorted, i)
    && BothIncreasing(m)
    && LastOfValue(m, sorted, i)
    && (i == 0 <==> m == [])
    && (i > 0 ==> m[|m| - 1].1 == i)
    && Covers(m, sorted, i)
  }

  /** Every key but the newest lies below the next sample, and the newest is no larger. */
  lemma InsertedBelow(m: seq<(real, nat)>, sorted: seq<real>, i: nat)
    requires SortedBy(sorted, RealLe) && i < |sorted| && Inserted(m, sorted, i)
    ensures forall a | 0 <= a < |m| - 1 :: m[a].0 < sorted[i]
    ensures m != [] ==> m[|m| - 1].0 <= sorted[i]
  {
    if m != [] {
      assert RealLe(sorted[i - 1], sorted[i]);
      forall a | 0 <= a < |m| - 1 ensures m[a].0 < sorted[i] {
        assert m[a].0 < m[|m| - 1].0;
      }
    }
  }

  /** Replacing or appending an entry keeps every old key a key. */
  lemma CoversGrow(m: seq<(real, nat)>, m': seq<(real, nat)>, sorted: seq<real>, i: nat)
    requires i < |sorted| && Covers(m, sorted, i)
    requires |m| <= |m'| && forall j | 0 <= j < |m| :: m'[j].0 == m[j].0
    requires HasKey(m', sorted[i])
    ensures Covers(m', sorted, i + 1)
  {
    forall t | 0 <= t < i ensures HasKey(m', sorted[t]) {
      assert HasKey(m, sorted[t]);
      var j :| 0 <= j < |m| && m[j].0 == sorted[t];
      assert m'[j].0 == sorted[t];
    }
  }

  /** A repeated value: the newest entry is replaced by the later sample. */
  lemma InsertReplace(m: seq<(real, nat)>, sorted: seq<real>, i: nat)
    requires i < |sorted| && Inserted(m, sorted, i)
    requires m != [] && m[|m| - 1].0 == sorted[i]
    ensures Inserted(m[..|m| - 1] + [(sorted[i], i + 1)], sorted, i + 1)
  {
    var m' := m[..|m| - 1] + [(sorted[i], i + 1)];
    assert forall j | 0 <= j < |m| - 1 :: m'[j] == m[j];
    assert m'[|m| - 1] == (sorted[i], i + 1);
    assert BothIncreasing(m') by {
      forall a, b | 0 <= a < b < |m'| ensures m'[a].0 < m'[b].0 && m'[a].1 < m'[b].1 {
        assert m[a].0 < m[b].0 && m[a].1 < m[b].1;
      }
    }
    assert LastOfValue(m', sorted, i + 1) by {
      forall j | 0 <= j < |m| - 1 ensures m'[j].1 != i + 1 && sorted[m'[j].1] != sorted[m'[j].1 - 1] {
        assert m[j].0 < m[|m| - 1].0 && m[j].1 < m[|m| - 1].1;
      }
    }
    assert HasKey(m', sorted[i]);
    CoversGrow(m, m', sorted, i);
  }

  /** A new value: appended after every key so far. */
  lemma InsertAppend(m: seq<(real, nat)>, sorted: seq<real>, i: nat)
    requires i < |sorted| && Inserted(m, sorted, i)
    requires forall a | 0 <= a < |m| :: m[a].0 < sorted[i]
    ensures Inserted(m + [(sorted[i], i + 1)], sorted, i + 1)
  {
    var m' := m + [(sorted[i], i + 1)];
    assert forall j | 0 <= j < |m| :: m'[j] == m[j];
    assert m'[|m|] == (sorted[i], i + 1);
    assert LastOfValue(m', sorted, i + 1) by {
      forall j | 0 <= j < |m| ensures sorted[m'[j].1] != sorted[m'[j].1 - 1] {
        if m[j].1 == i {
          assert m[j].0 == sorted[i - 1];
        }
      }
    }
    assert HasKey(m', sorted[i]);
    CoversGrow(m, m', sorted, i);
  }

  /** One insertion of the `from_values` loop, in ascending sample order, keeps `Inserted`. */
  lemma InsertStep(m: seq<(real, nat)>, sorted: seq<real>, i: nat)
    requires SortedBy(sorted, RealLe) && i < |sorted| && Inserted(m, sorted, i)
    ensures Inserted(MapInsert(m, sorted[i], i + 1), sorted, i + 1)
  {
    if m != [] && m[|m| - 1].0 == sorted[i] {
      ReplaceStep(m, sorted, i);
    } else {
      AppendStep(m, sorted, i);
    }
  }

  lemma ReplaceStep(m: seq<(real, nat)>, sorted: seq<real>, i: nat)
    requires i < |sorted| && Inserted(m, sorted, i)
    requires m != [] && m[|m| - 1].0 == sorted[i]
    ensures Inserted(MapInsert(m, sorted[i], i + 1), sorted, i + 1)
  {
    forall a | 0 <= a < |m| - 1 ensures m[a].0 < sorted[i] {
      assert m[a].0 < m[|m| - 1].0;
    }
    MapInsertLast(m, sorted[i], i + 1);
    InsertReplace(m, sorted, i);
  }

  lemma AppendStep(m: seq<(real, nat)>, sorted: seq<real>, i: nat)
    requires SortedBy(sorted, RealLe) && i < |sorted| && Inserted(m, sorted, i)
    requires !(m != [] && m[|m| - 1].0 == sorted[i])
    ensures Inserted(MapInsert(m, sorted[i], i + 1), sorted, i + 1)
  {
    InsertedBelow(m, sorted, i);
    MapInsertLast(m, sorted[i], i + 1);
    InsertAppend(m, sorted, i);
  }

  /** Read the map out, scaling each rank to a percentile. */
  function Percent(m: seq<(real, nat)>, n: nat): seq<(real, real)>
    requires n > 0
  {
    seq(|m|, j requires 0 <= j < |m| => (m[j].0, Percentile(m[j].1, n)))
  }

  /** The read-out map after all n samples is a valid curve ranked from the samples. */
  lemma PercentOfInserted(m: seq<(real, nat)>, sorted: seq<real>)
    requires |sorted| > 0 && Inserted(m, sorted, |sorted|)
    ensures ValidCurve(Percent(m, |sorted|))
    ensures RankedCurve(Percent(m, |sorted|), sorted)
  {
    PercentIncreasing(m, sorted);
    PercentPointsRanked(m, sorted);
    PercentCovers(m, sorted);
  }

  /** The read-out is increasing in both coordinates and ends at percentile 100. */
  lemma PercentIncreasing(m: seq<(real, nat)>, sorted: seq<real>)
    requires |sorted| > 0 && Inserted(m, sorted, |sorted|)
    ensures ValidCurve(Percent(m, |sorted|))
  {
    var n := |sorted|;
    var c := Percent(m, n);
    forall a, b | 0 <= a < b < |c| ensures c[a].0 < c[b].0 && c[a].1 < c[b].1 {
      PercentileIncreasing(m[a].1, m[b].1, n);
    }
    assert n as real / n as real == 1.0;
    assert c[|c| - 1].1 == Percentile(n, n) == 100.0;
  }

  /** Every point of the read-out is a last sample of its value at the percentile of its rank. */
  lemma PercentPointsRanked(m: seq<(real, nat)>, sorted: seq<real>)
    requires |sorted| > 0 && Inserted(m, sorted, |sorted|)
    ensures var c := Percent(m, |sorted|);
            forall j | 0 <= j < |c| ::
              exists t | 0 <= t < |sorted| :: LastOf(sorted, t) && c[j] == (sorted[t], Percentile(t + 1, |sorted|))
  {
    var n := |sorted|;
    var c := Percent(m, n);
    forall j | 0 <= j < |c|
      ensures exists t | 0 <= t < n :: LastOf(sorted, t) && c[j] == (sorted[t], Percentile(t + 1, n))
    {
      assert 1 <= m[j].1 <= n && m[j].0 == sorted[m[j].1 - 1];
      assert m[j].1 == n || sorted[m[j].1] != sorted[m[j].1 - 1];
      var t := m[j].1 - 1;
      assert c[j] == (m[j].0, Percentile(m[j].1, n));
      assert LastOf(sorted, t) && c[j] == (sorted[t], Percentile(t + 1, n));
    }
  }

  /** Every sample value is a key of the read-out. */
  lemma PercentCovers(m: seq<(real, nat)>, sorted: seq<real>)
    requires |sorted| > 0 && Inserted(m, sorted, |sorted|)
    ensures forall t | 0 <= t < |sorted| :: HasKey(Percent(m, |sorted|), sorted[t])
  {
    var c := Percent(m, |sorted|);
    forall t | 0 <= t < |sorted| ensures HasKey(c, sorted[t]) {
      assert HasKey(m, sorted[t]);
      var j :| 0 <= j < |m| && m[j].0 == sorted[t];
      assert c[j].0 == sorted[t];
    }
  }

  /**
   * `from_values`: `NoValues` for no samples; otherwise the samples are sorted, the (i+1)-th
   * smallest given percentile (i+1)/n·100, and a repeated value keeps its last, highest
   * percentile. The result always passes `from_ecdf`'s checks.
   */
  method FromValues(values: seq<real>) returns (r: Result<Ecdf, EcdfError>)
    ensures r.Err? <==> values == []
    ensures r.Err? ==> r.error == NoValues
    ensures r.Ok? ==> ValidCurve(r.value.ecdf)
    ensures r.Ok? ==> RankedCurve(r.value.ecdf, Sorted(values))
  {
    if values == [] {
      return Err(NoValues);
    }
    var sorted := Sorted(values);
    var m := RankMap(sorted);
    var ecdf := Percent(m, |sorted|);
    PercentOfInserted(m, sorted);
    r := FromEcdf(ecdf);
  }

  /** The `BTreeMap` loop: each sample in ascending order inserted with its 1-based rank. */
  method RankMap(sorted: seq<real>) returns (m: seq<(real, nat)>)
    requires SortedBy(sorted, RealLe)
    ensures Inserted(m, sorted, |sorted|)
  {
    m := [];
    for i := 0 to |sorted|
      invariant Inserted(m, sorted, i)
    {
      InsertStep(m, sorted, i);
      m := MapInsert(m, sorted[i], i + 1);
    }
  }

  // ---------------------------------------------------------------- mean

  /** The trapezoid rule: Σ (x_i + x_{i-1}) / 2 · (y_i − y_{i-1}) over neighbouring points. */
  function Trapezoid(c: seq<(real, real)>): real
    requires |c| > 0
  {
    if |c| == 1 then 0.0
    else
      var n := |c| - 1;
      Trapezoid(c[..n]) + (c[n].0 + c[n - 1].0) / 2.0 * (c[n].1 - c[n - 1].1)
  }

  /** `mean`: the trapezoid sum over the curve, divided by 100. */
  method Mean(e: Ecdf) returns (s: real)
    requires |e.ecdf| > 0
    ensures s == Trapezoid(e.ecdf) / 100.0
  {
    s := 0.0;
    var (lastX, lastY) := e.ecdf[0];
    for i := 1 to |e.ecdf|
      invariant s == Trapezoid(e.ecdf[..i])
      invariant (lastX, lastY) == e.ecdf[i - 1]
    {
      var (x, y) := e.ecdf[i];
      assert e.ecdf[..i + 1][..i] == e.ecdf[..i];
      s := s + (x + lastX) / 2.0 * (y - lastY);
      lastX, lastY := x, y;
    }
    assert e.ecdf[..|e.ecdf|] == e.ecdf;
    s := s / 100.0;
  }

  lemma MulLe(a: real, b: real, c: real)
    requires a <= b && c >= 0.0
    ensures a * c <= b * c
  {
  }

  /** One trapezoid added to a sum above the lower bound keeps it above the widened lower bound. */
  lemma StepAbove(x0: real, xp: real, xn: real, y0: real, yp: real, yn: real, sum: real, total: real)
    requires x0 <= xp < xn && y0 <= yp < yn
    requires x0 * (yp - y0) <= sum
    requires total == sum + (xn + xp) / 2.0 * (yn - yp)
    ensures x0 * (yn - y0) <= total
  {
    MulLe(x0, (xn + xp) / 2.0, yn - yp);
    assert x0 * (yp - y0) + x0 * (yn - yp) == x0 * (yn - y0);
  }

  /** One trapezoid added to a sum below the upper bound keeps it below the widened upper bound. */
  lemma StepBelow(xp: real, xn: real, y0: real, yp: real, yn: real, sum: real, total: real)
    requires xp < xn && y0 <= yp < yn
    requires sum <= xp * (yp - y0)
    requires total == sum + (xn + xp) / 2.0 * (yn - yp)
    ensures total <= xn * (yn - y0)
  {
    MulLe((xn + xp) / 2.0, xn, yn - yp);
    MulLe(xp, xn, yp - y0);
    assert xn * (yp - y0) + xn * (yn - yp) == xn * (yn - y0);
  }

  /** The trapezoid sum is at least the first value weighted by the percentile range covered. */
  lemma {:induction false} TrapezoidAbove(c: seq<(real, real)>)
    requires |c| > 0 && Increasing(c)
    ensures Above(c)
    decreases |c|
  {
    if |c| > 1 {
      IncreasingPrefix(c, |c| - 1);
      TrapezoidAbove(c[..|c| - 1]);
      AboveExtend(c);
    }
  }

  /** The trapezoid sum is at most the last value weighted by the percentile range covered. */
  lemma {:induction false} TrapezoidBelow(c: seq<(real, real)>)
    requires |c| > 0 && Increasing(c)
    ensures Below(c)
    decreases |c|
  {
    if |c| > 1 {
      IncreasingPrefix(c, |c| - 1);
      TrapezoidBelow(c[..|c| - 1]);
      BelowExtend(c);
    }
  }

  /** The trapezoid sum is at least the first value times the percentile span. */
  ghost predicate Above(c: seq<(real, real)>)
    requires |c| > 0
  {
    c[0].0 * (c[|c| - 1].1 - c[0].1) <= Trapezoid(c)
  }

  /** The trapezoid sum is at most the last value times the percentile span. */
  ghost predicate Below(c: seq<(real, real)>)
    requires |c| > 0
  {
    Trapezoid(c) <= c[|c| - 1].0 * (c[|c| - 1].1 - c[0].1)
  }

  lemma AboveExtend(c: seq<(real, real)>)
    requires |c| > 1 && Increasing(c) && Above(c[..|c| - 1])
    ensures Above(c)
  {
    var n := |c| - 1;
    LastStep(c);
    StepAbove(c[0].0, c[n - 1].0, c[n].0, c[0].1, c[n - 1].1, c[n].1, Trapezoid(c[..n]), Trapezoid(c));
  }

  lemma BelowExtend(c: seq<(real, real)>)
    requires |c| > 1 && Increasing(c) && Below(c[..|c| - 1])
    ensures Below(c)
  {
    var n := |c| - 1;
    LastStep(c);
    StepBelow(c[n - 1].0, c[n].0, c[0].1, c[n - 1].1, c[n].1, Trapezoid(c[..n]), Trapezoid(c));
  }

  /**
   * The trapezoid sum lies between the first value and the last value, each weighted by the
   * percentile range covered: the mean of a distribution lies between its extremes.
   */
  lemma TrapezoidBounds(c: seq<(real, real)>)
    requires |c| > 0 && Increasing(c)
    ensures c[0].0 * (c[|c| - 1].1 - c[0].1) <= Trapezoid(c) <= c[|c| - 1].0 * (c[|c| - 1].1 - c[0].1)
  {
    TrapezoidAbove(c);
    TrapezoidBelow(c);
  }

  /** The prefix without the last point keeps the first point and ends at the point before the last. */
  lemma LastStep(c: seq<(real, real)>)
    requires |c| > 1 && Increasing(c)
    ensures var n := |c| - 1;
            && c[..n][0] == c[0] && c[..n][n - 1] == c[n - 1]
            && c[0].0 <= c[n - 1].0 < c[n].0 && c[0].1 <= c[n - 1].1 < c[n].1
  {
  }

  /** A prefix of an increasing curve is increasing. */
  lemma IncreasingPrefix(c: seq<(real, real)>, n: nat)
    requires n <= |c| && Increasing(c)
    ensures Increasing(c[..n])
  {
    var p := c[..n];
    forall i, j | 0 <= i < j < |p| ensures p[i].0 < p[j].0 && p[i].1 < p[j].1 {
      assert p[i] == c[i] && p[j] == c[j];
    }
  }

  /** A single-point curve has mean 0. */
  lemma MeanOfSinglePoint(x: real, y: real)
    ensures Trapezoid([(x, y)]) / 100.0 == 0.0
  {
  }

  // ---------------------------------------------------------------- sample

  /** The first index whose percentile is at least `y`. */
  function FirstAtLeast(c: seq<(real, real)>, y: real): (i: nat)
    ensures i <= |c|
    ensures forall j | 0 <= j < i :: c[j].1 < y
    ensures i < |c| ==> c[i].1 >= y
  {
    if c == [] then 0
    else if c[0].1 >= y then 0
    else
      var i := 1 + FirstAtLeast(c[1..], y);
      assert forall j | 1 <= j < i :: c[j] == c[1..][j - 1];
      i
  }

  /** The inverse of the curve at percentile `y`: the first value below the first point, linear between points. */
  function Inverse(c: seq<(real, real)>, y: real): real
    requires ValidCurve(c) && y <= 100.0
  {
    var i := FirstAtLeast(c, y);
    assert i < |c|;
    if i == 0 then c[0].0
    else Interpolate(c[i - 1].0, c[i].0, c[i - 1].1, c[i].1, y)
  }

  /** `sample` for the uniform draw `y` in [0, 100]: scan for the first point at or above `y`, then interpolate. */
  method Sample(e: Ecdf, y: real) returns (x: real)
    requires ValidCurve(e.ecdf) && 0.0 <= y <= 100.0
    ensures x == Inverse(e.ecdf, y)
  {
    var c := e.ecdf;
    var i := 0;
    while y > c[i].1
      invariant i < |c|
      invariant forall j | 0 <= j < i :: c[j].1 < y
      decreases |c| - i
    {
      i := i + 1;
    }
    assert i == FirstAtLeast(c, y);
    if i == 0 {
      x := c[0].0;
    } else {
      var (x0, y0) := c[i - 1];
      var (x1, y1) := c[i];
      x := x0 + (x1 - x0) / (y1 - y0) * (y - y0);
    }
  }

  /** The straight line through (y0, x0) and (y1, x1), read at `y`. */
  function Interpolate(x0: real, x1: real, y0: real, y1: real, y: real): real
    requires y0 < y1
  {
    x0 + (x1 - x0) / (y1 - y0) * (y - y0)
  }

  /** Linear interpolation lies strictly inside (x0, x1] when the percentile lies in (y0, y1]. */
  lemma Lerp(x0: real, x1: real, y0: real, y1: real, y: real)
    requires x0 < x1 && y0 < y <= y1
    ensures x0 < Interpolate(x0, x1, y0, y1, y) <= x1
  {
    var d, t := y1 - y0, y - y0;
    var slope := (x1 - x0) / d;
    SlopeFacts(x1 - x0, d);
    MulPos(slope, t);
    MulLe(t, d, slope);
    assert Interpolate(x0, x1, y0, y1, y) == x0 + slope * t;
  }

  /** A positive rise over a positive run is a positive slope that gives the rise back over the run. */
  lemma SlopeFacts(rise: real, run: real)
    requires rise > 0.0 && run > 0.0
    ensures rise / run > 0.0 && rise / run * run == rise
  {
  }

  lemma MulPos(a: real, b: real)
    requires a > 0.0 && b > 0.0
    ensures a * b > 0.0
  {
  }

  /**
   * The value sampled lies within the curve, and above the first point it lies between the two
   * neighbouring values that bracket the percentile.
   */
  lemma InverseBounds(c: seq<(real, real)>, y: real)
    requires ValidCurve(c) && y <= 100.0
    ensures c[0].0 <= Inverse(c, y) <= c[|c| - 1].0
    ensures var i := FirstAtLeast(c, y);
            0 < i < |c| ==> c[i - 1].0 < Inverse(c, y) <= c[i].0
  {
    var i := FirstAtLeast(c, y);
    assert i < |c|;
    if i > 0 {
      var x0, x1, y0, y1 := c[i - 1].0, c[i].0, c[i - 1].1, c[i].1;
      assert x0 < x1 && y0 < y <= y1;
      Lerp(x0, x1, y0, y1, y);
      var last := c[|c| - 1].0;
      assert c[0].0 <= x0 && x1 <= last by {
        if i > 1 {
          assert c[0].0 < c[i - 1].0;
        }
        if i < |c| - 1 {
          assert c[i].0 < c[|c| - 1].0;
        }
      }
    } else if |c| > 1 {
      assert c[0].0 < c[|c| - 1].0;
    }
  }

  /** At the percentile of a point, the inverse gives exactly that point's value. */
  lemma InverseAtPoint(c: seq<(real, real)>, k: nat)
    requires ValidCurve(c) && k < |c|
    ensures Inverse(c, c[k].1) == c[k].0
  {
    if k > 0 {
      var (x0, y0) := c[k - 1];
      var (x1, y1) := c[k];
      assert y1 - y0 > 0.0;
      assert (x1 - x0) / (y1 - y0) * (y1 - y0) == x1 - x0;
    }
  }

  // ---------------------------------------------------------------- read_ecdf

  /** The errors of `read_ecdf`: a line without exactly two words, an unparsable value, an invalid curve. */
  datatype ReadError = InvalidCdfFile | InvalidX | InvalidY | Curve(error: EcdfError)

  /** One line: exactly two whitespace-separated words, each parsed by `parse` (`f64::from_str`). */
  function ParseLine(line: string, parse: string -> Option<real>): (r: Result<(real, real), ReadError>)
    ensures r.Ok? <==> var w := SplitWhitespace(line); |w| == 2 && parse(w[0]).Some? && parse(w[1]).Some?
    ensures |SplitWhitespace(line)| != 2 ==> r == Err(InvalidCdfFile)
  {
    var words := SplitWhitespace(line);
    if |words| != 2 then Err(InvalidCdfFile)
    else match parse(words[0])
      case None => Err(InvalidX)
      case Some(x) =>
        match parse(words[1])
        case None => Err(InvalidY)
        case Some(y) => Ok((x, y))
  }

  /** Every line parsed, stopping at the first error, as `collect` into a `Result` does. */
  function ParseLines(lines: seq<string>, parse: string -> Option<real>): Result<seq<(real, real)>, ReadError>
  {
    CollectMap(lines, line => ParseLine(line, parse))
  }

  /** `read_ecdf` on the file's contents: parse every line, then validate the curve. */
  method ReadEcdf(contents: string, parse: string -> Option<real>) returns (r: Result<Ecdf, ReadError>)
    ensures ParseLines(Lines(contents), parse).Err? ==> r == Err(ParseLines(Lines(contents), parse).error)
    ensures ParseLines(Lines(contents), parse).Ok? ==>
              var v := ParseLines(Lines(contents), parse).value;
              && (r.Ok? <==> ValidCurve(v))
              && (r.Ok? ==> r.value.ecdf == v)
              && (r.Err? ==> r.error == Curve(InvalidEcdf))
  {
    var parsed := ParseLines(Lines(contents), parse);
    if parsed.Err? {
      return Err(parsed.error);
    }
    var e := FromEcdf(parsed.value);
    if e.Err? {
      return Err(Curve(e.error));
    }
    return Ok(e.value);
  }

  /** A curve written one point per line, value and percentile separated by a space. */
  function RenderCurve(c: seq<(real, real)>, show: real -> string): string
  {
    Terminated(seq(|c|, k requires 0 <= k < |c| => show(c[k].0) + " " + show(c[k].1)))
  }

  /** Two words joined by a space form one line that splits back into the two words. */
  lemma TwoWordLine(a: string, b: string)
    requires a != [] && NoneOf(a, IsWhitespace) && b != [] && NoneOf(b, IsWhitespace)
    ensures IsLine(a + " " + b) && SplitWhitespace(a + " " + b) == [a, b]
  {
    var l := a + " " + b;
    assert Join([a, b], " ") == l;
    WordsOfJoin([a, b], ' ', IsWhitespace);
    assert IsWhitespace('\n') && IsWhitespace('\r');
    forall i | 0 <= i < |l| ensures l[i] != '\n' {
      if i < |a| {
        assert l[i] == a[i];
      } else if i > |a| {
        assert l[i] == b[i - |a| - 1];
      }
    }
    assert l[|l| - 1] == b[|b| - 1];
  }

  /** One rendered point is a line that parses back to the point. */
  lemma PointLine(p: (real, real), show: real -> string, parse: string -> Option<real>)
    requires parse(show(p.0)) == Some(p.0) && parse(show(p.1)) == Some(p.1)
    requires |show(p.0)| > 0 && NoneOf(show(p.0), IsWhitespace)
    requires |show(p.1)| > 0 && NoneOf(show(p.1), IsWhitespace)
    ensures IsLine(show(p.0) + " " + show(p.1))
    ensures ParseLine(show(p.0) + " " + show(p.1), parse) == Ok(p)
  {
    TwoWordLine(show(p.0), show(p.1));
  }

  /**
   * Reading back a rendered curve gives the curve, for any number rendering that `parse` inverts
   * and that yields a non-empty word without whitespace.
   */
  lemma ParseLinesOfRender(c: seq<(real, real)>, show: real -> string, parse: string -> Option<real>)
    requires forall x :: parse(show(x)) == Some(x)
    requires forall x :: |show(x)| > 0 && NoneOf(show(x), IsWhitespace)
    ensures ParseLines(Lines(RenderCurve(c, show)), parse) == Ok(c)
  {
    var ls := seq(|c|, k requires 0 <= k < |c| => show(c[k].0) + " " + show(c[k].1));
    forall k | 0 <= k < |c| ensures IsLine(ls[k]) && ParseLine(ls[k], parse) == Ok(c[k]) {
      var x, y := c[k].0, c[k].1;
      assert parse(show(x)) == Some(x) && parse(show(y)) == Some(y);
      assert |show(x)| > 0 && NoneOf(show(x), IsWhitespace);
      assert |show(y)| > 0 && NoneOf(show(y), IsWhitespace);
      PointLine(c[k], show, parse);
    }
    LinesOfTerminated(ls);
    ParsedLines(ls, c, parse);
  }

  /** Lines that each parse to the matching point parse, together, to the points. */
  lemma ParsedLines(ls: seq<string>, c: seq<(real, real)>, parse: string -> Option<real>)
    requires |ls| == |c| && forall k | 0 <= k < |ls| :: ParseLine(ls[k], parse) == Ok(c[k])
    ensures ParseLines(ls, parse) == Ok(c)
  {
    var f := line => ParseLine(line, parse);
    assert forall k | 0 <= k < |ls| :: f(ls[k]) == Ok(c[k]);
    var r := CollectMap(ls, f);
    assert r.Ok?;
    assert r.value == c;
  }

  /** A file is read only when every line has exactly two words, both of which parse. */
  lemma ReadEcdfNeedsTwoWords(lines: seq<string>, parse: string -> Option<real>, k: nat)
    requires k < |lines| && |SplitWhitespace(lines[k])| != 2
    ensures ParseLines(lines, parse).Err?
  {
    var f := line => ParseLine(line, parse);
    assert !f(lines[k]).Ok?;
  }
}
