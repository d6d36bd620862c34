/** What the numbers of `Statistics` are, by the equations that define them. */
module StatisticsMeaning {
  import opened Collections
  import opened Sorting
  import opened Statistics

  // ---------- Sums, means and counts ----------

  lemma TotalSnoc(values: seq<real>, x: real)
    ensures Total([]) == 0.0 && Total(values + [x]) == Total(values) + x
  {
    assert (values + [x])[..|values|] == values;
  }

  /** `n` times the quotient is the dividend. */
  lemma QuotientReads(a: real, n: nat)
    requires n > 0
    ensures Times(a / n as real, n) == a
  {
    TimesProduct(a / n as real, n);
    QuotientTimes(a, n as real);
  }

  lemma QuotientTimes(a: real, n: real)
    requires n > 0.0
    ensures a / n * n == a
  {
  }

  /** The mean, added up as many times as there are values, is their sum. */
  lemma MeanReads(values: seq<real>)
    ensures Times(Mean(values), |values|) == Total(values)
  {
    if values != [] {
      QuotientReads(Total(values), |values|);
    }
  }

  predicate IsPositive(x: real) { x > 0.0 }

  predicate IsNegative(x: real) { x < 0.0 }

  predicate IsTrue(b: bool) { b }

  /** Wins and losses are the numbers of positive and of negative differences. */
  lemma {:induction false} SignsCounted(d: seq<real>)
    ensures Positives(d) == |Places(d, IsPositive)| && Negatives(d) == |Places(d, IsNegative)|
  {
    if d == [] {
      NoPlaces(IsPositive);
      NoPlaces(IsNegative);
    } else {
      var init, last := d[..|d| - 1], d[|d| - 1];
      assert d == init + [last];
      SignsCounted(init);
      PlacesSnoc(init, last, IsPositive);
      PlacesSnoc(init, last, IsNegative);
    }
  }

  lemma {:induction false} PassesCounted(results: seq<bool>)
    ensures PassedIn(results) == |Places(results, IsTrue)|
  {
    if results == [] {
      NoPlaces(IsTrue);
    } else {
      var init, last := results[..|results| - 1], results[|results| - 1];
      assert results == init + [last];
      PassesCounted(init);
      PlacesSnoc(init, last, IsTrue);
    }
  }

  // ---------- Percentiles ----------

  /** Between the probabilities of two neighbours the percentile is the straight line between them. */
  lemma PercentileSegment(sorted: seq<real>, p: real, k: nat)
    requires k + 1 < |sorted| && 0.0 <= p <= 1.0
    requires k as real <= p * (|sorted| - 1) as real <= (k + 1) as real
    ensures Percentile(sorted, p) ==
            sorted[k] + (sorted[k + 1] - sorted[k]) * (p * (|sorted| - 1) as real - k as real)
  {
    PositionOrder(p, p, |sorted|);
    AtSegment(sorted, Position(p, |sorted|), k);
  }

  lemma AtSegment(sorted: seq<real>, x: real, k: nat)
    requires k + 1 < |sorted| && k as real <= x <= (k + 1) as real
    ensures At(sorted, x) == sorted[k] + (sorted[k + 1] - sorted[k]) * (x - k as real)
  {
    if x == (k + 1) as real {
      assert x.Floor == k + 1;
    } else {
      assert x.Floor == k;
    }
  }

  lemma OnlyPercentile(x: real, p: real)
    requires 0.0 <= p <= 1.0
    ensures Percentile([x], p) == x
  {
  }

  /** The interval leaves out half of what the confidence leaves open on each side of the sorted means. */
  lemma IntervalReads(means: seq<real>, confidence: real, tail: real) returns (sorted: seq<real>)
    requires |means| > 0 && 0.0 < confidence < 1.0 && confidence + tail + tail == 1.0
    ensures multiset(sorted) == multiset(means) && |sorted| == |means|
    ensures forall i, j | 0 <= i < j < |sorted| :: sorted[i] <= sorted[j]
    ensures PercentileInterval(means, confidence) == Interval(Percentile(sorted, tail), Percentile(sorted, 1.0 - tail))
  {
    sorted := Sort(means, LeReal);
    SortLength(means);
    SortedMeans(means);
    assert (1.0 - confidence) / 2.0 == tail;
  }

  lemma SortedMeans(means: seq<real>)
    ensures forall i, j | 0 <= i < j < |Sort(means, LeReal)| :: Sort(means, LeReal)[i] <= Sort(means, LeReal)[j]
  {
    LeRealTotal();
    SortSorted(means, LeReal);
    var sorted := Sort(means, LeReal);
    forall i, j | 0 <= i < j < |sorted|
      ensures sorted[i] <= sorted[j]
    {
      assert LeReal(sorted[i], sorted[j]);
    }
  }

  // ---------- Resampling ----------

  /** `x` is the difference that the random number `r` picks out of `d`: each has the same share of [0, 1). */
  ghost predicate PickedBy(d: seq<real>, r: real, x: real) {
    exists k: nat :: k < |d| && Share(k, |d|, r) && x == d[k]
  }

  ghost predicate Share(k: nat, n: nat, r: real) {
    k as real <= r * n as real < (k + 1) as real
  }

  lemma DrawnReads(d: seq<real>, random: nat -> real, position: nat)
    requires |d| > 0 && UnitStream(random)
    ensures PickedBy(d, random(position), Drawn(d, random, position))
  {
    IndexInRange(random, position, |d|);
    var k := SampleIndex(random, position, |d|);
    assert Share(k, |d|, random(position));
  }

  ghost predicate Resampled(sample: seq<real>, d: seq<real>, random: nat -> real, from: nat) {
    forall j: nat | j < |sample| :: PickedBy(d, random(from + j), sample[j])
  }

  lemma {:induction false} SampleReads(d: seq<real>, random: nat -> real, from: nat, k: nat)
    returns (sample: seq<real>)
    requires |d| > 0 && UnitStream(random)
    ensures |sample| == k && Resampled(sample, d, random, from)
    ensures SampleTotal(d, random, from, k) == Total(sample)
    decreases k
  {
    sample := [];
    if k > 0 {
      var init := SampleReads(d, random, from, k - 1);
      var x := Drawn(d, random, from + k - 1);
      DrawnReads(d, random, from + k - 1);
      TotalSnoc(init, x);
      sample := init + [x];
    }
  }

  lemma {:induction false} BootstrapMeanAt(d: seq<real>, random: nat -> real, iterations: nat, i: nat, from: nat)
    requires |d| > 0 && i < iterations && from == i * |d|
    ensures BootstrapMeans(d, random, iterations)[i] == SampleTotal(d, random, from, |d|) / |d| as real
    decreases iterations
  {
    if i < iterations - 1 {
      BootstrapMeanAt(d, random, iterations - 1, i, from);
    }
  }

  /** Mean `i` is the mean of as many draws as there are differences, by the random numbers of its own block. */
  lemma BootstrapMeansRead(d: seq<real>, random: nat -> real, iterations: nat, i: nat, from: nat)
    returns (sample: seq<real>)
    requires |d| > 0 && i < iterations && UnitStream(random) && from == i * |d|
    ensures |sample| == |d| && Resampled(sample, d, random, from)
    ensures Times(BootstrapMeans(d, random, iterations)[i], |d|) == Total(sample)
  {
    BootstrapMeanAt(d, random, iterations, i, from);
    sample := BlockReads(d, random, from, BootstrapMeans(d, random, iterations)[i]);
  }

  lemma BlockReads(d: seq<real>, random: nat -> real, from: nat, mean: real) returns (sample: seq<real>)
    requires |d| > 0 && UnitStream(random) && mean == SampleTotal(d, random, from, |d|) / |d| as real
    ensures |sample| == |d| && Resampled(sample, d, random, from) && Times(mean, |d|) == Total(sample)
  {
    sample := SampleReads(d, random, from, |d|);
    QuotientReads(SampleTotal(d, random, from, |d|), |d|);
  }

  /** The summary: mean and count of the differences, the interval of the resampled means, which is a point if there
      is nothing to resample, and significant exactly if zero lies outside. */
  lemma SummaryReads(d: seq<real>, confidence: real, iterations: nat, random: nat -> real)
    requires 0.0 < confidence < 1.0 && iterations >= 100
    ensures
      var s := BootstrapSummary(d, confidence, iterations, random);
      && s.n == |d| && Times(s.mean, |d|) == Total(d)
      && (d == [] ==> s.mean == 0.0)
      && (|d| < 2 ==> s.ci.lower == s.mean && s.ci.upper == s.mean)
      && (|d| >= 2 ==> s.ci == PercentileInterval(BootstrapMeans(d, random, iterations), confidence))
      && (s.significant <==> s.ci.lower > 0.0 || s.ci.upper < 0.0)
  {
    MeanReads(d);
  }

  // ---------- The generator ----------

  /** The first 32-bit numbers for two seeds. */
  lemma FirstMixes()
    ensures Mix(Advance(0)) == 1144304738 && Mix(Advance(Advance(0))) == 1416247
    ensures Mix(Advance(42)) == 2581720956 && Mix(Advance(Advance(42))) == 1925393290
  {
  }

  /** The first values of the streams for two seeds, as 32-bit fractions. */
  lemma FirstDraws()
    ensures MulberryStream(0)(0) * 4294967296.0 == 1144304738.0 && MulberryStream(0)(1) * 4294967296.0 == 1416247.0
    ensures MulberryStream(42)(0) * 4294967296.0 == 2581720956.0
    ensures MulberryStream(42)(1) * 4294967296.0 == 1925393290.0
  {
    FirstMixes();
    assert MulberryState(0, 1) == Advance(0) && MulberryState(0, 2) == Advance(Advance(0));
    assert MulberryState(42, 1) == Advance(42) && MulberryState(42, 2) == Advance(Advance(42));
  }

  // ---------- The Wilson interval ----------

  /** `y` is a root of the quadratic that squares give. */
  lemma ShiftedSquare(y: real, c: real, t: real)
    requires y == c + t
    ensures y * y - 2.0 * c * y + c * c == t * t
  {
    assert (c + t) * (c + t) == c * c + 2.0 * (c * t) + t * t;
    assert 2.0 * c * y == 2.0 * (c * c) + 2.0 * (c * t);
  }

  /** With D = 1 + w, the square of half the middle coefficient less the square of `t` is D times the last one. */
  lemma Discriminant(p: real, w: real, t: real)
    requires t * t == w * (p * (1.0 - p)) + w * w / 4.0
    ensures (p + w / 2.0) * (p + w / 2.0) - t * t == (1.0 + w) * (p * p)
  {
    UpperSquare(p, w, p * p, w * p, w * w);
  }

  lemma CancelFactor(d: real, q: real)
    requires d > 0.0 && d * q == 0.0
    ensures q == 0.0
  {
    if q > 0.0 {
      MulPositive(d, q);
    } else if q < 0.0 {
      MulPositive(d, -q);
    }
  }

  lemma ScoreEquation(p: real, w: real, t: real, x: real)
    requires w > 0.0 && t * t == w * (p * (1.0 - p)) + w * w / 4.0 && x * (1.0 + w) == p + w / 2.0 + t
    ensures (p - x) * (p - x) == w * (x * (1.0 - x))
  {
    var d, c := 1.0 + w, p + w / 2.0;
    var xx, pp := x * x, p * p;
    ShiftedSquare(x * d, c, t);
    Discriminant(p, w, t);
    SquareOfProduct(x, d);
    FactorOut(d, x, xx, c, pp);
    CancelFactor(d, d * xx - 2.0 * c * x + pp);
    ExpandScore(p, w, x, xx, pp);
  }

  lemma FactorOut(d: real, x: real, xx: real, c: real, pp: real)
    requires xx * (d * d) - 2.0 * c * (x * d) + d * pp == 0.0
    ensures d * (d * xx - 2.0 * c * x + pp) == 0.0
  {
    assert d * (d * xx) == xx * (d * d);
    assert d * (2.0 * c * x) == 2.0 * c * (x * d);
    assert d * (d * xx - 2.0 * c * x + pp) == d * (d * xx) - d * (2.0 * c * x) + d * pp;
  }

  lemma ExpandScore(p: real, w: real, x: real, xx: real, pp: real)
    requires xx == x * x && pp == p * p
    requires (1.0 + w) * xx - 2.0 * (p + w / 2.0) * x + pp == 0.0
    ensures (p - x) * (p - x) == w * (x * (1.0 - x))
  {
    assert (p - x) * (p - x) == pp - 2.0 * (p * x) + xx;
    assert 2.0 * (p + w / 2.0) * x == 2.0 * (p * x) + w * x;
    assert x * (1.0 - x) == x - xx;
    assert w * (x - xx) == w * x - w * xx;
  }

  /** Both ends of the interval are where the distance to the observed rate is `z` standard errors. */
  lemma WilsonEnds(rate: real, z: real, n: real, sqrt: real -> real, x: real)
    requires n > 0.0 && z > 0.0 && 0.0 <= rate <= 1.0 && SquareRoot(sqrt)
    requires x == WilsonOf(rate, z, n, sqrt).lower || x == WilsonOf(rate, z, n, sqrt).upper
    ensures n * ((rate - x) * (rate - x)) == z * z * (x * (1.0 - x))
  {
    var root := sqrt(Spread(rate, z, n));
    SpreadNonNegative(rate, z, n);
    WilsonSquare(rate, z, n, root);
    EndAt(rate, z, n, root);
    var w, t := z * z / n, z * root;
    EndEquation(rate, z * z, n, w, t, if x == WilsonOf(rate, z, n, sqrt).lower then -t else t, x);
  }

  lemma EndAt(rate: real, z: real, n: real, root: real)
    requires n > 0.0 && z > 0.0 && z * z / (2.0 * n) == z * z / n / 2.0 && z * z / n > 0.0
    ensures
      var w, t := z * z / n, z * root;
      && Center(rate, z, n) + Margin(root, z, n) == (rate + w / 2.0 + t) / (1.0 + w)
      && Center(rate, z, n) - Margin(root, z, n) == (rate + w / 2.0 + -t) / (1.0 + w)
  {
    var w, t := z * z / n, z * root;
    QuotientSplit(rate + w / 2.0, t, 1.0 + w);
  }

  lemma EndEquation(rate: real, zz: real, n: real, w: real, t: real, s: real, x: real)
    requires n > 0.0 && w > 0.0 && w == zz / n && t * t == w * (rate * (1.0 - rate)) + w * w / 4.0
    requires (s == t || s == -t) && x == (rate + w / 2.0 + s) / (1.0 + w)
    ensures n * ((rate - x) * (rate - x)) == zz * (x * (1.0 - x))
  {
    QuotientTimes(rate + w / 2.0 + s, 1.0 + w);
    SameSquare(s, t);
    ScoreEquation(rate, w, s, x);
    Unscale(n, w, zz, (rate - x) * (rate - x), x * (1.0 - x));
  }

  lemma SameSquare(s: real, t: real)
    requires s == t || s == -t
    ensures s * s == t * t
  {
  }

  lemma Unscale(n: real, w: real, zz: real, left: real, right: real)
    requires n > 0.0 && w == zz / n && left == w * right
    ensures n * left == zz * right
  {
    QuotientTimes(zz, n);
    assert n * (w * right) == w * n * right;
  }
}
