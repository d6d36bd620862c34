/** The statistics behind the verdicts, over exact reals and for every random stream. */
module Statistics {
  import opened Collections
  import opened Sorting

  datatype Interval = Interval(lower: real, upper: real)

  datatype Summary = Summary(mean: real, ci: Interval, n: nat, significant: bool)

  function Total(values: seq<real>): real {
    if values == [] then 0.0 else Total(values[..|values| - 1]) + values[|values| - 1]
  }

  function Mean(values: seq<real>): real {
    if values == [] then 0.0 else Total(values) / |values| as real
  }

  ghost predicate Within(values: seq<real>, low: real, high: real) {
    forall i | 0 <= i < |values| :: low <= values[i] <= high
  }

  lemma MulNonNegative(a: real, b: real)
    requires a >= 0.0 && b >= 0.0
    ensures a * b >= 0.0
  {
  }

  lemma MulPositive(a: real, b: real)
    requires a > 0.0 && b > 0.0
    ensures a * b > 0.0
  {
  }

  lemma CancelPositive(a: real, n: real)
    requires n > 0.0 && a * n >= 0.0
    ensures a >= 0.0
  {
    if a < 0.0 {
      MulPositive(-a, n);
    }
  }

  lemma OneMore(x: real, n: nat)
    ensures x * (n + 1) as real == x * n as real + x
  {
  }

  lemma {:induction false} TotalBounds(values: seq<real>, low: real, high: real)
    requires Within(values, low, high)
    ensures low * |values| as real <= Total(values) <= high * |values| as real
  {
    if values != [] {
      var n := |values| - 1;
      TotalBounds(values[..n], low, high);
      OneMore(low, n);
      OneMore(high, n);
    }
  }

  lemma QuotientBounds(t: real, n: real, low: real, high: real)
    requires n > 0.0 && low * n <= t <= high * n
    ensures low <= t / n <= high
  {
    var q := t / n;
    assert q * n == t;
    assert (q - low) * n == t - low * n;
    assert (high - q) * n == high * n - t;
    CancelPositive(q - low, n);
    CancelPositive(high - q, n);
  }

  lemma MeanBounds(values: seq<real>, low: real, high: real)
    requires values != [] && Within(values, low, high)
    ensures low <= Mean(values) <= high
  {
    TotalBounds(values, low, high);
    QuotientBounds(Total(values), |values| as real, low, high);
  }

  method ComputeMean(values: seq<real>) returns (mean: real)
    ensures mean == Mean(values)
  {
    if |values| == 0 {
      return 0.0;
    }
    var total := 0.0;
    for i := 0 to |values|
      invariant total == Total(values[..i])
    {
      assert values[..i + 1][..i] == values[..i];
      total := total + values[i];
    }
    assert values[..|values|] == values;
    mean := total / |values| as real;
  }

  function Differences(baseline: seq<real>, candidate: seq<real>): (d: seq<real>)
    requires |baseline| == |candidate|
    ensures |d| == |baseline| && forall i | 0 <= i < |d| :: d[i] == candidate[i] - baseline[i]
  {
    seq(|baseline|, i requires 0 <= i < |baseline| => candidate[i] - baseline[i])
  }

  function LeReal(a: real, b: real): bool { a <= b }

  lemma LeRealTotal()
    ensures TotalOrder(LeReal)
  {
  }

  // ---------- Percentiles ----------

  function Ceiling(x: real): int {
    if x.Floor as real == x then x.Floor else x.Floor + 1
  }

  /** The point a fraction `w` of the way from `a` to `b`. */
  function Blend(a: real, b: real, w: real): real {
    a + (b - a) * w
  }

  /** The position a probability points at in a list of `n` values. */
  function Position(probability: real, n: nat): real
    requires n > 0
  {
    probability * (n - 1) as real
  }

  lemma PositionOrder(p: real, q: real, n: nat)
    requires 0.0 <= p <= q <= 1.0 && n > 0
    ensures 0.0 <= Position(p, n) <= Position(q, n) <= (n - 1) as real
  {
    var last := (n - 1) as real;
    MulNonNegative(p, last);
    MulNonNegative(q - p, last);
    MulNonNegative(1.0 - q, last);
    assert q * last - p * last == (q - p) * last;
    assert last - q * last == (1.0 - q) * last;
  }

  /** Linear interpolation between the neighbours of a position. */
  function At(sorted: seq<real>, rawIndex: real): real
    requires |sorted| > 0 && 0.0 <= rawIndex <= (|sorted| - 1) as real
  {
    var lower, upper := rawIndex.Floor, Ceiling(rawIndex);
    if lower == upper then sorted[lower] else Blend(sorted[lower], sorted[upper], rawIndex - lower as real)
  }

  function Percentile(sorted: seq<real>, probability: real): real
    requires |sorted| > 0 && 0.0 <= probability <= 1.0
  {
    PositionOrder(probability, probability, |sorted|);
    At(sorted, Position(probability, |sorted|))
  }

  lemma Interpolates(a: real, b: real, w: real)
    requires a <= b && 0.0 <= w <= 1.0
    ensures a <= Blend(a, b, w) <= b
  {
    MulNonNegative(b - a, w);
    MulNonNegative(b - a, 1.0 - w);
  }

  lemma BlendMonotone(a: real, b: real, v: real, w: real)
    requires a <= b && v <= w
    ensures Blend(a, b, v) <= Blend(a, b, w)
  {
    MulNonNegative(b - a, w - v);
    assert (b - a) * w - (b - a) * v == (b - a) * (w - v);
  }

  lemma Between(sorted: seq<real>, x: real)
    requires Sorted(sorted, LeReal) && |sorted| > 0 && 0.0 <= x <= (|sorted| - 1) as real
    ensures sorted[x.Floor] <= At(sorted, x)
    ensures x.Floor + 1 < |sorted| ==> At(sorted, x) <= sorted[x.Floor + 1]
    ensures sorted[0] <= At(sorted, x) <= sorted[|sorted| - 1]
  {
    var k := x.Floor;
    assert k == 0 || LeReal(sorted[0], sorted[k]);
    if k as real == x {
      assert k == |sorted| - 1 || LeReal(sorted[k], sorted[|sorted| - 1]);
      assert k + 1 < |sorted| ==> LeReal(sorted[k], sorted[k + 1]);
    } else {
      assert LeReal(sorted[k], sorted[k + 1]);
      Interpolates(sorted[k], sorted[k + 1], x - k as real);
      assert k + 1 == |sorted| - 1 || LeReal(sorted[k + 1], sorted[|sorted| - 1]);
    }
  }

  lemma AtMonotone(sorted: seq<real>, x: real, y: real)
    requires Sorted(sorted, LeReal) && |sorted| > 0 && 0.0 <= x <= y <= (|sorted| - 1) as real
    ensures At(sorted, x) <= At(sorted, y)
  {
    Between(sorted, x);
    Between(sorted, y);
    if x.Floor == y.Floor {
      var k := x.Floor;
      if k as real != y {
        assert LeReal(sorted[k], sorted[k + 1]);
        BlendMonotone(sorted[k], sorted[k + 1], x - k as real, y - k as real);
      }
    } else {
      assert x.Floor + 1 <= y.Floor;
      assert x.Floor + 1 == y.Floor || LeReal(sorted[x.Floor + 1], sorted[y.Floor]);
    }
  }

  /** Percentiles stay inside the data and grow with the probability. */
  lemma PercentileMonotone(sorted: seq<real>, p: real, q: real)
    requires Sorted(sorted, LeReal) && |sorted| > 0 && 0.0 <= p <= q <= 1.0
    ensures sorted[0] <= Percentile(sorted, p) <= Percentile(sorted, q) <= sorted[|sorted| - 1]
  {
    PositionOrder(p, q, |sorted|);
    AtOrder(sorted, Position(p, |sorted|), Position(q, |sorted|));
  }

  lemma AtOrder(sorted: seq<real>, x: real, y: real)
    requires Sorted(sorted, LeReal) && |sorted| > 0 && 0.0 <= x <= y <= (|sorted| - 1) as real
    ensures sorted[0] <= At(sorted, x) <= At(sorted, y) <= sorted[|sorted| - 1]
  {
    Between(sorted, x);
    Between(sorted, y);
    AtMonotone(sorted, x, y);
  }

  // ---------- Bootstrap ----------

  ghost predicate UnitStream(random: nat -> real) {
    forall k :: 0.0 <= random(k) < 1.0
  }

  lemma SampleInRange(r: real, n: nat)
    requires 0.0 <= r < 1.0 && n > 0
    ensures 0 <= (r * n as real).Floor < n
  {
    MulNonNegative(r, n as real);
    MulPositive(1.0 - r, n as real);
  }

  function SampleIndex(random: nat -> real, position: nat, n: nat): int {
    (random(position) * n as real).Floor
  }

  lemma IndexInRange(random: nat -> real, position: nat, n: nat)
    requires UnitStream(random) && n > 0
    ensures 0 <= SampleIndex(random, position, n) < n
  {
    SampleInRange(random(position), n);
  }

  /** The sum of the first `k` samples of one resampling; `from` is the stream position it starts at. */
  function SampleTotal(differences: seq<real>, random: nat -> real, from: nat, k: nat): real
    requires |differences| > 0
  {
    if k == 0 then 0.0
    else SampleTotal(differences, random, from, k - 1) + Drawn(differences, random, from + k - 1)
  }

  /** The difference drawn at a stream position. */
  function Drawn(differences: seq<real>, random: nat -> real, position: nat): real
    requires |differences| > 0
  {
    var index := SampleIndex(random, position, |differences|);
    if 0 <= index < |differences| then differences[index] else 0.0
  }

  lemma DrawnBounds(differences: seq<real>, random: nat -> real, position: nat, low: real, high: real)
    requires |differences| > 0 && UnitStream(random) && Within(differences, low, high)
    ensures low <= Drawn(differences, random, position) <= high
  {
    IndexInRange(random, position, |differences|);
  }

  /** The means of the first `iterations` resamplings. */
  function BootstrapMeans(differences: seq<real>, random: nat -> real, iterations: nat): (means: seq<real>)
    requires |differences| > 0
    ensures |means| == iterations
  {
    if iterations == 0 then []
    else
      BootstrapMeans(differences, random, iterations - 1) +
        [SampleTotal(differences, random, (iterations - 1) * |differences|, |differences|) / |differences| as real]
  }

  /** `k` times `x`, by addition alone. */
  function Times(x: real, k: nat): real {
    if k == 0 then 0.0 else Times(x, k - 1) + x
  }

  lemma {:induction false} TimesProduct(x: real, k: nat)
    ensures Times(x, k) == x * k as real
  {
    if k > 0 {
      TimesProduct(x, k - 1);
      OneMore(x, k - 1);
    }
  }

  lemma {:induction false} SampleTotalTimes(differences: seq<real>, random: nat -> real, from: nat, k: nat, low: real,
                                            high: real)
    requires |differences| > 0 && UnitStream(random) && Within(differences, low, high)
    ensures Times(low, k) <= SampleTotal(differences, random, from, k) <= Times(high, k)
    decreases k
  {
    if k > 0 {
      SampleTotalTimes(differences, random, from, k - 1, low, high);
      DrawnBounds(differences, random, from + k - 1, low, high);
    }
  }

  lemma SampleTotalBounds(differences: seq<real>, random: nat -> real, from: nat, k: nat, low: real, high: real)
    requires |differences| > 0 && UnitStream(random) && Within(differences, low, high)
    ensures low * k as real <= SampleTotal(differences, random, from, k) <= high * k as real
  {
    SampleTotalTimes(differences, random, from, k, low, high);
    TimesProduct(low, k);
    TimesProduct(high, k);
  }

  lemma {:induction false} BootstrapMeansBounds(differences: seq<real>, random: nat -> real, iterations: nat,
                                                low: real, high: real)
    requires |differences| > 0 && UnitStream(random) && Within(differences, low, high)
    ensures Within(BootstrapMeans(differences, random, iterations), low, high)
    decreases iterations
  {
    if iterations > 0 {
      BootstrapMeansBounds(differences, random, iterations - 1, low, high);
      SampleMeanBounds(differences, random, (iterations - 1) * |differences|, low, high);
    }
  }

  lemma SampleMeanBounds(differences: seq<real>, random: nat -> real, from: nat, low: real, high: real)
    requires |differences| > 0 && UnitStream(random) && Within(differences, low, high)
    ensures low <= SampleTotal(differences, random, from, |differences|) / |differences| as real <= high
  {
    var n := |differences|;
    SampleTotalBounds(differences, random, from, n, low, high);
    QuotientBounds(SampleTotal(differences, random, from, n), n as real, low, high);
  }

  predicate ExcludesZero(ci: Interval) {
    ci.lower > 0.0 || ci.upper < 0.0
  }

  /** The interval that leaves the fraction `tail` out on each side. */
  function TailInterval(sorted: seq<real>, tail: real): Interval
    requires |sorted| > 0 && 0.0 <= tail <= 1.0
  {
    Interval(Percentile(sorted, tail), Percentile(sorted, 1.0 - tail))
  }

  function PercentileInterval(means: seq<real>, confidence: real): Interval
    requires |means| > 0 && 0.0 < confidence < 1.0
  {
    SortLength(means);
    TailInterval(Sort(means, LeReal), (1.0 - confidence) / 2.0)
  }

  lemma IntervalWithin(means: seq<real>, confidence: real, low: real, high: real)
    requires |means| > 0 && 0.0 < confidence < 1.0 && Within(means, low, high)
    ensures
      var ci := PercentileInterval(means, confidence);
      low <= ci.lower <= ci.upper <= high
  {
    var sorted := Sort(means, LeReal);
    LeRealTotal();
    SortSorted(means, LeReal);
    Permuted(sorted, means);
    assert sorted[0] in means && sorted[|sorted| - 1] in means;
    var alpha := 1.0 - confidence;
    PercentileMonotone(sorted, alpha / 2.0, 1.0 - alpha / 2.0);
  }

  function BootstrapSummary(differences: seq<real>, confidence: real, iterations: nat, random: nat -> real): Summary
    requires 0.0 < confidence < 1.0 && iterations >= 100
  {
    var mean := Mean(differences);
    if |differences| < 2 then
      var point := Interval(mean, mean);
      Summary(mean, point, |differences|, ExcludesZero(point))
    else
      var ci := PercentileInterval(BootstrapMeans(differences, random, iterations), confidence);
      Summary(mean, ci, |differences|, ExcludesZero(ci))
  }

  lemma SortLength(s: seq<real>)
    ensures |Sort(s, LeReal)| == |s|
  {
    Permuted(Sort(s, LeReal), s);
  }

  /** One resampling: as many draws as there are differences, each index in range. */
  method DrawSample(differences: seq<real>, random: nat -> real, from: nat) returns (total: real)
    requires |differences| > 0 && UnitStream(random)
    ensures total == SampleTotal(differences, random, from, |differences|)
  {
    total := 0.0;
    for index := 0 to |differences|
      invariant total == SampleTotal(differences, random, from, index)
    {
      SampleInRange(random(from + index), |differences|);
      total := total + differences[SampleIndex(random, from + index, |differences|)];
    }
  }

  /** `None`: the inputs differ in length. */
  method BootstrapPairedCI(baseline: seq<real>, candidate: seq<real>, confidence: real, iterations: nat,
                           random: nat -> real)
    returns (r: Option<Summary>)
    requires 0.0 < confidence < 1.0 && iterations >= 100 && UnitStream(random)
    ensures r.Some? <==> |baseline| == |candidate|
    ensures r.Some? ==> r.value == BootstrapSummary(Differences(baseline, candidate), confidence, iterations, random)
  {
    if |baseline| != |candidate| {
      return None;
    }
    var differences := Differences(baseline, candidate);
    var mean := ComputeMean(differences);
    var n := |differences|;
    if n < 2 {
      return Some(Summary(mean, Interval(mean, mean), n, ExcludesZero(Interval(mean, mean))));
    }
    var bootstrapMeans: seq<real> := [];
    for iteration := 0 to iterations
      invariant bootstrapMeans == BootstrapMeans(differences, random, iteration)
    {
      var sampledTotal := DrawSample(differences, random, iteration * n);
      bootstrapMeans := bootstrapMeans + [sampledTotal / n as real];
    }
    var ci := PercentileInterval(bootstrapMeans, confidence);
    r := Some(Summary(mean, ci, n, ExcludesZero(ci)));
  }

  /** For every random stream the interval lies within the range of the differences, and so does the mean. */
  lemma BootstrapWithinRange(differences: seq<real>, confidence: real, iterations: nat, random: nat -> real,
                             low: real, high: real)
    requires 0.0 < confidence < 1.0 && iterations >= 100 && UnitStream(random)
    requires differences != [] && Within(differences, low, high)
    ensures
      var s := BootstrapSummary(differences, confidence, iterations, random);
      low <= s.ci.lower <= s.ci.upper <= high && low <= s.mean <= high
  {
    MeanBounds(differences, low, high);
    if |differences| >= 2 {
      BootstrapMeansBounds(differences, random, iterations, low, high);
      IntervalWithin(BootstrapMeans(differences, random, iterations), confidence, low, high);
    }
  }

  // ---------- The generator ----------

  /** mulberry32: the state moves by a constant, and a value in [0, 1) is mixed out of it. */
  function Advance(state: bv32): bv32 {
    state + 0x6d2b79f5
  }

  function Mix(state: bv32): bv32 {
    var a := (state ^ (state >> 15)) * (state | 1);
    var b := a ^ (a + (a ^ (a >> 7)) * (a | 61));
    b ^ (b >> 14)
  }

  function Draw(state: bv32): (value: real)
    ensures 0.0 <= value < 1.0
  {
    Mix(state) as int as real / 4294967296.0
  }

  function MulberryState(seed: bv32, k: nat): bv32 {
    if k == 0 then seed else Advance(MulberryState(seed, k - 1))
  }

  function MulberryStream(seed: bv32): nat -> real {
    (k: nat) => Draw(MulberryState(seed, k + 1))
  }

  /** The generator is one of the streams the theorems quantify over. */
  lemma MulberryIsUnitStream(seed: bv32)
    ensures UnitStream(MulberryStream(seed))
  {
    forall k
      ensures 0.0 <= MulberryStream(seed)(k) < 1.0
    {
    }
  }

  /** The closure the source builds from a seed: a state that each call advances. */
  class Generator {
    ghost const seed: bv32
    ghost var drawn: nat
    var state: bv32

    ghost predicate Valid()
      reads this
    {
      state == MulberryState(seed, drawn)
    }

    constructor (seed: bv32)
      ensures Valid() && this.seed == seed && drawn == 0
    {
      this.seed := seed;
      drawn := 0;
      state := seed;
    }

    method Next() returns (value: real)
      requires Valid()
      modifies this
      ensures Valid() && drawn == old(drawn) + 1
      ensures value == MulberryStream(seed)(old(drawn)) && 0.0 <= value < 1.0
    {
      state := Advance(state);
      value := Draw(state);
      drawn := drawn + 1;
    }
  }

  // ---------- Wins, losses and ties ----------

  datatype WinRate = WinRate(wins: nat, losses: nat, ties: nat, n: nat, winRate: real)

  method ComputeWinRate(baseline: seq<real>, candidate: seq<real>) returns (r: Option<WinRate>)
    ensures r.Some? <==> |baseline| == |candidate|
    ensures r.Some? ==>
              var d := Differences(baseline, candidate);
              && r.value.n == |d| == r.value.wins + r.value.losses + r.value.ties
              && r.value.wins == Positives(d) && r.value.losses == Negatives(d)
              && (|d| == 0 ==> r.value.winRate == 0.0)
              && (|d| > 0 ==> r.value.winRate == r.value.wins as real / |d| as real)
  {
    if |baseline| != |candidate| {
      return None;
    }
    var d := Differences(baseline, candidate);
    var wins, losses, ties := 0, 0, 0;
    for i := 0 to |d|
      invariant wins == Positives(d[..i]) && losses == Negatives(d[..i]) && wins + losses + ties == i
    {
      assert d[..i + 1][..i] == d[..i];
      if d[i] > 0.0 {
        wins := wins + 1;
      } else if d[i] < 0.0 {
        losses := losses + 1;
      } else {
        ties := ties + 1;
      }
    }
    assert d[..|d|] == d;
    r := Some(WinRate(wins, losses, ties, |d|, if |d| == 0 then 0.0 else wins as real / |d| as real));
  }

  function Positives(d: seq<real>): nat {
    if d == [] then 0 else Positives(d[..|d| - 1]) + if d[|d| - 1] > 0.0 then 1 else 0
  }

  function Negatives(d: seq<real>): nat {
    if d == [] then 0 else Negatives(d[..|d| - 1]) + if d[|d| - 1] < 0.0 then 1 else 0
  }

  // ---------- Wilson interval ----------

  function MaxReal(a: real, b: real): real { if a >= b then a else b }
  function MinReal(a: real, b: real): real { if a <= b then a else b }

  datatype PassRate = PassRate(rate: real, ci: Interval, n: nat, passed: nat)

  function PassedIn(results: seq<bool>): nat {
    if results == [] then 0 else PassedIn(results[..|results| - 1]) + if results[|results| - 1] then 1 else 0
  }

  function Product(a: real, b: real): (p: real)
    ensures a > 0.0 && b > 0.0 ==> p > 0.0
  {
    a * b
  }

  function Square(z: real): real { Product(z, z) }

  /** The term under the square root. */
  function Spread(rate: real, z: real, n: real): real
    requires n > 0.0
  {
    SpreadOf(rate * (1.0 - rate), Square(z), n)
  }

  function SpreadOf(variance: real, square: real, n: real): real
    requires n > 0.0
  {
    (variance + square / (4.0 * n)) / n
  }

  function Center(rate: real, z: real, n: real): real
    requires n > 0.0 && z > 0.0
  {
    (rate + z * z / (2.0 * n)) / (1.0 + z * z / n)
  }

  function Margin(root: real, z: real, n: real): real
    requires n > 0.0 && z > 0.0
  {
    z * root / (1.0 + z * z / n)
  }

  /** A square root on the non-negative reals. */
  ghost predicate SquareRoot(sqrt: real -> real) {
    forall x | x >= 0.0 :: sqrt(x) >= 0.0 && sqrt(x) * sqrt(x) == x
  }

  method ComputePassRate(results: seq<bool>, z: real, sqrt: real -> real) returns (r: PassRate)
    requires z > 0.0 && SquareRoot(sqrt)
    ensures r.n == |results| && r.passed == PassedIn(results)
    ensures |results| == 0 ==> r == PassRate(0.0, Interval(0.0, 0.0), 0, 0)
    ensures |results| > 0 ==>
              && r.rate == PassedIn(results) as real / |results| as real
              && 0.0 <= r.ci.lower <= r.rate <= r.ci.upper <= 1.0
              && r.ci == WilsonOf(r.rate, z, |results| as real, sqrt)
  {
    var n := |results|;
    if n == 0 {
      return PassRate(0.0, Interval(0.0, 0.0), 0, 0);
    }
    var passed := 0;
    for i := 0 to n
      invariant passed == PassedIn(results[..i]) <= i
    {
      assert results[..i + 1][..i] == results[..i];
      if results[i] {
        passed := passed + 1;
      }
    }
    assert results[..n] == results;
    var rate := passed as real / n as real;
    QuotientBounds(passed as real, n as real, 0.0, 1.0);
    var root := sqrt(Spread(rate, z, n as real));
    var center, margin := Center(rate, z, n as real), Margin(root, z, n as real);
    SpreadNonNegative(rate, z, n as real);
    WilsonContainsRate(rate, z, n as real, root);
    r := PassRate(rate, Interval(MaxReal(0.0, center - margin), MinReal(1.0, center + margin)), n, passed);
  }

  /** The interval without its clamps. */
  function WilsonOf(rate: real, z: real, n: real, sqrt: real -> real): Interval
    requires n > 0.0 && z > 0.0
  {
    var root := sqrt(Spread(rate, z, n));
    Interval(Center(rate, z, n) - Margin(root, z, n), Center(rate, z, n) + Margin(root, z, n))
  }

  lemma SpreadNonNegative(rate: real, z: real, n: real)
    requires n > 0.0 && z > 0.0 && 0.0 <= rate <= 1.0
    ensures Spread(rate, z, n) >= 0.0
  {
    MulNonNegative(rate, 1.0 - rate);
    MulPositive(z, z);
    QuotientNonNegative(z * z, 4.0 * n);
    var top := rate * (1.0 - rate) + z * z / (4.0 * n);
    QuotientNonNegative(top, n);
  }

  lemma QuotientNonNegative(a: real, n: real)
    requires a >= 0.0 && n > 0.0
    ensures a / n >= 0.0
  {
  }

  lemma QuotientPositive(a: real, n: real)
    requires a > 0.0 && n > 0.0
    ensures a / n > 0.0
  {
  }

  lemma SquareOrder(a: real, b: real)
    requires a >= 0.0 && b >= 0.0 && a * a <= b * b
    ensures a <= b
  {
    assert (a - b) * (a + b) == a * a - b * b;
    if a > b {
      MulPositive(a - b, a + b);
    }
  }

  /** (p + w / 2) squared, less w * (p * (1 - p)) + w * w / 4, is p * p + w * (p * p). */
  lemma UpperSquare(p: real, w: real, pp: real, wp: real, ww: real)
    requires pp == p * p && wp == w * p && ww == w * w
    ensures (p + w / 2.0) * (p + w / 2.0) == pp + wp + ww / 4.0
    ensures w * (p * (1.0 - p)) == wp - w * pp
  {
    assert p * (1.0 - p) == p - pp;
    assert w * (p - pp) == w * p - w * pp;
    assert (p + w / 2.0) * (p + w / 2.0) == p * (p + w / 2.0) + w / 2.0 * (p + w / 2.0);
  }

  lemma UpperBound(p: real, w: real, t: real)
    requires p >= 0.0 && w > 0.0 && t >= 0.0 && t * t == w * (p * (1.0 - p)) + w * w / 4.0
    ensures t <= p + w / 2.0
  {
    var pp, wp, ww := p * p, w * p, w * w;
    UpperSquare(p, w, pp, wp, ww);
    MulNonNegative(p, p);
    MulNonNegative(w, pp);
    SquareOrder(t, p + w / 2.0);
  }

  /** (w / 2 * d) squared with d == 1 - 2 * p is w * w / 4 less w * w * (p * (1 - p)). */
  lemma LowerSquare(w: real, d: real, pq: real, ww: real)
    requires d * d == 1.0 - 4.0 * pq && ww == w * w
    ensures w / 2.0 * d * (w / 2.0 * d) == ww / 4.0 - ww * pq
  {
    SquareOfProduct(w / 2.0, d);
    assert w / 2.0 * (w / 2.0) == ww / 4.0;
    assert ww / 4.0 * (1.0 - 4.0 * pq) == ww / 4.0 - ww * pq;
  }

  lemma LowerBound(w: real, d: real, pq: real, t: real)
    requires w > 0.0 && t >= 0.0 && pq >= 0.0 && d * d == 1.0 - 4.0 * pq
    requires t * t == w * pq + w * w / 4.0
    ensures w / 2.0 * d <= t
  {
    var ww, x := w * w, w / 2.0 * d;
    LowerSquare(w, d, pq, ww);
    MulNonNegative(w, pq);
    MulNonNegative(w, w);
    MulNonNegative(ww, pq);
    if x > 0.0 {
      SquareOrder(x, t);
    }
  }

  lemma DifferenceSquare(p: real, d: real)
    requires d == 1.0 - 2.0 * p || d == 2.0 * p - 1.0
    ensures d * d == 1.0 - 4.0 * (p * (1.0 - p))
  {
    assert p * (1.0 - p) == p - p * p;
    assert (1.0 - 2.0 * p) * (1.0 - 2.0 * p) == 1.0 - 4.0 * p + 4.0 * (p * p);
  }

  /** With `w = z * z / n` and `t = z * root` the claims are four inequalities between squares. */
  lemma WilsonCore(p: real, w: real, t: real)
    requires 0.0 <= p <= 1.0 && w > 0.0 && t >= 0.0 && t * t == w * (p * (1.0 - p)) + w * w / 4.0
    ensures t <= p + w / 2.0
    ensures t <= 1.0 - p + w / 2.0
    ensures w / 2.0 * (1.0 - 2.0 * p) <= t
    ensures w / 2.0 * (2.0 * p - 1.0) <= t
  {
    var q := 1.0 - p;
    assert q * (1.0 - q) == p * (1.0 - p);
    UpperBound(p, w, t);
    UpperBound(q, w, t);
    MulNonNegative(p, q);
    DifferenceSquare(p, 1.0 - 2.0 * p);
    DifferenceSquare(p, 2.0 * p - 1.0);
    LowerBound(w, 1.0 - 2.0 * p, p * q, t);
    LowerBound(w, 2.0 * p - 1.0, p * q, t);
  }

  /** The interval contains the observed rate and lies in [0, 1] before it is clamped. */
  lemma WilsonContainsRate(rate: real, z: real, n: real, root: real)
    requires n > 0.0 && z > 0.0 && 0.0 <= rate <= 1.0
    requires root >= 0.0 && root * root == Spread(rate, z, n)
    ensures 0.0 <= Center(rate, z, n) - Margin(root, z, n) <= rate
    ensures rate <= Center(rate, z, n) + Margin(root, z, n) <= 1.0
  {
    var w, t := z * z / n, z * root;
    WilsonSquare(rate, z, n, root);
    WilsonCore(rate, w, t);
    var denominator := 1.0 + w;
    assert Center(rate, z, n) == (rate + w / 2.0) / denominator;
    assert Margin(root, z, n) == t / denominator;
    Scaled(rate + w / 2.0 - t, denominator, 0.0, rate);
    Scaled(rate + w / 2.0 + t, denominator, rate, 1.0);
    QuotientSplit(rate + w / 2.0, t, denominator);
  }

  lemma Scaled(x: real, d: real, low: real, high: real)
    requires d > 0.0 && low * d <= x <= high * d
    ensures low <= x / d <= high
  {
    QuotientBounds(x, d, low, high);
  }

  lemma QuotientSplit(a: real, b: real, d: real)
    requires d > 0.0
    ensures (a - b) / d == a / d - b / d && (a + b) / d == a / d + b / d
  {
  }

  lemma WilsonSquare(rate: real, z: real, n: real, root: real)
    requires n > 0.0 && z > 0.0 && root >= 0.0 && root * root == Spread(rate, z, n)
    ensures
      var w, t := z * z / n, z * root;
      w > 0.0 && t >= 0.0 && t * t == w * (rate * (1.0 - rate)) + w * w / 4.0 && z * z / (2.0 * n) == w / 2.0
  {
    SquarePositive(z);
    MulNonNegative(z, root);
    WilsonScale(Square(z), rate * (1.0 - rate), n, root * root);
    SquareOfProduct(z, root);
  }

  lemma SquarePositive(z: real)
    requires z > 0.0
    ensures Square(z) > 0.0
  {
    MulPositive(z, z);
  }

  lemma SquareOfProduct(a: real, b: real)
    ensures a * b * (a * b) == a * a * (b * b)
  {
  }

  lemma WilsonScale(zz: real, pq: real, n: real, rr: real)
    requires zz > 0.0 && n > 0.0 && rr == SpreadOf(pq, zz, n)
    ensures
      var w := zz / n;
      w > 0.0 && zz * rr == w * pq + w * w / 4.0 && zz / (2.0 * n) == w / 2.0
  {
    var w := zz / n;
    QuotientPositive(zz, n);
    assert w * n == zz;
    assert zz / (4.0 * n) == w / 4.0;
    assert rr == (pq + w / 4.0) / n;
    assert zz * rr == w * (n * rr);
  }
}
