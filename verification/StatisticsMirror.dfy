/** Exchanging the two sides of a paired comparison negates its statistics. */
module StatisticsMirror {
  import opened Collections
  import opened Sorting
  import opened Statistics

  function Negate(x: real): real { -x }

  function Negated(s: seq<real>): (r: seq<real>) {
    Map(Negate, s)
  }

  /** Reversal and negation: what an ascending list becomes. */
  function Flipped(s: seq<real>): (r: seq<real>)
    ensures |r| == |s|
    ensures forall i | 0 <= i < |s| :: r[i] == -s[|s| - 1 - i]
  {
    seq(|s|, i requires 0 <= i < |s| => -s[|s| - 1 - i])
  }

  lemma DifferencesNegated(baseline: seq<real>, candidate: seq<real>)
    requires |baseline| == |candidate|
    ensures Differences(candidate, baseline) == Negated(Differences(baseline, candidate))
  {
  }

  lemma {:induction false} TotalNegated(s: seq<real>)
    ensures Total(Negated(s)) == -Total(s)
  {
    if s != [] {
      var init := s[..|s| - 1];
      assert Negated(s)[..|s| - 1] == Negated(init);
      TotalNegated(init);
    }
  }

  lemma QuotientNegated(a: real, n: real)
    requires n > 0.0
    ensures -a / n == -(a / n)
  {
  }

  lemma MeanNegated(s: seq<real>)
    ensures Mean(Negated(s)) == -Mean(s)
  {
    TotalNegated(s);
    if s != [] {
      QuotientNegated(Total(s), |s| as real);
    }
  }

  lemma {:induction false} SampleTotalNegated(d: seq<real>, random: nat -> real, from: nat, k: nat)
    requires |d| > 0
    ensures SampleTotal(Negated(d), random, from, k) == -SampleTotal(d, random, from, k)
    decreases k
  {
    if k > 0 {
      SampleTotalNegated(d, random, from, k - 1);
      assert Drawn(Negated(d), random, from + k - 1) == -Drawn(d, random, from + k - 1);
    }
  }

  lemma {:induction false} BootstrapMeansNegated(d: seq<real>, random: nat -> real, iterations: nat)
    requires |d| > 0
    ensures BootstrapMeans(Negated(d), random, iterations) == Negated(BootstrapMeans(d, random, iterations))
    decreases iterations
  {
    if iterations > 0 {
      BootstrapMeansNegated(d, random, iterations - 1);
      SampleTotalNegated(d, random, (iterations - 1) * |d|, |d|);
      QuotientNegated(SampleTotal(d, random, (iterations - 1) * |d|, |d|), |d| as real);
    }
  }

  lemma FlippedSnoc(init: seq<real>, last: real)
    ensures Flipped(init + [last]) == [-last] + Flipped(init)
  {
  }

  lemma NegatedSnoc(init: seq<real>, last: real)
    ensures Negated(init + [last]) == Negated(init) + [-last]
  {
  }

  lemma ConsOrSnoc<T>(x: T, s: seq<T>, t: seq<T>)
    requires multiset(s) == multiset(t)
    ensures multiset([x] + s) == multiset(t + [x])
  {
  }

  lemma {:induction false} FlippedMultiset(s: seq<real>)
    ensures multiset(Flipped(s)) == multiset(Negated(s))
  {
    if s == [] {
      assert Flipped(s) == Negated(s) == [];
    } else {
      var init, last := s[..|s| - 1], s[|s| - 1];
      FlippedMultiset(init);
      assert s == init + [last];
      FlippedSnoc(init, last);
      NegatedSnoc(init, last);
      ConsOrSnoc(-last, Flipped(init), Negated(init));
    }
  }

  lemma SortNegated(s: seq<real>)
    ensures Sort(Negated(s), LeReal) == Flipped(Sort(s, LeReal))
  {
    var sorted := Sort(s, LeReal);
    LeRealTotal();
    SortSorted(s, LeReal);
    SortSorted(Negated(s), LeReal);
    forall i, j | 0 <= i < j < |sorted|
      ensures LeReal(Flipped(sorted)[i], Flipped(sorted)[j])
    {
      assert LeReal(sorted[|sorted| - 1 - j], sorted[|sorted| - 1 - i]);
    }
    FlippedMultiset(sorted);
    MapPermutes(Negate, sorted, s);
    SortedUnique(Sort(Negated(s), LeReal), Flipped(sorted), LeReal);
  }

  lemma BlendFlipped(a: real, b: real, w: real)
    ensures Blend(-b, -a, 1.0 - w) == -Blend(a, b, w)
  {
    assert (b - a) * (1.0 - w) == (b - a) - (b - a) * w;
  }

  lemma AtFlipped(s: seq<real>, x: real)
    requires |s| > 0 && 0.0 <= x <= (|s| - 1) as real
    ensures At(Flipped(s), (|s| - 1) as real - x) == -At(s, x)
  {
    var last := |s| - 1;
    var y := last as real - x;
    if x.Floor as real == x {
      assert y.Floor == last - x.Floor;
    } else {
      assert y.Floor == last - x.Floor - 1;
      BlendFlipped(s[x.Floor], s[x.Floor + 1], x - x.Floor as real);
      assert y - y.Floor as real == 1.0 - (x - x.Floor as real);
    }
  }

  lemma PositionFlipped(p: real, n: nat)
    requires n > 0
    ensures Position(1.0 - p, n) == (n - 1) as real - Position(p, n)
  {
    assert (1.0 - p) * (n - 1) as real == (n - 1) as real - p * (n - 1) as real;
  }

  lemma PercentileFlipped(s: seq<real>, p: real)
    requires |s| > 0 && 0.0 <= p <= 1.0
    ensures Percentile(Flipped(s), 1.0 - p) == -Percentile(s, p)
  {
    PositionOrder(p, p, |s|);
    PositionFlipped(p, |s|);
    AtFlipped(s, Position(p, |s|));
  }

  function NegatedInterval(ci: Interval): Interval {
    Interval(-ci.upper, -ci.lower)
  }

  lemma TailFlipped(sorted: seq<real>, tail: real)
    requires |sorted| > 0 && 0.0 <= tail <= 1.0
    ensures TailInterval(Flipped(sorted), tail) == NegatedInterval(TailInterval(sorted, tail))
  {
    PercentileFlipped(sorted, tail);
    PercentileFlipped(sorted, 1.0 - tail);
    assert 1.0 - (1.0 - tail) == tail;
  }

  lemma IntervalNegated(means: seq<real>, confidence: real)
    requires |means| > 0 && 0.0 < confidence < 1.0
    ensures PercentileInterval(Negated(means), confidence) == NegatedInterval(PercentileInterval(means, confidence))
  {
    SortLength(means);
    SortNegated(means);
    TailFlipped(Sort(means, LeReal), (1.0 - confidence) / 2.0);
  }

  function NegatedSummary(s: Summary): Summary {
    Summary(-s.mean, NegatedInterval(s.ci), s.n, s.significant)
  }

  /** The same random stream on the exchanged sides gives the mirrored interval and the same significance. */
  lemma BootstrapMirrors(baseline: seq<real>, candidate: seq<real>, confidence: real, iterations: nat,
                         random: nat -> real)
    requires |baseline| == |candidate| && 0.0 < confidence < 1.0 && iterations >= 100
    ensures BootstrapSummary(Differences(candidate, baseline), confidence, iterations, random) ==
            NegatedSummary(BootstrapSummary(Differences(baseline, candidate), confidence, iterations, random))
  {
    var d := Differences(baseline, candidate);
    DifferencesNegated(baseline, candidate);
    MeanNegated(d);
    if |d| >= 2 {
      BootstrapMeansNegated(d, random, iterations);
      IntervalNegated(BootstrapMeans(d, random, iterations), confidence);
    }
  }

  /** Exchanging the sides turns wins into losses. */
  lemma {:induction false} WinsNegated(d: seq<real>)
    ensures Positives(Negated(d)) == Negatives(d) && Negatives(Negated(d)) == Positives(d)
  {
    if d != [] {
      var init := d[..|d| - 1];
      assert Negated(d)[..|d| - 1] == Negated(init);
      WinsNegated(init);
    }
  }
}
