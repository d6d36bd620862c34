/** What the verdicts of a baseline comparison mean, for every random stream. */
module ComparisonTheorems {
  import opened Collections
  import opened Sorting
  import opened Statistics
  import opened StatisticsMirror
  import opened Comparison

  // ---------- When a comparison succeeds ----------

  ghost function Trials(results: seq<TrialResult>, key: Key): seq<int> {
    Map(TrialOf, OfKey(results, key))
  }

  /** Some group is shared, and in every shared group both sides ran the same trials, each once. */
  ghost predicate Comparable(baseline: seq<TrialResult>, candidate: seq<TrialResult>) {
    && (exists k :: Shared(k, baseline, candidate))
    && forall k | Shared(k, baseline, candidate) :: SameTrials(baseline, candidate, k)
  }

  ghost predicate SameTrials(baseline: seq<TrialResult>, candidate: seq<TrialResult>, key: Key) {
    && Distinct(Trials(baseline, key))
    && Distinct(Trials(candidate, key))
    && SetOf(Trials(baseline, key)) == SetOf(Trials(candidate, key))
  }

  lemma SameSetPermutes<T>(s: seq<T>, t: seq<T>)
    requires Distinct(s) && Distinct(t) && SetOf(s) == SetOf(t)
    ensures multiset(s) == multiset(t)
  {
    forall x
      ensures x in s <==> x in t
    {
      assert x in SetOf(s) <==> x in SetOf(t);
    }
    DistinctSameMembers(s, t);
  }

  function LeInt(a: int, b: int): bool { a <= b }

  lemma TrialsSorted(s: seq<TrialResult>)
    requires Sorted(s, TrialOnly)
    ensures Sorted(Map(TrialOf, s), LeInt)
  {
    forall i, j | 0 <= i < j < |s|
      ensures LeInt(Map(TrialOf, s)[i], Map(TrialOf, s)[j])
    {
      assert TrialOnly(s[i], s[j]);
    }
  }

  lemma SameMembers<T>(s: seq<T>, t: seq<T>)
    requires multiset(s) == multiset(t)
    ensures SetOf(s) == SetOf(t)
  {
    Permuted(s, t);
  }

  lemma AlignedIff(b: seq<TrialResult>, c: seq<TrialResult>)
    ensures Aligned(b, c) <==> Map(TrialOf, b) == Map(TrialOf, c)
  {
    var s, t := Map(TrialOf, b), Map(TrialOf, c);
    if s == t {
      assert |b| == |s| == |t| == |c|;
      forall i | 0 <= i < |b|
        ensures b[i].trial == c[i].trial
      {
        assert s[i] == t[i];
      }
    }
  }

  lemma PairsIff(baseline: seq<TrialResult>, candidate: seq<TrialResult>, key: Key, leOrigin: Order)
    requires Preorder(leOrigin)
    ensures PairUp(key, OfKey(baseline, key), OfKey(candidate, key), leOrigin).Ok? <==>
            SameTrials(baseline, candidate, key)
  {
    var b, c := SortTrials(OfKey(baseline, key), leOrigin), SortTrials(OfKey(candidate, key), leOrigin);
    var s, t := Map(TrialOf, b), Map(TrialOf, c);
    SortTrialsFacts(OfKey(baseline, key), leOrigin);
    SortTrialsFacts(OfKey(candidate, key), leOrigin);
    MapPermutes(TrialOf, b, OfKey(baseline, key));
    MapPermutes(TrialOf, c, OfKey(candidate, key));
    SameMembers(s, Trials(baseline, key));
    SameMembers(t, Trials(candidate, key));
    AlignedIff(b, c);
    if SameTrials(baseline, candidate, key) {
      SameSetPermutes(Trials(baseline, key), Trials(candidate, key));
      TrialsSorted(b);
      TrialsSorted(c);
      SortedUnique(s, t, LeInt);
      assert |b| == |s| == |t| == |c|;
    }
  }

  ghost predicate AllSame(keys: seq<Key>, baseline: seq<TrialResult>, candidate: seq<TrialResult>) {
    keys ==
      [] || (AllSame(keys[..|keys| - 1], baseline, candidate) && SameTrials(baseline, candidate, keys[|keys| - 1]))
  }

  lemma {:induction false} AllSameIff(keys: seq<Key>, baseline: seq<TrialResult>, candidate: seq<TrialResult>)
    ensures AllSame(keys, baseline, candidate) <==> forall k | k in keys :: SameTrials(baseline, candidate, k)
  {
    if keys != [] {
      var init, last := keys[..|keys| - 1], keys[|keys| - 1];
      AllSameIff(init, baseline, candidate);
      assert keys == init + [last];
    }
  }

  lemma {:induction false} AllPairIff(keys: seq<Key>, baseline: seq<TrialResult>, candidate: seq<TrialResult>,
                                      leOrigin: Order)
    requires Preorder(leOrigin)
    ensures PairAll(keys, baseline, candidate, leOrigin).Ok? <==> AllSame(keys, baseline, candidate)
  {
    if keys != [] {
      var init, last := keys[..|keys| - 1], keys[|keys| - 1];
      AllPairIff(init, baseline, candidate, leOrigin);
      PairsIff(baseline, candidate, last, leOrigin);
      LastPairIff(init, last, baseline, candidate, leOrigin);
      assert keys == init + [last];
    }
  }

  lemma LastPairIff(init: seq<Key>, last: Key, baseline: seq<TrialResult>, candidate: seq<TrialResult>, leOrigin: Order)
    ensures PairAll(init + [last], baseline, candidate, leOrigin).Ok? <==>
            PairAll(init, baseline, candidate, leOrigin).Ok? &&
            PairUp(last, OfKey(baseline, last), OfKey(candidate, last), leOrigin).Ok?
  {
    assert (init + [last])[..|init|] == init;
  }

  /** A comparison succeeds exactly on comparable runs. */
  lemma ComparesIff(baseline: seq<TrialResult>, candidate: seq<TrialResult>, leId: Order,
                    leOrigin: Order, n: Numerics)
    requires Preorder(leOrigin) && n.Valid()
    ensures Compare(baseline, candidate, leId, leOrigin, n).Ok? <==> Comparable(baseline, candidate)
  {
    var keys := MatchedKeys(baseline, candidate, leId);
    MatchedFacts(baseline, candidate, leId);
    AllPairIff(keys, baseline, candidate, leOrigin);
    AllSameIff(keys, baseline, candidate);
    if keys == [] {
      assert forall k :: k !in keys;
    } else {
      assert keys[0] in keys;
    }
  }

  // ---------- Order does not matter ----------

  lemma {:induction false} OfKeyCounts(s: seq<TrialResult>, key: Key, r: TrialResult)
    ensures multiset(OfKey(s, key))[r] == if r.key == key then multiset(s)[r] else 0
  {
    if s != [] {
      var init, last := s[..|s| - 1], s[|s| - 1];
      OfKeyCounts(init, key, r);
      assert s == init + [last];
    }
  }

  lemma OfKeyPermutes(s: seq<TrialResult>, t: seq<TrialResult>, key: Key)
    requires multiset(s) == multiset(t)
    ensures multiset(OfKey(s, key)) == multiset(OfKey(t, key))
  {
    forall r
      ensures multiset(OfKey(s, key))[r] == multiset(OfKey(t, key))[r]
    {
      OfKeyCounts(s, key, r);
      OfKeyCounts(t, key, r);
    }
  }

  lemma PairUpPermutes(key: Key, b: seq<TrialResult>, c: seq<TrialResult>, b': seq<TrialResult>, c': seq<TrialResult>,
                       le: Order, le': Order)
    requires Preorder(le) && Preorder(le') && multiset(b) == multiset(b') && multiset(c) == multiset(c')
    ensures PairUp(key, b, c, le) == PairUp(key, b', c', le')
  {
    UniqueTrialsPermute(b, b');
    UniqueTrialsPermute(c, c');
    if UniqueTrials(b) && UniqueTrials(c) {
      SortTrialsCanonical(b, b', le, le');
      SortTrialsCanonical(c, c', le, le');
    }
  }

  lemma {:induction false} PairAllPermutes(keys: seq<Key>, b: seq<TrialResult>, c: seq<TrialResult>,
                                           b': seq<TrialResult>, c': seq<TrialResult>,
                                           le: Order, le': Order)
    requires Preorder(le) && Preorder(le') && multiset(b) == multiset(b') && multiset(c) == multiset(c')
    ensures PairAll(keys, b, c, le) == PairAll(keys, b', c', le')
  {
    if keys != [] {
      var key := keys[|keys| - 1];
      PairAllPermutes(keys[..|keys| - 1], b, c, b', c', le, le');
      OfKeyPermutes(b, b', key);
      OfKeyPermutes(c, c', key);
      PairUpPermutes(key, OfKey(b, key), OfKey(c, key), OfKey(b', key), OfKey(c', key), le, le');
    }
  }

  lemma SharedPermutes(k: Key, b: seq<TrialResult>, c: seq<TrialResult>, b': seq<TrialResult>, c': seq<TrialResult>)
    requires multiset(b) == multiset(b') && multiset(c) == multiset(c')
    ensures Shared(k, b, c) <==> Shared(k, b', c')
  {
    OfKeyPermutes(b, b', k);
    OfKeyPermutes(c, c', k);
    Permuted(OfKey(b, k), OfKey(b', k));
    Permuted(OfKey(c, k), OfKey(c', k));
  }

  /** Two runs with the same shared groups list them in the same order. */
  lemma MatchedKeysAgree(b: seq<TrialResult>, c: seq<TrialResult>, b': seq<TrialResult>, c': seq<TrialResult>,
                         leId: Order)
    requires TotalOrder(leId) && forall k :: Shared(k, b, c) <==> Shared(k, b', c')
    ensures MatchedKeys(b, c, leId) == MatchedKeys(b', c', leId)
  {
    var s, t := MatchedKeys(b, c, leId), MatchedKeys(b', c', leId);
    MatchedFacts(b, c, leId);
    MatchedFacts(b', c', leId);
    assert SetOf(s) == SetOf(t);
    SameSetPermutes(s, t);
    ByKeyTotal(leId);
    SortSorted(Common(Uniq(Map(KeyOf, b)), c), ByKey(leId));
    SortSorted(Common(Uniq(Map(KeyOf, b')), c'), ByKey(leId));
    SortedUnique(s, t, ByKey(leId));
  }

  /** Neither the order of the records in the two files nor the tie-break on lane, provider and run shows in the
      result. */
  lemma CompareOrderIndependent(b: seq<TrialResult>, c: seq<TrialResult>, b': seq<TrialResult>, c': seq<TrialResult>,
                                leId: Order, le: Order, le': Order, n: Numerics)
    requires TotalOrder(leId) && Preorder(le) && Preorder(le') && n.Valid()
    requires multiset(b) == multiset(b') && multiset(c) == multiset(c')
    ensures Compare(b, c, leId, le, n) == Compare(b', c', leId, le', n)
  {
    forall k
      ensures Shared(k, b, c) <==> Shared(k, b', c')
    {
      SharedPermutes(k, b, c, b', c');
    }
    MatchedKeysAgree(b, c, b', c', leId);
    PairAllPermutes(MatchedKeys(b, c, leId), b, c, b', c', le, le');
  }

  // ---------- Verdicts ----------

  /** Two lists of trials of the two runs, paired slot by slot. */
  ghost predicate Slotted(b: seq<TrialResult>, c: seq<TrialResult>, baseline: seq<TrialResult>,
                          candidate: seq<TrialResult>) {
    |b| == |c| && forall i | 0 <= i < |b| :: b[i] in baseline && c[i] in candidate && SameSlot(b[i], c[i])
  }

  lemma PairSlots(p: Pairs, key: Key, baseline: seq<TrialResult>, candidate: seq<TrialResult>)
    requires Paired(p, key, baseline, candidate)
    ensures Slotted(p.baseline, p.candidate, baseline, candidate)
  {
    Permuted(p.baseline, OfKey(baseline, key));
    Permuted(p.candidate, OfKey(candidate, key));
    OfKeyMembers(baseline, key);
    OfKeyMembers(candidate, key);
    forall i | 0 <= i < |p.baseline|
      ensures p.baseline[i] in baseline && p.candidate[i] in candidate && SameSlot(p.baseline[i], p.candidate[i])
    {
      assert p.baseline[i] in p.baseline && p.candidate[i] in p.candidate;
    }
  }

  lemma {:induction false} FlatSlots(ps: seq<Pairs>, keys: seq<Key>, baseline: seq<TrialResult>,
                                     candidate: seq<TrialResult>)
    requires AllPaired(ps, keys, baseline, candidate)
    ensures EqualCounts(ps) && Slotted(BaselineTrials(ps), CandidateTrials(ps), baseline, candidate)
  {
    if ps != [] {
      var n := |ps| - 1;
      FlatSlots(ps[..n], keys[..n], baseline, candidate);
      PairSlots(ps[n], keys[n], baseline, candidate);
      SlotsAppend(BaselineTrials(ps[..n]), CandidateTrials(ps[..n]), ps[n].baseline, ps[n].candidate, baseline,
                  candidate);
      EqualCountsAppend(ps, n);
    }
  }

  lemma EqualCountsAppend(ps: seq<Pairs>, n: nat)
    requires |ps| == n + 1 && EqualCounts(ps[..n]) && |ps[n].baseline| == |ps[n].candidate|
    ensures EqualCounts(ps)
  {
    forall i | 0 <= i < |ps|
      ensures |ps[i].baseline| == |ps[i].candidate|
    {
      if i < n {
        assert ps[..n][i] == ps[i];
      }
    }
  }

  lemma SlotsAppend(b: seq<TrialResult>, c: seq<TrialResult>, b': seq<TrialResult>, c': seq<TrialResult>,
                    baseline: seq<TrialResult>, candidate: seq<TrialResult>)
    requires Slotted(b, c, baseline, candidate) && Slotted(b', c', baseline, candidate)
    ensures Slotted(b + b', c + c', baseline, candidate)
  {
  }

  lemma {:induction false} SomeTrial(ps: seq<Pairs>)
    requires ps != [] && ps[|ps| - 1].baseline != []
    ensures BaselineTrials(ps) != []
  {
  }

  /** What a successful comparison rests on. */
  ghost predicate Explains(ps: seq<Pairs>, baseline: seq<TrialResult>, candidate: seq<TrialResult>) {
    && EqualCounts(ps)
    && Slotted(BaselineTrials(ps), CandidateTrials(ps), baseline, candidate) && BaselineTrials(ps) != []
    && forall i | 0 <= i < |ps| :: Slotted(ps[i].baseline, ps[i].candidate, baseline, candidate) && ps[i].baseline != []
  }

  lemma Explained(baseline: seq<TrialResult>, candidate: seq<TrialResult>, leId: Order, leOrigin: Order, n: Numerics)
    returns (keys: seq<Key>, ps: seq<Pairs>)
    requires Preorder(leOrigin) && n.Valid() && Compare(baseline, candidate, leId, leOrigin, n).Ok?
    ensures keys == MatchedKeys(baseline, candidate, leId) && PairAll(keys, baseline, candidate, leOrigin) == Ok(ps)
    ensures AllPaired(ps, keys, baseline, candidate) && Explains(ps, baseline, candidate)
    ensures Compare(baseline, candidate, leId, leOrigin, n) == Ok(ReportOf(ps, n))
  {
    keys := MatchedKeys(baseline, candidate, leId);
    ps := PairAll(keys, baseline, candidate, leOrigin).value;
    PairAllFacts(keys, baseline, candidate, leOrigin);
    FlatSlots(ps, keys, baseline, candidate);
    MatchedFacts(baseline, candidate, leId);
    forall i | 0 <= i < |ps|
      ensures Slotted(ps[i].baseline, ps[i].candidate, baseline, candidate) && ps[i].baseline != []
    {
      PairSlots(ps[i], keys[i], baseline, candidate);
      assert keys[i] in keys;
      Permuted(ps[i].baseline, OfKey(baseline, keys[i]));
    }
    SomeTrial(ps);
  }

  /** Finitely many numbers lie between two of them. */
  lemma {:induction false} Bounds(d: seq<real>) returns (low: real, high: real)
    requires d != []
    ensures Within(d, low, high) && low in d && high in d
  {
    var n := |d| - 1;
    low, high := d[n], d[n];
    if n > 0 {
      var l, h := Bounds(d[..n]);
      low, high := if l < low then l else low, if h > high then h else high;
      forall i | 0 <= i < |d|
        ensures low <= d[i] <= high
      {
        assert i < n ==> d[..n][i] == d[i];
      }
    }
  }

  /** The share of the points reached is lower in every slot. */
  ghost predicate EveryScoreDrops(baseline: seq<TrialResult>, candidate: seq<TrialResult>) {
    forall b, c, x, y | b in baseline && c in candidate && SameSlot(b, c) && IsShare(b, x) && IsShare(c, y) :: y < x
  }

  lemma DropsBelowZero(b: seq<TrialResult>, c: seq<TrialResult>, baseline: seq<TrialResult>,
                       candidate: seq<TrialResult>, n: Numerics)
    requires Slotted(b, c, baseline, candidate) && b != [] && EveryScoreDrops(baseline, candidate) && n.Valid()
    ensures Delta(Scores(b), Scores(c), n).ci.upper < 0.0 && Delta(Scores(b), Scores(c), n).ci.lower < 0.0
  {
    var d := Differences(Scores(b), Scores(c));
    forall i | 0 <= i < |d|
      ensures d[i] < 0.0
    {
      assert SameSlot(b[i], c[i]);
      ScoreIsShare(b[i]);
      ScoreIsShare(c[i]);
    }
    var low, high := Bounds(d);
    BootstrapWithinRange(d, n.confidence, n.iterations, n.random, low, high);
  }

  /** If every paired score drops, every case and the whole run are reported as regressed. */
  lemma DropsForceRegressed(baseline: seq<TrialResult>, candidate: seq<TrialResult>, leId: Order,
                            leOrigin: Order, n: Numerics)
    requires Preorder(leOrigin) && n.Valid() && Comparable(baseline, candidate) && EveryScoreDrops(baseline, candidate)
    ensures
      var r := Compare(baseline, candidate, leId, leOrigin, n);
      && r.Ok? && r.value.overall.verdict == Regressed
      && forall i | 0 <= i < |r.value.perCase| :: r.value.perCase[i].verdict == Regressed
  {
    ComparesIff(baseline, candidate, leId, leOrigin, n);
    var keys, ps := Explained(baseline, candidate, leId, leOrigin, n);
    DropsBelowZero(BaselineTrials(ps), CandidateTrials(ps), baseline, candidate, n);
    var r := ReportOf(ps, n);
    forall i | 0 <= i < |r.perCase|
      ensures r.perCase[i].verdict == Regressed
    {
      DropsBelowZero(ps[i].baseline, ps[i].candidate, baseline, candidate, n);
    }
  }

  /** The share of the points reached rises by at least 0.05 in every slot, and no passing trial fails now. */
  ghost predicate EveryScoreRises(baseline: seq<TrialResult>, candidate: seq<TrialResult>) {
    forall b, c, x, y | b in baseline && c in candidate && SameSlot(b, c) && IsShare(b, x) && IsShare(c, y) ::
      y >= x + 0.05 && (b.ok ==> c.ok)
  }

  /** In particular if with the same points to reach every candidate trial reaches fewer than its baseline trial. */
  lemma FewerPointsForceRegressed(baseline: seq<TrialResult>, candidate: seq<TrialResult>, leId: Order,
                                  leOrigin: Order, n: Numerics)
    requires Preorder(leOrigin) && n.Valid() && Comparable(baseline, candidate)
    requires forall b, c | b in baseline && c in candidate && SameSlot(b, c) ::
               0.0 < b.maxPossible == c.maxPossible && 0.0 <= c.total < b.total <= b.maxPossible
    ensures
      var r := Compare(baseline, candidate, leId, leOrigin, n);
      && r.Ok? && r.value.overall.verdict == Regressed
      && forall i | 0 <= i < |r.value.perCase| :: r.value.perCase[i].verdict == Regressed
  {
    forall b, c, x, y | b in baseline && c in candidate && SameSlot(b, c) && IsShare(b, x) && IsShare(c, y)
      ensures y < x
    {
      LowerShare(b, c, x, y);
    }
    DropsForceRegressed(baseline, candidate, leId, leOrigin, n);
  }

  lemma LowerShare(b: TrialResult, c: TrialResult, x: real, y: real)
    requires 0.0 < b.maxPossible == c.maxPossible && 0.0 <= c.total < b.total <= b.maxPossible
    requires IsShare(b, x) && IsShare(c, y)
    ensures y < x
  {
    assert (y - x) * b.maxPossible == c.total - b.total;
    if y >= x {
      MulNonNegative(y - x, b.maxPossible);
    }
  }

  lemma RisesAboveZero(b: seq<TrialResult>, c: seq<TrialResult>, baseline: seq<TrialResult>,
                       candidate: seq<TrialResult>, n: Numerics)
    requires Slotted(b, c, baseline, candidate) && b != [] && EveryScoreRises(baseline, candidate) && n.Valid()
    ensures
      var s := Delta(Scores(b), Scores(c), n);
      s.ci.lower >= 0.05 && s.ci.upper >= 0.05 && s.mean >= 0.05
    ensures Delta(PassBits(b), PassBits(c), n).ci.upper >= 0.0
  {
    var d, e := Differences(Scores(b), Scores(c)), Differences(PassBits(b), PassBits(c));
    forall i | 0 <= i < |d|
      ensures 0.05 <= d[i] <= 1.0 && 0.0 <= e[i] <= 1.0
    {
      assert SameSlot(b[i], c[i]);
      ScoreIsShare(b[i]);
      ScoreIsShare(c[i]);
    }
    BootstrapWithinRange(d, n.confidence, n.iterations, n.random, 0.05, 1.0);
    BootstrapWithinRange(e, n.confidence, n.iterations, n.random, 0.0, 1.0);
  }

  /** Then every case and the whole run are reported as improved. */
  lemma RisesForceImproved(baseline: seq<TrialResult>, candidate: seq<TrialResult>, leId: Order,
                           leOrigin: Order, n: Numerics)
    requires Preorder(leOrigin) && n.Valid() && Comparable(baseline, candidate) && EveryScoreRises(baseline, candidate)
    ensures
      var r := Compare(baseline, candidate, leId, leOrigin, n);
      && r.Ok? && r.value.overall.verdict == Improved
      && forall i | 0 <= i < |r.value.perCase| :: r.value.perCase[i].verdict == Improved
  {
    ComparesIff(baseline, candidate, leId, leOrigin, n);
    var keys, ps := Explained(baseline, candidate, leId, leOrigin, n);
    RisesAboveZero(BaselineTrials(ps), CandidateTrials(ps), baseline, candidate, n);
    var r := ReportOf(ps, n);
    forall i | 0 <= i < |r.perCase|
      ensures r.perCase[i].verdict == Improved
    {
      RisesAboveZero(ps[i].baseline, ps[i].candidate, baseline, candidate, n);
    }
  }

  // ---------- Counts ----------

  function SumWins(rows: seq<PerCase>): nat {
    if rows == [] then 0 else SumWins(rows[..|rows| - 1]) + rows[|rows| - 1].winRate.wins
  }

  function SumLosses(rows: seq<PerCase>): nat {
    if rows == [] then 0 else SumLosses(rows[..|rows| - 1]) + rows[|rows| - 1].winRate.losses
  }

  function SumTies(rows: seq<PerCase>): nat {
    if rows == [] then 0 else SumTies(rows[..|rows| - 1]) + rows[|rows| - 1].winRate.ties
  }

  /** The trials of the shared groups. */
  function TrialsOfKeys(keys: seq<Key>, baseline: seq<TrialResult>): nat {
    if keys == [] then 0 else TrialsOfKeys(keys[..|keys| - 1], baseline) + |OfKey(baseline, keys[|keys| - 1])|
  }

  /** The sums over `rows` count the pairs of `b` and `c`. */
  ghost predicate SumsFit(rows: seq<PerCase>, b: seq<TrialResult>, c: seq<TrialResult>) {
    && |b| == |c|
    && SumWins(rows) == Positives(Differences(Scores(b), Scores(c)))
    && SumLosses(rows) == Negatives(Differences(Scores(b), Scores(c)))
    && SumWins(rows) + SumLosses(rows) + SumTies(rows) == |b|
  }

  lemma SumsStep(rows: seq<PerCase>, row: PerCase, b: seq<TrialResult>, c: seq<TrialResult>, b': seq<TrialResult>,
                 c': seq<TrialResult>)
    requires SumsFit(rows, b, c) && |b'| == |c'| && row.winRate == Wins(Differences(Scores(b'), Scores(c')))
    ensures SumsFit(rows + [row], b + b', c + c')
  {
    assert (rows + [row])[..|rows|] == rows;
    ScoresAppend(b, c, b', c');
  }

  lemma {:induction false} SumsAre(ps: seq<Pairs>, n: Numerics)
    requires EqualCounts(ps) && 0.0 < n.confidence < 1.0 && n.iterations >= 100
    ensures SumsFit(Rows(ps, n), BaselineTrials(ps), CandidateTrials(ps))
  {
    if ps != [] {
      var init, p := ps[..|ps| - 1], ps[|ps| - 1];
      SumsAre(init, n);
      SumsStep(Rows(init, n), CaseRow(p, n), BaselineTrials(init), CandidateTrials(init), p.baseline, p.candidate);
    }
  }

  lemma ReportTotals(ps: seq<Pairs>, n: Numerics)
    requires EqualCounts(ps) && 0.0 < n.confidence < 1.0 && n.iterations >= 100
    ensures
      var r := ReportOf(ps, n);
      && r.overall.totalWins == SumWins(r.perCase)
      && r.overall.totalLosses == SumLosses(r.perCase)
      && r.overall.totalTies == SumTies(r.perCase)
      && r.overall.totalWins + r.overall.totalLosses + r.overall.totalTies == |BaselineTrials(ps)|
  {
    SumsAre(ps, n);
  }

  lemma {:induction false} FlatLength(ps: seq<Pairs>, keys: seq<Key>, baseline: seq<TrialResult>,
                                      candidate: seq<TrialResult>)
    requires AllPaired(ps, keys, baseline, candidate)
    ensures |BaselineTrials(ps)| == TrialsOfKeys(keys, baseline)
  {
    if ps != [] {
      var n := |ps| - 1;
      FlatLength(ps[..n], keys[..n], baseline, candidate);
      Permuted(ps[n].baseline, OfKey(baseline, keys[n]));
    }
  }

  /** The overall wins, losses and ties are the sums of the rows', and together they are the paired trials. */
  lemma TotalsAddUp(baseline: seq<TrialResult>, candidate: seq<TrialResult>, leId: Order,
                    leOrigin: Order, n: Numerics)
    requires Preorder(leOrigin) && n.Valid() && Compare(baseline, candidate, leId, leOrigin, n).Ok?
    ensures
      var r, keys := Compare(baseline, candidate, leId, leOrigin, n).value, MatchedKeys(baseline, candidate, leId);
      && r.overall.totalWins == SumWins(r.perCase)
      && r.overall.totalLosses == SumLosses(r.perCase)
      && r.overall.totalTies == SumTies(r.perCase)
      && r.overall.totalWins + r.overall.totalLosses + r.overall.totalTies == TrialsOfKeys(keys, baseline)
  {
    var keys, ps := Explained(baseline, candidate, leId, leOrigin, n);
    ReportTotals(ps, n);
    FlatLength(ps, keys, baseline, candidate);
  }

  // ---------- Comparing a run with itself ----------

  lemma {:induction false} ZeroCounts(d: seq<real>)
    requires Within(d, 0.0, 0.0)
    ensures Positives(d) == 0 && Negatives(d) == 0
  {
    if d != [] {
      ZeroCounts(d[..|d| - 1]);
    }
  }

  lemma SameSidesInconclusive(b: seq<TrialResult>, n: Numerics)
    requires b != [] && n.Valid()
    ensures OverallOf(b, b, n).verdict == Inconclusive && OverallOf(b, b, n).totalTies == |b|
    ensures CaseVerdict(Delta(Scores(b), Scores(b), n)) == Inconclusive
  {
    var d, e := Differences(Scores(b), Scores(b)), Differences(PassBits(b), PassBits(b));
    BootstrapWithinRange(d, n.confidence, n.iterations, n.random, 0.0, 0.0);
    BootstrapWithinRange(e, n.confidence, n.iterations, n.random, 0.0, 0.0);
    ZeroCounts(d);
  }

  ghost predicate SelfPaired(ps: seq<Pairs>) {
    forall i | 0 <= i < |ps| :: ps[i].baseline == ps[i].candidate
  }

  lemma {:induction false} SelfPairs(keys: seq<Key>, run: seq<TrialResult>, leOrigin: Order)
    ensures var r := PairAll(keys, run, run, leOrigin);
            r.Ok? ==> SelfPaired(r.value)
  {
    if keys != [] {
      SelfPairs(keys[..|keys| - 1], run, leOrigin);
    }
  }

  lemma {:induction false} SelfFlat(ps: seq<Pairs>)
    requires SelfPaired(ps)
    ensures BaselineTrials(ps) == CandidateTrials(ps)
  {
    if ps != [] {
      SelfFlat(ps[..|ps| - 1]);
    }
  }

  /** A run compared with itself neither improves nor regresses, and every trial is a tie. */
  lemma SelfComparison(run: seq<TrialResult>, leId: Order, leOrigin: Order, n: Numerics)
    requires Preorder(leOrigin) && n.Valid() && Comparable(run, run)
    ensures
      var r := Compare(run, run, leId, leOrigin, n);
      && r.Ok? && r.value.overall.verdict == Inconclusive
      && r.value.overall.totalTies == TrialsOfKeys(MatchedKeys(run, run, leId), run)
      && forall i | 0 <= i < |r.value.perCase| :: r.value.perCase[i].verdict == Inconclusive
  {
    ComparesIff(run, run, leId, leOrigin, n);
    var keys, ps := Explained(run, run, leId, leOrigin, n);
    SelfPairs(keys, run, leOrigin);
    SelfFlat(ps);
    FlatLength(ps, keys, run, run);
    SameSidesInconclusive(BaselineTrials(ps), n);
    var r := ReportOf(ps, n);
    forall i | 0 <= i < |r.perCase|
      ensures r.perCase[i].verdict == Inconclusive
    {
      SameSidesInconclusive(ps[i].baseline, n);
    }
  }

  // ---------- Exchanging the runs ----------

  function Swap(p: Pairs): Pairs {
    Pairs(p.key, p.candidate, p.baseline)
  }

  ghost predicate Swapped(ps: seq<Pairs>, qs: seq<Pairs>) {
    |ps| == |qs| && forall i | 0 <= i < |ps| :: qs[i] == Swap(ps[i])
  }

  lemma PairUpSwaps(key: Key, b: seq<TrialResult>, c: seq<TrialResult>, leOrigin: Order)
    requires PairUp(key, b, c, leOrigin).Ok?
    ensures PairUp(key, c, b, leOrigin) == Ok(Swap(PairUp(key, b, c, leOrigin).value))
  {
  }

  lemma SwappedAppend(ps: seq<Pairs>, qs: seq<Pairs>, p: Pairs)
    requires Swapped(ps, qs)
    ensures Swapped(ps + [p], qs + [Swap(p)])
  {
  }

  lemma {:induction false} PairAllSwaps(keys: seq<Key>, baseline: seq<TrialResult>, candidate: seq<TrialResult>,
                                        leOrigin: Order)
    requires PairAll(keys, baseline, candidate, leOrigin).Ok?
    ensures PairAll(keys, candidate, baseline, leOrigin).Ok?
    ensures Swapped(PairAll(keys, baseline, candidate, leOrigin).value,
                    PairAll(keys, candidate, baseline, leOrigin).value)
  {
    if keys != [] {
      var init, last := keys[..|keys| - 1], keys[|keys| - 1];
      assert keys == init + [last];
      LastPairIff(init, last, baseline, candidate, leOrigin);
      PairAllSwaps(init, baseline, candidate, leOrigin);
      SwapStep(init, last, baseline, candidate, leOrigin);
    }
  }

  lemma SwapStep(init: seq<Key>, last: Key, baseline: seq<TrialResult>, candidate: seq<TrialResult>, leOrigin: Order)
    requires PairAll(init, baseline, candidate, leOrigin).Ok? && PairAll(init, candidate, baseline, leOrigin).Ok?
    requires PairUp(last, OfKey(baseline, last), OfKey(candidate, last), leOrigin).Ok?
    requires Swapped(PairAll(init, baseline, candidate, leOrigin).value,
                     PairAll(init, candidate, baseline, leOrigin).value)
    ensures PairAll(init + [last], baseline, candidate, leOrigin).Ok? &&
            PairAll(init + [last], candidate, baseline, leOrigin).Ok?
    ensures Swapped(PairAll(init + [last], baseline, candidate, leOrigin).value,
                    PairAll(init + [last], candidate, baseline, leOrigin).value)
  {
    PairAllStep(init, last, baseline, candidate, leOrigin);
    PairAllStep(init, last, candidate, baseline, leOrigin);
    PairUpSwaps(last, OfKey(baseline, last), OfKey(candidate, last), leOrigin);
    SwappedAppend(PairAll(init, baseline, candidate, leOrigin).value,
                  PairAll(init, candidate, baseline, leOrigin).value,
                  PairUp(last, OfKey(baseline, last), OfKey(candidate, last), leOrigin).value);
  }

  lemma {:induction false} FlatSwaps(ps: seq<Pairs>, qs: seq<Pairs>)
    requires Swapped(ps, qs)
    ensures BaselineTrials(qs) == CandidateTrials(ps) && CandidateTrials(qs) == BaselineTrials(ps)
  {
    if ps != [] {
      FlatSwaps(ps[..|ps| - 1], qs[..|ps| - 1]);
    }
  }

  ghost predicate RowMirrors(a: PerCase, b: PerCase) {
    && b.key == a.key
    && b.baselinePassRate == a.candidatePassRate && b.candidatePassRate == a.baselinePassRate
    && b.baselineMeanScore == a.candidateMeanScore && b.candidateMeanScore == a.baselineMeanScore
    && b.scoreDelta == NegatedSummary(a.scoreDelta) && b.passRateDelta == NegatedSummary(a.passRateDelta)
    && b.winRate.wins == a.winRate.losses && b.winRate.losses == a.winRate.wins && b.winRate.ties == a.winRate.ties
    && (a.verdict == Improved <==> b.verdict == Regressed && a.scoreDelta.mean >= 0.05)
    && (b.verdict == Improved <==> a.verdict == Regressed && a.scoreDelta.mean <= -0.05)
  }

  ghost predicate OverallMirrors(a: Overall, b: Overall) {
    && b.baselineMeanScore == a.candidateMeanScore && b.candidateMeanScore == a.baselineMeanScore
    && b.baselinePassRate == a.candidatePassRate && b.candidatePassRate == a.baselinePassRate
    && b.totalWins == a.totalLosses && b.totalLosses == a.totalWins && b.totalTies == a.totalTies
    && (a.verdict == Improved ==> b.verdict == Regressed)
    && (b.verdict == Improved ==> a.verdict == Regressed)
  }

  lemma WinsSwap(b: seq<real>, c: seq<real>)
    requires |b| == |c|
    ensures
      var w, v := Wins(Differences(b, c)), Wins(Differences(c, b));
      v.wins == w.losses && v.losses == w.wins && v.ties == w.ties
  {
    DifferencesNegated(b, c);
    WinsNegated(Differences(b, c));
  }

  lemma DeltaSwaps(b: seq<real>, c: seq<real>, n: Numerics)
    requires |b| == |c| && n.Valid()
    ensures Delta(c, b, n) == NegatedSummary(Delta(b, c, n))
  {
    BootstrapMirrors(b, c, n.confidence, n.iterations, n.random);
  }

  /** The two ends of an interval are in order. */
  lemma DeltaOrdered(b: seq<real>, c: seq<real>, n: Numerics)
    requires |b| == |c| && n.Valid()
    ensures Delta(b, c, n).ci.lower <= Delta(b, c, n).ci.upper
  {
    var d := Differences(b, c);
    if d != [] {
      var low, high := Bounds(d);
      BootstrapWithinRange(d, n.confidence, n.iterations, n.random, low, high);
    }
  }

  lemma VerdictSwaps(delta: Summary)
    requires delta.ci.lower <= delta.ci.upper
    ensures CaseVerdict(delta) == Improved <==>
            CaseVerdict(NegatedSummary(delta)) == Regressed && delta.mean >= 0.05
    ensures CaseVerdict(NegatedSummary(delta)) == Improved <==>
            CaseVerdict(delta) == Regressed && delta.mean <= -0.05
  {
  }

  lemma OverallVerdictSwaps(score: Summary, pass: Summary)
    requires score.ci.lower <= score.ci.upper && pass.ci.lower <= pass.ci.upper
    ensures OverallVerdict(score, pass) == Improved ==>
              OverallVerdict(NegatedSummary(score), NegatedSummary(pass)) == Regressed
    ensures OverallVerdict(NegatedSummary(score), NegatedSummary(pass)) == Improved ==>
              OverallVerdict(score, pass) == Regressed
  {
  }

  lemma RowSwaps(p: Pairs, n: Numerics)
    requires |p.baseline| == |p.candidate| && n.Valid()
    ensures RowMirrors(CaseRow(p, n), CaseRow(Swap(p), n))
  {
    DeltaSwaps(Scores(p.baseline), Scores(p.candidate), n);
    DeltaSwaps(PassBits(p.baseline), PassBits(p.candidate), n);
    WinsSwap(Scores(p.baseline), Scores(p.candidate));
    DeltaOrdered(Scores(p.baseline), Scores(p.candidate), n);
    VerdictSwaps(Delta(Scores(p.baseline), Scores(p.candidate), n));
  }

  lemma OverallSwaps(b: seq<TrialResult>, c: seq<TrialResult>, n: Numerics)
    requires |b| == |c| && n.Valid()
    ensures OverallMirrors(OverallOf(b, c, n), OverallOf(c, b, n))
  {
    DeltaSwaps(Scores(b), Scores(c), n);
    DeltaSwaps(PassBits(b), PassBits(c), n);
    WinsSwap(Scores(b), Scores(c));
    DeltaOrdered(Scores(b), Scores(c), n);
    DeltaOrdered(PassBits(b), PassBits(c), n);
    OverallVerdictSwaps(Delta(Scores(b), Scores(c), n), Delta(PassBits(b), PassBits(c), n));
  }

  /** Exchanging baseline and candidate mirrors the report. A row is improved exactly if the exchanged row is regressed
      and the mean gain reaches 0.05, and the other way round. */
  lemma SwapMirrorsReport(baseline: seq<TrialResult>, candidate: seq<TrialResult>, leId: Order,
                          leOrigin: Order, n: Numerics)
    requires TotalOrder(leId) && Preorder(leOrigin) && n.Valid() && Compare(baseline, candidate, leId, leOrigin, n).Ok?
    ensures
      var r := Compare(baseline, candidate, leId, leOrigin, n).value;
      var s := Compare(candidate, baseline, leId, leOrigin, n);
      && s.Ok? && OverallMirrors(r.overall, s.value.overall)
      && |s.value.perCase| == |r.perCase| &&
         forall i | 0 <= i < |r.perCase| :: RowMirrors(r.perCase[i], s.value.perCase[i])
  {
    var keys, ps := Explained(baseline, candidate, leId, leOrigin, n);
    MatchedKeysAgree(baseline, candidate, candidate, baseline, leId);
    PairAllSwaps(keys, baseline, candidate, leOrigin);
    var keys', qs := Explained(candidate, baseline, leId, leOrigin, n);
    FlatSwaps(ps, qs);
    OverallSwaps(BaselineTrials(ps), CandidateTrials(ps), n);
    forall i | 0 <= i < |ps|
      ensures RowMirrors(Rows(ps, n)[i], Rows(qs, n)[i])
    {
      RowSwaps(ps[i], n);
    }
  }
}
