/** What the lines of a baseline comparison say about the two runs, number by number. */
module ComparisonMeaning {
  import opened Collections
  import opened Sorting
  import opened Statistics
  import opened StatisticsMeaning
  import opened Comparison
  import opened ComparisonTheorems

  // ---------- Paired trials ----------

  ghost predicate Shares(trials: seq<TrialResult>, x: seq<real>) {
    |x| == |trials| && forall k | 0 <= k < |trials| :: IsShare(trials[k], x[k])
  }

  lemma ScoresAreShares(trials: seq<TrialResult>)
    ensures Shares(trials, Scores(trials))
  {
    forall k | 0 <= k < |trials|
      ensures IsShare(trials[k], Scores(trials)[k])
    {
      ScoreIsShare(trials[k]);
    }
  }

  ghost function Passed(trials: seq<TrialResult>): set<nat> {
    set k: nat | k < |trials| && trials[k].ok
  }

  /** The places where `b` exceeds `a`. */
  ghost function Higher(a: seq<real>, b: seq<real>): set<nat> {
    set k: nat | k < |a| && k < |b| && b[k] > a[k]
  }

  lemma PassRateReads(trials: seq<TrialResult>)
    ensures Times(Rate(Map(IsOk, trials)), |trials|) == |Passed(trials)| as real
  {
    var oks := Map(IsOk, trials);
    PassesCounted(oks);
    assert Places(oks, IsTrue) == Passed(trials);
    if trials != [] {
      QuotientReads(PassedIn(oks) as real, |trials|);
    }
  }

  lemma {:induction false} BitsTotal(trials: seq<TrialResult>)
    ensures Total(PassBits(trials)) == |Passed(trials)| as real
  {
    if trials == [] {
      assert Passed(trials) == {};
    } else {
      var n := |trials| - 1;
      BitsTotal(trials[..n]);
      assert PassBits(trials)[..n] == PassBits(trials[..n]);
      assert Passed(trials) == Passed(trials[..n]) + if trials[n].ok then {n} else {};
    }
  }

  lemma {:induction false} DifferenceTotal(x: seq<real>, y: seq<real>)
    requires |x| == |y|
    ensures Total(Differences(x, y)) == Total(y) - Total(x)
  {
    if x != [] {
      var n := |x| - 1;
      DifferenceTotal(x[..n], y[..n]);
      assert Differences(x, y)[..n] == Differences(x[..n], y[..n]);
    }
  }

  lemma WinsRead(x: seq<real>, y: seq<real>)
    requires |x| == |y|
    ensures
      var w := Wins(Differences(x, y));
      && w.n == |x| == w.wins + w.losses + w.ties
      && w.wins == |Higher(x, y)| && w.losses == |Higher(y, x)|
      && Times(w.winRate, |x|) == w.wins as real
  {
    var d := Differences(x, y);
    CountsFit(d);
    SignsCounted(d);
    assert Places(d, IsPositive) == Higher(x, y);
    assert Places(d, IsNegative) == Higher(y, x);
    if d != [] {
      QuotientReads(Positives(d) as real, |d|);
    }
  }

  // ---------- One line ----------

  /** The rates and means of a line, over the paired trials with shares `x` and `y`: taken as many times as there are
      trials, each gives the sum. */
  ghost predicate RatesSay(row: PerCase, b: seq<TrialResult>, c: seq<TrialResult>, x: seq<real>, y: seq<real>) {
    && Times(row.baselinePassRate, |b|) == |Passed(b)| as real
    && Times(row.candidatePassRate, |c|) == |Passed(c)| as real
    && Times(row.baselineMeanScore, |b|) == Total(x)
    && Times(row.candidateMeanScore, |c|) == Total(y)
  }

  /** The differences of a line are candidate less baseline, and a win is a trial where the candidate has more. */
  ghost predicate DeltasSay(row: PerCase, b: seq<TrialResult>, c: seq<TrialResult>, x: seq<real>, y: seq<real>) {
    && row.scoreDelta.n == row.passRateDelta.n == row.winRate.n == |b|
    && Times(row.scoreDelta.mean, |b|) == Total(y) - Total(x)
    && Times(row.passRateDelta.mean, |b|) == |Passed(c)| as real - |Passed(b)| as real
    && row.winRate.wins == |Higher(x, y)| && row.winRate.losses == |Higher(y, x)|
    && row.winRate.ties == |b| - |Higher(x, y)| - |Higher(y, x)|
    && Times(row.winRate.winRate, |b|) == |Higher(x, y)| as real
  }

  /** The verdict of a line; the two conditions exclude each other. */
  ghost predicate VerdictSays(row: PerCase) {
    && (row.verdict == Improved <==> row.scoreDelta.ci.lower > 0.0 && row.scoreDelta.mean >= 0.05)
    && (row.verdict == Regressed <==> row.scoreDelta.ci.upper < 0.0)
    && row.scoreDelta.ci.lower <= row.scoreDelta.ci.upper
  }

  lemma RatesRead(p: Pairs, n: Numerics)
    requires |p.baseline| == |p.candidate| && n.Valid()
    ensures RatesSay(CaseRow(p, n), p.baseline, p.candidate, Scores(p.baseline), Scores(p.candidate))
  {
    PassRateReads(p.baseline);
    PassRateReads(p.candidate);
    MeanReads(Scores(p.baseline));
    MeanReads(Scores(p.candidate));
  }

  lemma DeltaReads(x: seq<real>, y: seq<real>, n: Numerics)
    requires |x| == |y| && n.Valid()
    ensures Delta(x, y, n).n == |x| && Times(Delta(x, y, n).mean, |x|) == Total(y) - Total(x)
  {
    SummaryReads(Differences(x, y), n.confidence, n.iterations, n.random);
    DifferenceTotal(x, y);
  }

  lemma DeltasRead(p: Pairs, n: Numerics)
    requires |p.baseline| == |p.candidate| && n.Valid()
    ensures DeltasSay(CaseRow(p, n), p.baseline, p.candidate, Scores(p.baseline), Scores(p.candidate))
  {
    DeltaReads(Scores(p.baseline), Scores(p.candidate), n);
    DeltaReads(PassBits(p.baseline), PassBits(p.candidate), n);
    BitsTotal(p.baseline);
    BitsTotal(p.candidate);
    WinsRead(Scores(p.baseline), Scores(p.candidate));
  }

  lemma VerdictReads(p: Pairs, n: Numerics)
    requires |p.baseline| == |p.candidate| && n.Valid()
    ensures VerdictSays(CaseRow(p, n))
  {
    DeltaOrdered(Scores(p.baseline), Scores(p.candidate), n);
  }

  /** `trials` are the results of one group, each as often as it occurs, with ascending trial numbers. */
  ghost predicate TrialsOfGroup(trials: seq<TrialResult>, results: seq<TrialResult>, key: Key) {
    && (forall r: TrialResult :: multiset(trials)[r] == if r.key == key then multiset(results)[r] else 0)
    && forall i, j | 0 <= i < j < |trials| :: trials[i].trial < trials[j].trial
  }

  lemma GroupTrials(key: Key, results: seq<TrialResult>, leOrigin: Order)
    requires Preorder(leOrigin) && UniqueTrials(OfKey(results, key))
    ensures TrialsOfGroup(SortTrials(OfKey(results, key), leOrigin), results, key)
  {
    var trials := SortTrials(OfKey(results, key), leOrigin);
    SortTrialsFacts(OfKey(results, key), leOrigin);
    forall r: TrialResult
      ensures multiset(trials)[r] == if r.key == key then multiset(results)[r] else 0
    {
      OfKeyCounts(results, key, r);
    }
    forall i, j | 0 <= i < j < |trials|
      ensures trials[i].trial < trials[j].trial
    {
      assert TrialOnly(trials[i], trials[j]) && Map(TrialOf, trials)[i] != Map(TrialOf, trials)[j];
    }
  }

  ghost predicate GroupPair(p: Pairs, baseline: seq<TrialResult>, candidate: seq<TrialResult>) {
    TrialsOfGroup(p.baseline, baseline, p.key) && TrialsOfGroup(p.candidate, candidate, p.key)
  }

  lemma OneGroupPair(key: Key, baseline: seq<TrialResult>, candidate: seq<TrialResult>, leOrigin: Order)
    requires Preorder(leOrigin) && PairUp(key, OfKey(baseline, key), OfKey(candidate, key), leOrigin).Ok?
    ensures GroupPair(PairUp(key, OfKey(baseline, key), OfKey(candidate, key), leOrigin).value, baseline, candidate)
  {
    GroupTrials(key, baseline, leOrigin);
    GroupTrials(key, candidate, leOrigin);
  }

  lemma {:induction false} GroupPairAt(keys: seq<Key>, baseline: seq<TrialResult>, candidate: seq<TrialResult>,
                                       leOrigin: Order, i: nat)
    requires Preorder(leOrigin) && PairAll(keys, baseline, candidate, leOrigin).Ok?
    requires i < |PairAll(keys, baseline, candidate, leOrigin).value|
    ensures GroupPair(PairAll(keys, baseline, candidate, leOrigin).value[i], baseline, candidate)
  {
    var n := |keys| - 1;
    if i < |PairAll(keys[..n], baseline, candidate, leOrigin).value| {
      GroupPairAt(keys[..n], baseline, candidate, leOrigin, i);
    } else {
      OneGroupPair(keys[n], baseline, candidate, leOrigin);
    }
  }

  /** Line `i` is about one group: there are its trials of both runs, in ascending order and with the same numbers, and
      every number of the line is the recount over them. */
  lemma RowReads(baseline: seq<TrialResult>, candidate: seq<TrialResult>, leId: Order, leOrigin: Order, n: Numerics,
                 i: nat)
    returns (b: seq<TrialResult>, c: seq<TrialResult>, x: seq<real>, y: seq<real>)
    requires Preorder(leOrigin) && n.Valid() && Compare(baseline, candidate, leId, leOrigin, n).Ok?
    requires i < |Compare(baseline, candidate, leId, leOrigin, n).value.perCase|
    ensures
      var row := Compare(baseline, candidate, leId, leOrigin, n).value.perCase[i];
      && TrialsOfGroup(b, baseline, row.key) && TrialsOfGroup(c, candidate, row.key) && Aligned(b, c) && b != []
      && Shares(b, x) && Shares(c, y)
      && RatesSay(row, b, c, x, y) && DeltasSay(row, b, c, x, y) && VerdictSays(row)
  {
    var keys, ps := Explained(baseline, candidate, leId, leOrigin, n);
    var p := ps[i];
    b, c, x, y := p.baseline, p.candidate, Scores(p.baseline), Scores(p.candidate);
    GroupPairAt(keys, baseline, candidate, leOrigin, i);
    assert GroupPair(p, baseline, candidate);
    assert Paired(p, keys[i], baseline, candidate);
    ScoresAreShares(b);
    ScoresAreShares(c);
    RatesRead(p, n);
    DeltasRead(p, n);
    VerdictReads(p, n);
  }

  // ---------- Which lines there are ----------

  ghost predicate Ran(results: seq<TrialResult>, key: Key) {
    exists r :: r in results && r.key == key
  }

  function Place(c: Condition): nat {
    match c
    case NoSkill => 0
    case SelfLoad => 1
    case Preloaded => 2
    case Stale => 3
  }

  /** By case id and then by condition. */
  ghost predicate InReportOrder(keys: seq<Key>, leId: Order) {
    forall i, j | 0 <= i < j < |keys| ::
      && leId(keys[i].caseId, keys[j].caseId)
      && (keys[i].caseId == keys[j].caseId ==> Place(keys[i].condition) < Place(keys[j].condition))
  }

  /** One line per group that both runs have, by case id and then by condition. */
  lemma RowKeysRead(baseline: seq<TrialResult>, candidate: seq<TrialResult>, leId: Order, leOrigin: Order, n: Numerics)
    returns (keys: seq<Key>)
    requires TotalOrder(leId) && Preorder(leOrigin) && n.Valid()
    requires Compare(baseline, candidate, leId, leOrigin, n).Ok?
    ensures
      var rows := Compare(baseline, candidate, leId, leOrigin, n).value.perCase;
      |rows| == |keys| && forall i | 0 <= i < |rows| :: rows[i].key == keys[i]
    ensures InReportOrder(keys, leId) && forall k :: k in keys <==> Ran(baseline, k) && Ran(candidate, k)
  {
    var ps;
    keys, ps := Explained(baseline, candidate, leId, leOrigin, n);
    forall i | 0 <= i < |ps|
      ensures Rows(ps, n)[i].key == keys[i]
    {
      assert Paired(ps[i], keys[i], baseline, candidate);
    }
    KeysInOrder(baseline, candidate, leId);
    KeysShared(baseline, candidate, leId);
  }

  lemma KeysShared(baseline: seq<TrialResult>, candidate: seq<TrialResult>, leId: Order)
    ensures forall k :: k in MatchedKeys(baseline, candidate, leId) <==> Ran(baseline, k) && Ran(candidate, k)
  {
    MatchedFacts(baseline, candidate, leId);
    forall k
      ensures Shared(k, baseline, candidate) <==> Ran(baseline, k) && Ran(candidate, k)
    {
      HasKey(baseline, k);
      HasKey(candidate, k);
    }
  }

  lemma KeysInOrder(baseline: seq<TrialResult>, candidate: seq<TrialResult>, leId: Order)
    requires TotalOrder(leId)
    ensures InReportOrder(MatchedKeys(baseline, candidate, leId), leId)
  {
    var keys := MatchedKeys(baseline, candidate, leId);
    MatchedFacts(baseline, candidate, leId);
    ByKeyTotal(leId);
    SortSorted(Common(Uniq(Map(KeyOf, baseline)), candidate), ByKey(leId));
    forall i, j | 0 <= i < j < |keys|
      ensures leId(keys[i].caseId, keys[j].caseId)
      ensures keys[i].caseId == keys[j].caseId ==> Place(keys[i].condition) < Place(keys[j].condition)
    {
      assert ByKey(leId)(keys[i], keys[j]);
      KeyOrder(keys[i], keys[j], leId);
    }
  }

  lemma KeyOrder(a: Key, b: Key, leId: Order)
    requires TotalOrder(leId) && KeyLe(a, b, leId) && a != b
    ensures leId(a.caseId, b.caseId)
    ensures a.caseId == b.caseId ==> Place(a.condition) < Place(b.condition)
  {
    assert leId(a.caseId, b.caseId) || leId(b.caseId, a.caseId);
  }

  // ---------- The overall line ----------

  /** The overall line over all paired trials; the two summaries are those of the share and of the pass differences. */
  ghost predicate OverallSays(o: Overall, b: seq<TrialResult>, c: seq<TrialResult>, x: seq<real>, y: seq<real>) {
    && Times(o.baselinePassRate, |b|) == |Passed(b)| as real
    && Times(o.candidatePassRate, |c|) == |Passed(c)| as real
    && Times(o.baselineMeanScore, |b|) == Total(x)
    && Times(o.candidateMeanScore, |c|) == Total(y)
    && o.totalWins == |Higher(x, y)| && o.totalLosses == |Higher(y, x)|
    && o.totalTies == |b| - |Higher(x, y)| - |Higher(y, x)|
  }

  ghost predicate Rose(delta: Summary) {
    delta.ci.lower > 0.0 && delta.mean >= 0.05
  }

  ghost predicate Fell(delta: Summary) {
    delta.ci.upper < 0.0
  }

  /** Regressed if scores or pass rate fell, and otherwise improved if one of them rose. */
  ghost predicate OverallVerdictSays(o: Overall, score: Summary, pass: Summary) {
    && (o.verdict == Regressed <==> Fell(score) || Fell(pass))
    && (o.verdict == Improved <==> !Fell(score) && !Fell(pass) && (Rose(score) || Rose(pass)))
  }

  lemma OverallLine(b: seq<TrialResult>, c: seq<TrialResult>, n: Numerics)
    requires |b| == |c| && n.Valid()
    ensures OverallSays(OverallOf(b, c, n), b, c, Scores(b), Scores(c))
    ensures OverallVerdictSays(OverallOf(b, c, n), Delta(Scores(b), Scores(c), n), Delta(PassBits(b), PassBits(c), n))
  {
    PassRateReads(b);
    PassRateReads(c);
    MeanReads(Scores(b));
    MeanReads(Scores(c));
    WinsRead(Scores(b), Scores(c));
  }

  ghost predicate Bits(trials: seq<TrialResult>, bits: seq<real>) {
    |bits| == |trials| && forall k | 0 <= k < |trials| :: bits[k] == if trials[k].ok then 1.0 else 0.0
  }

  /** The overall line is about the trials of all shared groups, paired slot by slot; its verdict follows from the
      bootstrap over all score differences and the one over all pass differences. */
  lemma OverallReads(baseline: seq<TrialResult>, candidate: seq<TrialResult>, leId: Order, leOrigin: Order, n: Numerics)
    returns (b: seq<TrialResult>, c: seq<TrialResult>, x: seq<real>, y: seq<real>, u: seq<real>, v: seq<real>)
    requires Preorder(leOrigin) && n.Valid() && Compare(baseline, candidate, leId, leOrigin, n).Ok?
    ensures Slotted(b, c, baseline, candidate) && b != []
    ensures forall r: TrialResult :: multiset(b)[r] == if Ran(candidate, r.key) then multiset(baseline)[r] else 0
    ensures Shares(b, x) && Shares(c, y) && Bits(b, u) && Bits(c, v)
    ensures OverallSays(Compare(baseline, candidate, leId, leOrigin, n).value.overall, b, c, x, y)
    ensures OverallVerdictSays(Compare(baseline, candidate, leId, leOrigin, n).value.overall,
                               BootstrapSummary(Differences(x, y), n.confidence, n.iterations, n.random),
                               BootstrapSummary(Differences(u, v), n.confidence, n.iterations, n.random))
  {
    var keys, ps := Explained(baseline, candidate, leId, leOrigin, n);
    b, c := BaselineTrials(ps), CandidateTrials(ps);
    x, y, u, v := Scores(b), Scores(c), PassBits(b), PassBits(c);
    ScoresAreShares(b);
    ScoresAreShares(c);
    OverallLine(b, c, n);
    MatchedFacts(baseline, candidate, leId);
    forall r: TrialResult
      ensures multiset(b)[r] == if Ran(candidate, r.key) then multiset(baseline)[r] else 0
    {
      FlatCounts(ps, keys, baseline, candidate, r);
      SharedIff(baseline, candidate, r);
    }
  }

  lemma {:induction false} FlatCounts(ps: seq<Pairs>, keys: seq<Key>, baseline: seq<TrialResult>,
                                      candidate: seq<TrialResult>, r: TrialResult)
    requires AllPaired(ps, keys, baseline, candidate) && Distinct(keys)
    ensures multiset(BaselineTrials(ps))[r] == if r.key in keys then multiset(baseline)[r] else 0
  {
    if ps != [] {
      var n := |ps| - 1;
      FlatCounts(ps[..n], keys[..n], baseline, candidate, r);
      assert Paired(ps[n], keys[n], baseline, candidate);
      OfKeyCounts(baseline, keys[n], r);
      assert keys == keys[..n] + [keys[n]];
    }
  }

  lemma SharedIff(baseline: seq<TrialResult>, candidate: seq<TrialResult>, r: TrialResult)
    ensures multiset(baseline)[r] > 0 ==> (Shared(r.key, baseline, candidate) <==> Ran(candidate, r.key))
    ensures Shared(r.key, baseline, candidate) ==> Ran(candidate, r.key)
  {
    HasKey(baseline, r.key);
    HasKey(candidate, r.key);
  }

  // ---------- Why a comparison fails ----------

  /** The first group that cannot be paired. */
  ghost predicate FirstUnpaired(keys: seq<Key>, baseline: seq<TrialResult>, candidate: seq<TrialResult>,
                                leOrigin: Order, error: Error, i: nat)
  {
    && i < |keys| && AllSame(keys[..i], baseline, candidate)
    && PairUp(keys[i], OfKey(baseline, keys[i]), OfKey(candidate, keys[i]), leOrigin) == Err(error)
  }

  lemma {:induction false} FirstError(keys: seq<Key>, baseline: seq<TrialResult>, candidate: seq<TrialResult>,
                                      leOrigin: Order)
    returns (i: nat)
    requires Preorder(leOrigin) && PairAll(keys, baseline, candidate, leOrigin).Err?
    ensures FirstUnpaired(keys, baseline, candidate, leOrigin, PairAll(keys, baseline, candidate, leOrigin).error, i)
  {
    var n := |keys| - 1;
    if PairAll(keys[..n], baseline, candidate, leOrigin).Err? {
      i := FirstError(keys[..n], baseline, candidate, leOrigin);
      assert keys[..n][..i] == keys[..i];
    } else {
      i := n;
      AllPairIff(keys[..n], baseline, candidate, leOrigin);
    }
  }

  /** What an error says about the group it names: a side repeats a trial number, the baseline being looked at first, or
      none does and the two sides have different numbers of trials, or as many but not the same. */
  ghost predicate ErrorSays(error: Error, baseline: seq<TrialResult>, candidate: seq<TrialResult>) {
    match error
    case NoSharedGroup => forall k :: !Ran(baseline, k) || !Ran(candidate, k)
    case DuplicateTrial(side, k) =>
      && (side == BaselineSide ==> !Distinct(Trials(baseline, k)))
      && (side == CandidateSide ==> Distinct(Trials(baseline, k)) && !Distinct(Trials(candidate, k)))
    case UnequalTrialCounts(k) =>
      && Distinct(Trials(baseline, k)) && Distinct(Trials(candidate, k))
      && |Trials(baseline, k)| != |Trials(candidate, k)|
    case MisalignedTrials(k) =>
      && Distinct(Trials(baseline, k)) && Distinct(Trials(candidate, k))
      && |Trials(baseline, k)| == |Trials(candidate, k)|
      && SetOf(Trials(baseline, k)) != SetOf(Trials(candidate, k))
  }

  lemma PairErrorReads(key: Key, baseline: seq<TrialResult>, candidate: seq<TrialResult>, leOrigin: Order)
    requires Preorder(leOrigin) && PairUp(key, OfKey(baseline, key), OfKey(candidate, key), leOrigin).Err?
    ensures ErrorSays(PairUp(key, OfKey(baseline, key), OfKey(candidate, key), leOrigin).error, baseline, candidate)
  {
    PairsIff(baseline, candidate, key, leOrigin);
    SortTrialsFacts(OfKey(baseline, key), leOrigin);
    SortTrialsFacts(OfKey(candidate, key), leOrigin);
    Permuted(SortTrials(OfKey(baseline, key), leOrigin), OfKey(baseline, key));
    Permuted(SortTrials(OfKey(candidate, key), leOrigin), OfKey(candidate, key));
  }

  /** A failed comparison shares no group, or names the reason at the first shared group, in report order, that cannot
      be paired. */
  lemma ErrorReads(baseline: seq<TrialResult>, candidate: seq<TrialResult>, leId: Order, leOrigin: Order, n: Numerics)
    returns (i: nat)
    requires Preorder(leOrigin) && n.Valid() && Compare(baseline, candidate, leId, leOrigin, n).Err?
    ensures
      var error, keys := Compare(baseline, candidate, leId, leOrigin, n).error, MatchedKeys(baseline, candidate, leId);
      && ErrorSays(error, baseline, candidate)
      && (keys == [] || (i < |keys| && Blames(error, keys[i]) &&
                         forall k | k in keys[..i] :: SameTrials(baseline, candidate, k)))
  {
    var keys := MatchedKeys(baseline, candidate, leId);
    i := 0;
    if keys == [] {
      NothingShared(baseline, candidate, leId);
    } else {
      i := FirstError(keys, baseline, candidate, leOrigin);
      UnpairedReads(keys, baseline, candidate, leOrigin, PairAll(keys, baseline, candidate, leOrigin).error, i);
    }
  }

  lemma NothingShared(baseline: seq<TrialResult>, candidate: seq<TrialResult>, leId: Order)
    requires MatchedKeys(baseline, candidate, leId) == []
    ensures ErrorSays(NoSharedGroup, baseline, candidate)
  {
    KeysShared(baseline, candidate, leId);
    assert forall k :: k !in MatchedKeys(baseline, candidate, leId);
  }

  lemma UnpairedReads(keys: seq<Key>, baseline: seq<TrialResult>, candidate: seq<TrialResult>, leOrigin: Order,
                      error: Error, i: nat)
    requires Preorder(leOrigin) && FirstUnpaired(keys, baseline, candidate, leOrigin, error, i)
    ensures ErrorSays(error, baseline, candidate) && Blames(error, keys[i])
    ensures forall k | k in keys[..i] :: SameTrials(baseline, candidate, k)
  {
    AllSameIff(keys[..i], baseline, candidate);
    PairErrorReads(keys[i], baseline, candidate, leOrigin);
  }

  ghost predicate Blames(error: Error, key: Key) {
    match error
    case NoSharedGroup => false
    case DuplicateTrial(_, k) => k == key
    case UnequalTrialCounts(k) => k == key
    case MisalignedTrials(k) => k == key
  }
}
