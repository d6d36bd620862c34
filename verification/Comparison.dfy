/** Comparing a run with a baseline run, trial by trial. */
module Comparison {
  import opened Collections
  import opened Sorting
  import opened Statistics

  /** An order on strings: of case ids, or of what breaks ties. */
  type Order = (string, string) -> bool

  datatype Condition = NoSkill | SelfLoad | Preloaded | Stale

  function Rank(c: Condition): nat {
    match c
    case NoSkill => 0
    case SelfLoad => 1
    case Preloaded => 2
    case Stale => 3
  }

  function Name(c: Condition): string {
    match c
    case NoSkill => "none"
    case SelfLoad => "self-load"
    case Preloaded => "preloaded"
    case Stale => "stale"
  }

  datatype Key = Key(caseId: string, condition: Condition)

  /** `origin` stands for lane, provider and run: it only breaks ties. */
  datatype TrialResult = TrialResult(key: Key, trial: int, origin: string, ok: bool, total: real, maxPossible: real)

  datatype Side = BaselineSide | CandidateSide

  datatype Error = NoSharedGroup | DuplicateTrial(side: Side,
                                                  key: Key) | UnequalTrialCounts(key: Key) | MisalignedTrials(key: Key)

  datatype Verdict = Improved | Regressed | Inconclusive

  datatype PerCase = PerCase(
    key: Key, baselinePassRate: real, candidatePassRate: real, baselineMeanScore: real, candidateMeanScore: real,
    scoreDelta: Summary, passRateDelta: Summary, winRate: WinRate, verdict: Verdict)

  datatype Overall = Overall(
    baselineMeanScore: real, candidateMeanScore: real, baselinePassRate: real, candidatePassRate: real,
    totalWins: nat, totalLosses: nat, totalTies: nat, verdict: Verdict)

  datatype Report = Report(overall: Overall, perCase: seq<PerCase>)

  /** The numeric settings; the generator is restarted from the same seed for every interval. */
  datatype Numerics = Numerics(confidence: real, iterations: nat, random: nat -> real, z: real, sqrt: real -> real) {
    ghost predicate Valid() {
      0.0 < confidence < 1.0 && iterations >= 100 && UnitStream(random) && z > 0.0 && SquareRoot(sqrt)
    }
  }

  // ---------- Keys ----------

  function Label(k: Key): string {
    k.caseId + ":" + Name(k.condition)
  }

  /** Grouping by the printed label is grouping by the pair, whatever characters a case id holds. */
  lemma LabelInjective(a: Key, b: Key)
    requires Label(a) == Label(b)
    ensures a == b
  {
    var s, n := Label(a), |Label(a)|;
    assert s[n - 1] == Name(a.condition)[|Name(a.condition)| - 1] == Name(b.condition)[|Name(b.condition)| - 1];
    assert s[n - 2] == Name(a.condition)[|Name(a.condition)| - 2] == Name(b.condition)[|Name(b.condition)| - 2];
    assert a.condition == b.condition;
    assert |a.caseId| == |b.caseId|;
    assert a.caseId == s[..|a.caseId|] == b.caseId;
  }

  predicate KeyLe(a: Key, b: Key, leId: Order) {
    if a.caseId == b.caseId then Rank(a.condition) <= Rank(b.condition) else leId(a.caseId, b.caseId)
  }

  function ByKey(leId: Order): (Key, Key) -> bool {
    (a: Key, b: Key) => KeyLe(a, b, leId)
  }

  lemma ByKeyTotal(leId: Order)
    requires TotalOrder(leId)
    ensures TotalOrder(ByKey(leId))
  {
    var le := ByKey(leId);
    forall a, b
      ensures le(a, b) || le(b, a)
      ensures le(a, b) && le(b, a) ==> a == b
    {
      assert le(a, b) == KeyLe(a, b, leId) && le(b, a) == KeyLe(b, a, leId);
      assert leId(a.caseId, b.caseId) || leId(b.caseId, a.caseId);
      assert Rank(a.condition) == Rank(b.condition) ==> a.condition == b.condition;
    }
    forall a, b, c | le(a, b) && le(b, c)
      ensures le(a, c)
    {
      assert le(a, b) == KeyLe(a, b, leId) && le(b, c) == KeyLe(b, c, leId) && le(a, c) == KeyLe(a, c, leId);
    }
  }

  function KeyOf(r: TrialResult): Key { r.key }

  function OfKey(results: seq<TrialResult>, key: Key): (r: seq<TrialResult>) {
    if results == [] then []
    else
      var last := results[|results| - 1];
      OfKey(results[..|results| - 1], key) + if last.key == key then [last] else []
  }

  lemma {:induction false} OfKeyMembers(results: seq<TrialResult>, key: Key)
    ensures forall r :: r in OfKey(results, key) <==> r in results && r.key == key
  {
    if results != [] {
      var init, last := results[..|results| - 1], results[|results| - 1];
      OfKeyMembers(init, key);
      assert results == init + [last];
    }
  }

  lemma HasKey(results: seq<TrialResult>, key: Key)
    ensures key in Map(KeyOf, results) <==> exists r :: r in results && r.key == key
    ensures key in Map(KeyOf, results) <==> OfKey(results, key) != []
  {
    OfKeyMembers(results, key);
    var keys := Map(KeyOf, results);
    if key in keys {
      var i :| 0 <= i < |keys| && keys[i] == key;
      assert results[i] in results;
    }
    if r :| r in results && r.key == key {
      var i :| 0 <= i < |results| && results[i] == r;
      assert keys[i] == key;
    }
    if OfKey(results, key) != [] {
      assert OfKey(results, key)[0] in OfKey(results, key);
    }
  }

  function Common(keys: seq<Key>, candidate: seq<TrialResult>): (r: seq<Key>) {
    if keys == [] then []
    else
      var last := keys[|keys| - 1];
      Common(keys[..|keys| - 1], candidate) + if last in Map(KeyOf, candidate) then [last] else []
  }

  lemma {:induction false} CommonFacts(keys: seq<Key>, candidate: seq<TrialResult>)
    requires Distinct(keys)
    ensures Distinct(Common(keys, candidate))
    ensures forall k :: k in Common(keys, candidate) <==> k in keys && k in Map(KeyOf, candidate)
  {
    if keys != [] {
      var init, last := keys[..|keys| - 1], keys[|keys| - 1];
      CommonFacts(init, candidate);
      assert keys == init + [last];
    }
  }

  /** The groups both runs have, in report order. */
  function MatchedKeys(baseline: seq<TrialResult>, candidate: seq<TrialResult>, leId: Order): seq<Key> {
    Sort(Common(Uniq(Map(KeyOf, baseline)), candidate), ByKey(leId))
  }

  ghost predicate Shared(key: Key, baseline: seq<TrialResult>, candidate: seq<TrialResult>) {
    OfKey(baseline, key) != [] && OfKey(candidate, key) != []
  }

  lemma MatchedFacts(baseline: seq<TrialResult>, candidate: seq<TrialResult>, leId: Order)
    ensures var keys := MatchedKeys(baseline, candidate, leId);
            Distinct(keys) && forall k :: k in keys <==> Shared(k, baseline, candidate)
  {
    var all := Uniq(Map(KeyOf, baseline));
    UniqFacts(Map(KeyOf, baseline));
    UniqMembers(Map(KeyOf, baseline));
    CommonFacts(all, candidate);
    SortedKeysFacts(Common(all, candidate), ByKey(leId));
    forall k
      ensures k in MatchedKeys(baseline, candidate, leId) <==> Shared(k, baseline, candidate)
    {
      HasKey(baseline, k);
      HasKey(candidate, k);
    }
  }

  ghost predicate Grouped(keys: seq<Key>, groups: map<Key, seq<TrialResult>>, results: seq<TrialResult>) {
    keys == Uniq(Map(KeyOf, results)) && forall k :: GroupFits(groups, results, k)
  }

  ghost predicate GroupFits(groups: map<Key, seq<TrialResult>>, results: seq<TrialResult>, k: Key) {
    if k in groups then groups[k] == OfKey(results, k) != [] else OfKey(results, k) == []
  }

  lemma GroupedAt(keys: seq<Key>, groups: map<Key, seq<TrialResult>>, results: seq<TrialResult>, k: Key)
    requires Grouped(keys, groups, results)
    ensures k in groups <==> k in Map(KeyOf, results)
    ensures k in groups <==> OfKey(results, k) != []
    ensures k in groups ==> groups[k] == OfKey(results, k)
  {
    HasKey(results, k);
    assert GroupFits(groups, results, k);
  }

  lemma OfKeyAppend(results: seq<TrialResult>, r: TrialResult, k: Key)
    ensures OfKey(results + [r], k) == OfKey(results, k) + if r.key == k then [r] else []
  {
    assert (results + [r])[..|results|] == results;
  }

  lemma UniqAppend(results: seq<TrialResult>, r: TrialResult)
    ensures Uniq(Map(KeyOf, results + [r])) ==
            if r.key in Map(KeyOf, results) then Uniq(Map(KeyOf, results)) else Uniq(Map(KeyOf, results)) + [r.key]
  {
    assert Map(KeyOf, results + [r]) == Map(KeyOf, results) + [r.key];
  }

  lemma GroupedStep(keys: seq<Key>, groups: map<Key, seq<TrialResult>>, results: seq<TrialResult>, r: TrialResult)
    requires Grouped(keys, groups, results)
    ensures r.key !in groups ==> Grouped(keys + [r.key], groups[r.key := [r]], results + [r])
    ensures r.key in groups ==> Grouped(keys, groups[r.key := groups[r.key] + [r]], results + [r])
  {
    GroupedAt(keys, groups, results, r.key);
    UniqAppend(results, r);
    var after := if r.key in groups then groups[r.key := groups[r.key] + [r]] else groups[r.key := [r]];
    forall k
      ensures GroupFits(after, results + [r], k)
    {
      assert GroupFits(groups, results, k);
      OfKeyAppend(results, r, k);
    }
  }

  method GroupResults(results: seq<TrialResult>) returns (keys: seq<Key>, groups: map<Key, seq<TrialResult>>)
    ensures Grouped(keys, groups, results)
  {
    keys, groups := [], map[];
    for i := 0 to |results|
      invariant Grouped(keys, groups, results[..i])
    {
      var result := results[i];
      GroupedStep(keys, groups, results[..i], result);
      assert results[..i + 1] == results[..i] + [result];
      if result.key !in groups {
        keys := keys + [result.key];
        groups := groups[result.key := [result]];
      } else {
        groups := groups[result.key := groups[result.key] + [result]];
      }
    }
    assert results[..|results|] == results;
  }

  // ---------- Trials ----------

  predicate TrialLe(a: TrialResult, b: TrialResult, leOrigin: Order) {
    a.trial < b.trial || (a.trial == b.trial && leOrigin(a.origin, b.origin))
  }

  function ByTrial(leOrigin: Order): (TrialResult, TrialResult) -> bool {
    (a: TrialResult, b: TrialResult) => TrialLe(a, b, leOrigin)
  }

  function TrialOnly(a: TrialResult, b: TrialResult): bool {
    a.trial <= b.trial
  }

  function TrialOf(r: TrialResult): int { r.trial }

  ghost predicate UniqueTrials(s: seq<TrialResult>) {
    Distinct(Map(TrialOf, s))
  }

  lemma ByTrialPreorder(leOrigin: Order)
    requires Preorder(leOrigin)
    ensures Preorder(ByTrial(leOrigin))
  {
    var le := ByTrial(leOrigin);
    forall a, b
      ensures le(a, b) || le(b, a)
    {
      assert le(a, b) == TrialLe(a, b, leOrigin) && le(b, a) == TrialLe(b, a, leOrigin);
      assert leOrigin(a.origin, b.origin) || leOrigin(b.origin, a.origin);
    }
    forall a, b, c | le(a, b) && le(b, c)
      ensures le(a, c)
    {
      assert le(a, b) == TrialLe(a, b, leOrigin) && le(b, c) == TrialLe(b, c, leOrigin) &&
             le(a, c) == TrialLe(a, c, leOrigin);
    }
  }

  function SortTrials(results: seq<TrialResult>, leOrigin: Order): seq<TrialResult> {
    Sort(results, ByTrial(leOrigin))
  }

  lemma SortTrialsFacts(results: seq<TrialResult>, leOrigin: Order)
    requires Preorder(leOrigin)
    ensures Sorted(SortTrials(results, leOrigin), TrialOnly)
    ensures multiset(SortTrials(results, leOrigin)) == multiset(results)
    ensures UniqueTrials(SortTrials(results, leOrigin)) <==> UniqueTrials(results)
  {
    var sorted := SortTrials(results, leOrigin);
    ByTrialPreorder(leOrigin);
    SortSorted(results, ByTrial(leOrigin));
    forall i, j | 0 <= i < j < |sorted|
      ensures TrialOnly(sorted[i], sorted[j])
    {
      assert ByTrial(leOrigin)(sorted[i], sorted[j]);
    }
    UniqueTrialsPermute(sorted, results);
  }

  lemma UniqueTrialsPermute(s: seq<TrialResult>, t: seq<TrialResult>)
    requires multiset(s) == multiset(t)
    ensures UniqueTrials(s) <==> UniqueTrials(t)
  {
    MapPermutes(TrialOf, s, t);
    if UniqueTrials(s) {
      PermutationDistinct(Map(TrialOf, s), Map(TrialOf, t));
    }
    if UniqueTrials(t) {
      PermutationDistinct(Map(TrialOf, t), Map(TrialOf, s));
    }
  }

  lemma UniqueUntied(s: seq<TrialResult>)
    requires UniqueTrials(s)
    ensures Untied(s, TrialOnly)
  {
    forall a, b | a in s && b in s && TrialOnly(a, b) && TrialOnly(b, a)
      ensures a == b
    {
      var i :| 0 <= i < |s| && s[i] == a;
      var j :| 0 <= j < |s| && s[j] == b;
      assert Map(TrialOf, s)[i] == Map(TrialOf, s)[j];
    }
  }

  /** Where trial numbers are unique, neither the order of the records nor the tie-break shows. */
  lemma SortTrialsCanonical(s: seq<TrialResult>, t: seq<TrialResult>, le: Order, le': Order)
    requires Preorder(le) && Preorder(le') && multiset(s) == multiset(t) && UniqueTrials(s)
    ensures SortTrials(s, le) == SortTrials(t, le')
  {
    SortTrialsFacts(s, le);
    SortTrialsFacts(t, le');
    UniqueUntied(SortTrials(s, le));
    SortedUnique(SortTrials(s, le), SortTrials(t, le'), TrialOnly);
  }

  /** `None`: a trial number occurs twice. */
  method SortBaselineComparisonTrials(results: seq<TrialResult>, leOrigin: Order) returns (r: Option<seq<TrialResult>>)
    requires Preorder(leOrigin)
    ensures r.Some? <==> UniqueTrials(results)
    ensures r.Some? ==> r.value == SortTrials(results, leOrigin)
  {
    var sorted := SortTrials(results, leOrigin);
    SortTrialsFacts(results, leOrigin);
    ghost var trials := Map(TrialOf, sorted);
    var seenTrials: set<int> := {};
    for i := 0 to |sorted|
      invariant seenTrials == SetOf(trials[..i])
      invariant Distinct(trials[..i])
    {
      var trial := sorted[i].trial;
      assert trials[..i + 1] == trials[..i] + [trial];
      if trial in seenTrials {
        ghost var k :| 0 <= k < i && trials[k] == trial;
        assert trials[k] == trials[i];
        return None;
      }
      seenTrials := seenTrials + {trial};
    }
    assert trials[..|sorted|] == trials;
    r := Some(sorted);
  }

  // ---------- Pairing ----------

  datatype Pairs = Pairs(key: Key, baseline: seq<TrialResult>, candidate: seq<TrialResult>)

  ghost predicate SameSlot(b: TrialResult, c: TrialResult) {
    b.key == c.key && b.trial == c.trial
  }

  ghost predicate Aligned(b: seq<TrialResult>, c: seq<TrialResult>) {
    |b| == |c| && forall i | 0 <= i < |b| :: b[i].trial == c[i].trial
  }

  ghost function PairUp(key: Key, baseline: seq<TrialResult>, candidate: seq<TrialResult>, leOrigin: Order)
    : Result<Pairs, Error>
  {
    var b, c := SortTrials(baseline, leOrigin), SortTrials(candidate, leOrigin);
    if !UniqueTrials(baseline) then Err(DuplicateTrial(BaselineSide, key))
    else if !UniqueTrials(candidate) then Err(DuplicateTrial(CandidateSide, key))
    else if |b| != |c| then Err(UnequalTrialCounts(key))
    else if !Aligned(b, c) then Err(MisalignedTrials(key))
    else Ok(Pairs(key, b, c))
  }

  ghost function PairAll(keys: seq<Key>, baseline: seq<TrialResult>, candidate: seq<TrialResult>, leOrigin: Order)
    : Result<seq<Pairs>, Error>
  {
    if keys == [] then Ok([])
    else
      var key := keys[|keys| - 1];
      match PairAll(keys[..|keys| - 1], baseline, candidate, leOrigin)
      case Err(e) => Err(e)
      case Ok(done) =>
        match PairUp(key, OfKey(baseline, key), OfKey(candidate, key), leOrigin)
        case Err(e) => Err(e)
        case Ok(pairs) => Ok(done + [pairs])
  }

  lemma {:induction false} FirstErrorStays(done: seq<Key>, rest: seq<Key>, baseline: seq<TrialResult>,
                                           candidate: seq<TrialResult>,
                                           leOrigin: Order)
    requires PairAll(done, baseline, candidate, leOrigin).Err?
    ensures PairAll(done + rest, baseline, candidate, leOrigin) == PairAll(done, baseline, candidate, leOrigin)
    decreases |rest|
  {
    if rest == [] {
      assert done + rest == done;
    } else {
      var init := rest[..|rest| - 1];
      FirstErrorStays(done, init, baseline, candidate, leOrigin);
      assert (done + rest)[..|done + rest| - 1] == done + init;
    }
  }

  /** What a successful pairing guarantees about one group. */
  ghost predicate Paired(p: Pairs, key: Key, baseline: seq<TrialResult>, candidate: seq<TrialResult>) {
    && p.key == key
    && Aligned(p.baseline, p.candidate)
    && multiset(p.baseline) == multiset(OfKey(baseline, key))
    && multiset(p.candidate) == multiset(OfKey(candidate, key))
  }

  lemma PairUpFacts(key: Key, baseline: seq<TrialResult>, candidate: seq<TrialResult>, leOrigin: Order)
    requires Preorder(leOrigin)
    ensures var r := PairUp(key, OfKey(baseline, key), OfKey(candidate, key), leOrigin);
            r.Ok? ==> Paired(r.value, key, baseline, candidate)
  {
    SortTrialsFacts(OfKey(baseline, key), leOrigin);
    SortTrialsFacts(OfKey(candidate, key), leOrigin);
  }

  ghost predicate AllPaired(ps: seq<Pairs>, keys: seq<Key>, baseline: seq<TrialResult>, candidate: seq<TrialResult>) {
    |ps| == |keys| && forall i | 0 <= i < |ps| :: Paired(ps[i], keys[i], baseline, candidate)
  }

  lemma {:induction false} PairAllFacts(keys: seq<Key>, baseline: seq<TrialResult>, candidate: seq<TrialResult>,
                                        leOrigin: Order)
    requires Preorder(leOrigin) && PairAll(keys, baseline, candidate, leOrigin).Ok?
    ensures AllPaired(PairAll(keys, baseline, candidate, leOrigin).value, keys, baseline, candidate)
  {
    if keys != [] {
      PairAllFacts(keys[..|keys| - 1], baseline, candidate, leOrigin);
      PairUpFacts(keys[|keys| - 1], baseline, candidate, leOrigin);
    }
  }

  // ---------- Scores ----------

  /** The share of the possible points, clamped to [0, 1]. */
  function Score(r: TrialResult): (score: real)
    ensures 0.0 <= score <= 1.0
  {
    if r.maxPossible <= 0.0 then 0.0
    else
      var score := r.total / r.maxPossible;
      if score < 0.0 then 0.0 else if score > 1.0 then 1.0 else score
  }

  /** `x` is the share of the possible points that `r` reached: none without points to reach or with a negative total,
      all at the possible total or beyond. */
  ghost predicate IsShare(r: TrialResult, x: real) {
    && (r.maxPossible <= 0.0 || r.total < 0.0 ==> x == 0.0)
    && (r.maxPossible > 0.0 && r.total >= r.maxPossible ==> x == 1.0)
    && (r.maxPossible > 0.0 && 0.0 <= r.total <= r.maxPossible ==> x * r.maxPossible == r.total)
  }

  lemma ScoreIsShare(r: TrialResult)
    ensures IsShare(r, Score(r))
  {
    if r.maxPossible > 0.0 {
      var score := r.total / r.maxPossible;
      assert score * r.maxPossible == r.total;
      if r.total < 0.0 {
        assert score < 0.0;
      } else if r.total >= r.maxPossible {
        assert (score - 1.0) * r.maxPossible == r.total - r.maxPossible;
        CancelPositive(score - 1.0, r.maxPossible);
      } else {
        CancelPositive(score, r.maxPossible);
        assert (1.0 - score) * r.maxPossible == r.maxPossible - r.total;
        CancelPositive(1.0 - score, r.maxPossible);
      }
    }
  }

  /** A result has one share. */
  lemma ShareUnique(r: TrialResult, x: real, y: real)
    requires IsShare(r, x) && IsShare(r, y)
    ensures x == y
  {
    if r.maxPossible > 0.0 && 0.0 <= r.total <= r.maxPossible {
      assert (x - y) * r.maxPossible == 0.0;
      CancelPositive(x - y, r.maxPossible);
      CancelPositive(y - x, r.maxPossible);
    }
  }

  function PassBit(r: TrialResult): (bit: real) { if r.ok then 1.0 else 0.0 }

  function IsOk(r: TrialResult): bool { r.ok }

  function Scores(s: seq<TrialResult>): seq<real> { Map(Score, s) }

  function PassBits(s: seq<TrialResult>): seq<real> { Map(PassBit, s) }

  function Rate(oks: seq<bool>): real {
    if oks == [] then 0.0 else PassedIn(oks) as real / |oks| as real
  }

  function Delta(b: seq<real>, c: seq<real>, n: Numerics): Summary
    requires |b| == |c| && 0.0 < n.confidence < 1.0 && n.iterations >= 100
  {
    BootstrapSummary(Differences(b, c), n.confidence, n.iterations, n.random)
  }

  function Wins(d: seq<real>): WinRate
  {
    CountsFit(d);
    WinRate(Positives(d), Negatives(d), |d| - Positives(d) - Negatives(d), |d|,
            if |d| == 0 then 0.0 else Positives(d) as real / |d| as real)
  }

  lemma {:induction false} CountsFit(d: seq<real>)
    ensures Positives(d) + Negatives(d) <= |d|
  {
    if d != [] {
      CountsFit(d[..|d| - 1]);
    }
  }

  function CaseVerdict(delta: Summary): Verdict {
    if delta.ci.lower > 0.0 && delta.mean >= 0.05 then Improved
    else if delta.ci.upper < 0.0 then Regressed
    else Inconclusive
  }

  function OverallVerdict(scoreDelta: Summary, passRateDelta: Summary): Verdict {
    if scoreDelta.ci.upper < 0.0 || passRateDelta.ci.upper < 0.0 then Regressed
    else if (scoreDelta.ci.lower > 0.0 && scoreDelta.mean >= 0.05) ||
            (passRateDelta.ci.lower > 0.0 && passRateDelta.mean >= 0.05)
    then Improved
    else Inconclusive
  }

  // ---------- The report ----------

  function CaseRow(p: Pairs, n: Numerics): PerCase
    requires |p.baseline| == |p.candidate| && 0.0 < n.confidence < 1.0 && n.iterations >= 100
  {
    var b, c := Scores(p.baseline), Scores(p.candidate);
    var scoreDelta := Delta(b, c, n);
    PerCase(p.key, Rate(Map(IsOk, p.baseline)), Rate(Map(IsOk, p.candidate)), Mean(b), Mean(c), scoreDelta,
            Delta(PassBits(p.baseline), PassBits(p.candidate), n), Wins(Differences(b, c)), CaseVerdict(scoreDelta))
  }

  ghost predicate EqualCounts(ps: seq<Pairs>) {
    forall i | 0 <= i < |ps| :: |ps[i].baseline| == |ps[i].candidate|
  }

  function Rows(ps: seq<Pairs>, n: Numerics): (rows: seq<PerCase>)
    requires EqualCounts(ps) && 0.0 < n.confidence < 1.0 && n.iterations >= 100
    ensures |rows| == |ps| && forall i | 0 <= i < |ps| :: rows[i] == CaseRow(ps[i], n)
  {
    if ps == [] then [] else Rows(ps[..|ps| - 1], n) + [CaseRow(ps[|ps| - 1], n)]
  }

  /** All paired trials of one side, group after group. */
  function BaselineTrials(ps: seq<Pairs>): seq<TrialResult> {
    if ps == [] then [] else BaselineTrials(ps[..|ps| - 1]) + ps[|ps| - 1].baseline
  }

  function CandidateTrials(ps: seq<Pairs>): seq<TrialResult> {
    if ps == [] then [] else CandidateTrials(ps[..|ps| - 1]) + ps[|ps| - 1].candidate
  }

  lemma {:induction false} TrialCounts(ps: seq<Pairs>)
    requires EqualCounts(ps)
    ensures |BaselineTrials(ps)| == |CandidateTrials(ps)|
  {
    if ps != [] {
      TrialCounts(ps[..|ps| - 1]);
    }
  }

  /** The overall line, from all pairs at once: its counts are not sums but a recount. */
  function OverallOf(b: seq<TrialResult>, c: seq<TrialResult>, n: Numerics): Overall
    requires |b| == |c| && 0.0 < n.confidence < 1.0 && n.iterations >= 100
  {
    var wins := Wins(Differences(Scores(b), Scores(c)));
    Overall(Mean(Scores(b)), Mean(Scores(c)), Rate(Map(IsOk, b)), Rate(Map(IsOk, c)), wins.wins, wins.losses, wins.ties,
            OverallVerdict(Delta(Scores(b), Scores(c), n), Delta(PassBits(b), PassBits(c), n)))
  }

  function ReportOf(ps: seq<Pairs>, n: Numerics): Report
    requires EqualCounts(ps) && 0.0 < n.confidence < 1.0 && n.iterations >= 100
  {
    TrialCounts(ps);
    Report(OverallOf(BaselineTrials(ps), CandidateTrials(ps), n), Rows(ps, n))
  }

  ghost function Compare(baseline: seq<TrialResult>, candidate: seq<TrialResult>, leId: Order,
                         leOrigin: Order, n: Numerics): Result<Report, Error>
    requires Preorder(leOrigin) && n.Valid()
  {
    var keys := MatchedKeys(baseline, candidate, leId);
    if keys == [] then Err(NoSharedGroup)
    else
      match PairAll(keys, baseline, candidate, leOrigin)
      case Err(e) => Err(e)
      case Ok(ps) =>
        PairAllFacts(keys, baseline, candidate, leOrigin);
        Ok(ReportOf(ps, n))
  }

  // ---------- The loops ----------

  lemma WinsStep(d: seq<real>, e: seq<real>)
    ensures Positives(d + e) == Positives(d) + Positives(e)
    ensures Negatives(d + e) == Negatives(d) + Negatives(e)
    decreases |e|
  {
    if e == [] {
      assert d + e == d;
    } else {
      var init := e[..|e| - 1];
      assert (d + e)[..|d + e| - 1] == d + init;
      WinsStep(d, init);
    }
  }

  lemma MapAppend<A, B>(f: A -> B, s: seq<A>, t: seq<A>)
    ensures Map(f, s + t) == Map(f, s) + Map(f, t)
  {
  }

  lemma DifferencesAppend(b: seq<real>, c: seq<real>, b': seq<real>, c': seq<real>)
    requires |b| == |c| && |b'| == |c'|
    ensures Differences(b + b', c + c') == Differences(b, c) + Differences(b', c')
  {
  }

  lemma ScoresAppend(b: seq<TrialResult>, c: seq<TrialResult>, b': seq<TrialResult>, c': seq<TrialResult>)
    requires |b| == |c| && |b'| == |c'|
    ensures Scores(b + b') == Scores(b) + Scores(b') && PassBits(b + b') == PassBits(b) + PassBits(b')
    ensures
      var d, d' := Differences(Scores(b), Scores(c)), Differences(Scores(b'), Scores(c'));
      && Positives(Differences(Scores(b + b'), Scores(c + c'))) == Positives(d) + Positives(d')
      && Negatives(Differences(Scores(b + b'), Scores(c + c'))) == Negatives(d) + Negatives(d')
  {
    MapAppend(Score, b, b');
    MapAppend(Score, c, c');
    MapAppend(PassBit, b, b');
    DifferencesAppend(Scores(b), Scores(c), Scores(b'), Scores(c'));
    WinsStep(Differences(Scores(b), Scores(c)), Differences(Scores(b'), Scores(c')));
  }

  method ComputeRate(oks: seq<bool>, n: Numerics) returns (rate: real)
    requires n.Valid()
    ensures rate == Rate(oks)
  {
    var summary := ComputePassRate(oks, n.z, n.sqrt);
    rate := summary.rate;
  }

  /** The bits are turned back into flags before they are counted. */
  method ComputePassRateFromBits(bits: seq<real>, ghost trials: seq<TrialResult>, n: Numerics) returns (rate: real)
    requires n.Valid() && bits == PassBits(trials)
    ensures rate == Rate(Map(IsOk, trials))
  {
    var oks := seq(|bits|, i requires 0 <= i < |bits| => bits[i] == 1.0);
    assert oks == Map(IsOk, trials);
    rate := ComputeRate(oks, n);
  }

  /** `None`: some trial numbers differ. */
  method CollectPairs(b: seq<TrialResult>, c: seq<TrialResult>)
    returns (aligned: bool, bScores: seq<real>, cScores: seq<real>, bBits: seq<real>, cBits: seq<real>)
    requires |b| == |c|
    ensures aligned <==> Aligned(b, c)
    ensures aligned ==> bScores == Scores(b) && cScores == Scores(c) && bBits == PassBits(b) && cBits == PassBits(c)
  {
    bScores, cScores, bBits, cBits := [], [], [], [];
    for i := 0 to |b|
      invariant Aligned(b[..i], c[..i])
      invariant bScores == Scores(b[..i]) && cScores == Scores(c[..i])
      invariant bBits == PassBits(b[..i]) && cBits == PassBits(c[..i])
    {
      if b[i].trial != c[i].trial {
        return false, bScores, cScores, bBits, cBits;
      }
      bScores, cScores := bScores + [Score(b[i])], cScores + [Score(c[i])];
      bBits, cBits := bBits + [PassBit(b[i])], cBits + [PassBit(c[i])];
    }
    assert b[..|b|] == b && c[..|c|] == c;
    aligned := true;
  }

  method CompareScores(b: seq<real>, c: seq<real>, n: Numerics) returns (delta: Summary)
    requires |b| == |c| && n.Valid()
    ensures delta == Delta(b, c, n)
  {
    var summary := BootstrapPairedCI(b, c, n.confidence, n.iterations, n.random);
    delta := summary.value;
  }

  method CompareCase(p: Pairs, bScores: seq<real>, cScores: seq<real>, bBits: seq<real>, cBits: seq<real>, n: Numerics)
    returns (row: PerCase)
    requires n.Valid() && |p.baseline| == |p.candidate|
    requires bScores == Scores(p.baseline) && cScores == Scores(p.candidate)
    requires bBits == PassBits(p.baseline) && cBits == PassBits(p.candidate)
    ensures row == CaseRow(p, n)
  {
    var scoreDelta := CompareScores(bScores, cScores, n);
    var passRateDelta := CompareScores(bBits, cBits, n);
    var winRate := ComputeWinRate(bScores, cScores);
    var baselinePassRate := ComputeRate(Map(IsOk, p.baseline), n);
    var candidatePassRate := ComputeRate(Map(IsOk, p.candidate), n);
    var baselineMean := ComputeMean(bScores);
    var candidateMean := ComputeMean(cScores);
    row := PerCase(p.key, baselinePassRate, candidatePassRate, baselineMean, candidateMean, scoreDelta, passRateDelta,
                   winRate.value,
                   CaseVerdict(scoreDelta));
  }

  /** One matched group: sort both sides, check them against each other, collect the pairs. */
  method PairGroup(key: Key, baseline: seq<TrialResult>, candidate: seq<TrialResult>, leOrigin: Order)
    returns (r: Result<Pairs, Error>, bScores: seq<real>, cScores: seq<real>, bBits: seq<real>, cBits: seq<real>)
    requires Preorder(leOrigin)
    ensures r == PairUp(key, baseline, candidate, leOrigin)
    ensures r.Ok? ==>
              && bScores == Scores(r.value.baseline) && cScores == Scores(r.value.candidate)
              && bBits == PassBits(r.value.baseline) && cBits == PassBits(r.value.candidate)
  {
    bScores, cScores, bBits, cBits := [], [], [], [];
    var b := SortBaselineComparisonTrials(baseline, leOrigin);
    if b.None? {
      return Err(DuplicateTrial(BaselineSide, key)), [], [], [], [];
    }
    var c := SortBaselineComparisonTrials(candidate, leOrigin);
    if c.None? {
      return Err(DuplicateTrial(CandidateSide, key)), [], [], [], [];
    }
    if |b.value| != |c.value| {
      return Err(UnequalTrialCounts(key)), [], [], [], [];
    }
    var aligned;
    aligned, bScores, cScores, bBits, cBits := CollectPairs(b.value, c.value);
    r := if aligned then Ok(Pairs(key, b.value, c.value)) else Err(MisalignedTrials(key));
  }

  datatype Group = Group(key: Key, baseline: seq<TrialResult>, candidate: seq<TrialResult>)

  ghost predicate GroupsOf(keys: seq<Key>, groups: seq<Group>, baseline: seq<TrialResult>,
                           candidate: seq<TrialResult>) {
    && |groups| == |keys|
    && forall i {:trigger groups[i]} | 0 <= i < |keys| ::
         groups[i] == Group(keys[i], OfKey(baseline, keys[i]), OfKey(candidate, keys[i]))
  }

  lemma GroupsStep(keys: seq<Key>, i: nat, groups: seq<Group>, baseline: seq<TrialResult>, candidate: seq<TrialResult>)
    requires i < |keys| && GroupsOf(keys[..i], groups, baseline, candidate)
    ensures GroupsOf(keys[..i + 1], groups + [Group(keys[i], OfKey(baseline, keys[i]), OfKey(candidate, keys[i]))],
                     baseline, candidate)
  {
  }

  lemma MatchedGrouped(baseline: seq<TrialResult>, candidate: seq<TrialResult>, leId: Order, i: nat,
                       bKeys: seq<Key>, b: map<Key, seq<TrialResult>>, cKeys: seq<Key>, c: map<Key, seq<TrialResult>>)
    requires i < |MatchedKeys(baseline, candidate, leId)|
    requires Grouped(bKeys, b, baseline) && Grouped(cKeys, c, candidate)
    ensures var k := MatchedKeys(baseline, candidate, leId)[i];
            k in b && k in c && b[k] == OfKey(baseline, k) && c[k] == OfKey(candidate, k)
  {
    var k := MatchedKeys(baseline, candidate, leId)[i];
    MatchedFacts(baseline, candidate, leId);
    assert k in MatchedKeys(baseline, candidate, leId);
    GroupedAt(bKeys, b, baseline, k);
    GroupedAt(cKeys, c, candidate, k);
  }

  method FindCommon(keys: seq<Key>, ghost cKeys: seq<Key>, c: map<Key, seq<TrialResult>>,
                    ghost candidate: seq<TrialResult>)
    returns (matched: seq<Key>)
    requires Grouped(cKeys, c, candidate)
    ensures matched == Common(keys, candidate)
  {
    matched := [];
    for i := 0 to |keys|
      invariant matched == Common(keys[..i], candidate)
    {
      assert keys[..i + 1][..i] == keys[..i];
      GroupedAt(cKeys, c, candidate, keys[i]);
      if keys[i] in c {
        matched := matched + [keys[i]];
      }
    }
    assert keys[..|keys|] == keys;
  }

  /** The groups both runs have, sorted by key, each with its counterpart. */
  method MatchGroups(baseline: seq<TrialResult>, candidate: seq<TrialResult>, leId: Order)
    returns (groups: seq<Group>)
    ensures GroupsOf(MatchedKeys(baseline, candidate, leId), groups, baseline, candidate)
  {
    var bKeys, b := GroupResults(baseline);
    var cKeys, c := GroupResults(candidate);
    var matched := FindCommon(bKeys, cKeys, c, candidate);
    var keys := Sort(matched, ByKey(leId));
    assert keys == MatchedKeys(baseline, candidate, leId);
    groups := [];
    for i := 0 to |keys|
      invariant GroupsOf(keys[..i], groups, baseline, candidate)
    {
      MatchedGrouped(baseline, candidate, leId, i, bKeys, b, cKeys, c);
      GroupsStep(keys, i, groups, baseline, candidate);
      groups := groups + [Group(keys[i], b[keys[i]], c[keys[i]])];
    }
    assert keys[..|keys|] == keys;
  }

  /** Scores, pass bits and win counts of the groups done so far. */
  datatype Running = Running(
    bScores: seq<real>, cScores: seq<real>, bBits: seq<real>, cBits: seq<real>, wins: nat, losses: nat, ties: nat)

  ghost predicate RunningFits(run: Running, b: seq<TrialResult>, c: seq<TrialResult>) {
    && |b| == |c|
    && run.bScores == Scores(b) && run.cScores == Scores(c) && run.bBits == PassBits(b) && run.cBits == PassBits(c)
    && run.wins == Positives(Differences(Scores(b), Scores(c)))
    && run.losses == Negatives(Differences(Scores(b), Scores(c)))
    && run.wins + run.losses + run.ties == |b|
  }

  function Grow(run: Running, bScores: seq<real>, cScores: seq<real>, bBits: seq<real>, cBits: seq<real>,
                won: WinRate): Running {
    Running(run.bScores + bScores, run.cScores + cScores, run.bBits + bBits, run.cBits + cBits,
            run.wins + won.wins, run.losses + won.losses, run.ties + won.ties)
  }

  lemma RunningGrows(run: Running, b: seq<TrialResult>, c: seq<TrialResult>, b': seq<TrialResult>, c': seq<TrialResult>)
    requires RunningFits(run, b, c) && |b'| == |c'|
    ensures RunningFits(Grow(run, Scores(b'), Scores(c'), PassBits(b'), PassBits(c'),
                             Wins(Differences(Scores(b'), Scores(c')))),
                        b + b', c + c')
  {
    ScoresAppend(b, c, b', c');
    MapAppend(Score, c, c');
    MapAppend(PassBit, c, c');
  }

  method Summarize(run: Running, ghost b: seq<TrialResult>, ghost c: seq<TrialResult>, n: Numerics)
    returns (overall: Overall)
    requires n.Valid() && RunningFits(run, b, c)
    ensures overall == OverallOf(b, c, n)
  {
    var scoreDelta := CompareScores(run.bScores, run.cScores, n);
    var passRateDelta := CompareScores(run.bBits, run.cBits, n);
    var baselineMean := ComputeMean(run.bScores);
    var candidateMean := ComputeMean(run.cScores);
    var baselineRate := ComputePassRateFromBits(run.bBits, b, n);
    var candidateRate := ComputePassRateFromBits(run.cBits, c, n);
    overall := Overall(baselineMean, candidateMean, baselineRate, candidateRate, run.wins, run.losses, run.ties,
                       OverallVerdict(scoreDelta, passRateDelta));
  }

  /** The loop's state after the groups `keys`. */
  ghost predicate Progress(keys: seq<Key>, ps: seq<Pairs>, perCase: seq<PerCase>, run: Running,
                           baseline: seq<TrialResult>,
                           candidate: seq<TrialResult>, leOrigin: Order, n: Numerics) {
    && PairAll(keys, baseline, candidate, leOrigin) == Ok(ps)
    && EqualCounts(ps) && 0.0 < n.confidence < 1.0 && n.iterations >= 100
    && perCase == Rows(ps, n)
    && RunningFits(run, BaselineTrials(ps), CandidateTrials(ps))
  }

  lemma PairAllStep(keys: seq<Key>, key: Key, baseline: seq<TrialResult>, candidate: seq<TrialResult>, leOrigin: Order)
    requires PairAll(keys, baseline, candidate, leOrigin).Ok?
    ensures PairAll(keys + [key], baseline, candidate, leOrigin) ==
            match PairUp(key, OfKey(baseline, key), OfKey(candidate, key), leOrigin)
            case Err(e) => Err(e)
            case Ok(p) => Ok(PairAll(keys, baseline, candidate, leOrigin).value + [p])
  {
    assert (keys + [key])[..|keys|] == keys;
  }

  lemma FirstErrorAt(init: seq<Key>, key: Key, rest: seq<Key>, baseline: seq<TrialResult>, candidate: seq<TrialResult>,
                     leOrigin: Order)
    requires PairAll(init, baseline, candidate, leOrigin).Ok?
    requires PairUp(key, OfKey(baseline, key), OfKey(candidate, key), leOrigin).Err?
    ensures PairAll(init + [key] + rest, baseline, candidate, leOrigin) ==
            Err(PairUp(key, OfKey(baseline, key), OfKey(candidate, key), leOrigin).error)
  {
    PairAllStep(init, key, baseline, candidate, leOrigin);
    FirstErrorStays(init + [key], rest, baseline, candidate, leOrigin);
  }

  lemma SplitAt<T>(s: seq<T>, i: nat)
    requires i < |s|
    ensures s[..i] + [s[i]] + s[i + 1..] == s
  {
  }

  lemma FirstError(keys: seq<Key>, i: nat, baseline: seq<TrialResult>, candidate: seq<TrialResult>, leOrigin: Order)
    requires i < |keys| && PairAll(keys[..i], baseline, candidate, leOrigin).Ok?
    requires PairUp(keys[i], OfKey(baseline, keys[i]), OfKey(candidate, keys[i]), leOrigin).Err?
    ensures PairAll(keys, baseline, candidate, leOrigin) ==
            Err(PairUp(keys[i], OfKey(baseline, keys[i]), OfKey(candidate, keys[i]), leOrigin).error)
  {
    SplitAt(keys, i);
    FirstErrorAt(keys[..i], keys[i], keys[i + 1..], baseline, candidate, leOrigin);
  }

  lemma RowsStep(ps: seq<Pairs>, p: Pairs, n: Numerics)
    requires EqualCounts(ps) && |p.baseline| == |p.candidate| && 0.0 < n.confidence < 1.0 && n.iterations >= 100
    ensures EqualCounts(ps + [p]) && Rows(ps + [p], n) == Rows(ps, n) + [CaseRow(p, n)]
  {
    assert (ps + [p])[..|ps|] == ps;
  }

  lemma TrialsStep(ps: seq<Pairs>, p: Pairs)
    ensures BaselineTrials(ps + [p]) == BaselineTrials(ps) + p.baseline
    ensures CandidateTrials(ps + [p]) == CandidateTrials(ps) + p.candidate
  {
    assert (ps + [p])[..|ps|] == ps;
  }

  function Grown(run: Running, p: Pairs): Running
    requires |p.baseline| == |p.candidate|
  {
    Grow(run, Scores(p.baseline), Scores(p.candidate), PassBits(p.baseline), PassBits(p.candidate),
         Wins(Differences(Scores(p.baseline), Scores(p.candidate))))
  }

  lemma GrownFits(run: Running, ps: seq<Pairs>, p: Pairs)
    requires RunningFits(run, BaselineTrials(ps), CandidateTrials(ps)) && |p.baseline| == |p.candidate|
    ensures RunningFits(Grown(run, p), BaselineTrials(ps + [p]), CandidateTrials(ps + [p]))
  {
    TrialsStep(ps, p);
    RunningGrows(run, BaselineTrials(ps), CandidateTrials(ps), p.baseline, p.candidate);
  }

  lemma ProgressStep(keys: seq<Key>, p: Pairs, ps: seq<Pairs>, perCase: seq<PerCase>, run: Running,
                     baseline: seq<TrialResult>,
                     candidate: seq<TrialResult>, leOrigin: Order, n: Numerics)
    requires Progress(keys, ps, perCase, run, baseline, candidate, leOrigin, n)
    requires PairUp(p.key, OfKey(baseline, p.key), OfKey(candidate, p.key), leOrigin) == Ok(p)
    requires |p.baseline| == |p.candidate|
    ensures Progress(keys + [p.key], ps + [p], perCase + [CaseRow(p, n)], Grown(run, p), baseline, candidate,
                     leOrigin, n)
  {
    PairAllStep(keys, p.key, baseline, candidate, leOrigin);
    RowsStep(ps, p, n);
    GrownFits(run, ps, p);
  }

  datatype Compared = Compared(pairs: Pairs, row: PerCase, run: Running)

  /** One group: its row and what it adds to the running lists and counts. */
  method CompareGroup(key: Key, baseline: seq<TrialResult>, candidate: seq<TrialResult>, leOrigin: Order, n: Numerics,
                      run: Running)
    returns (r: Result<Compared, Error>)
    requires Preorder(leOrigin) && n.Valid()
    ensures r.Err? ==> PairUp(key, baseline, candidate, leOrigin) == Err(r.error)
    ensures r.Ok? ==>
              && PairUp(key, baseline, candidate, leOrigin) == Ok(r.value.pairs)
              && r.value.pairs.key == key && |r.value.pairs.baseline| == |r.value.pairs.candidate|
              && r.value.row == CaseRow(r.value.pairs, n)
              && r.value.run == Grown(run, r.value.pairs)
  {
    var pairs, bScores, cScores, bBits, cBits := PairGroup(key, baseline, candidate, leOrigin);
    if pairs.Err? {
      return Err(pairs.error);
    }
    var row := CompareCase(pairs.value, bScores, cScores, bBits, cBits, n);
    r := Ok(Compared(pairs.value, row, Grow(run, bScores, cScores, bBits, cBits, row.winRate)));
  }

  method NoGroupYet(ghost keys: seq<Key>, ghost baseline: seq<TrialResult>, ghost candidate: seq<TrialResult>,
                    ghost leOrigin: Order, ghost n: Numerics)
    returns (done: Done, ghost ps: seq<Pairs>)
    requires keys == [] && n.Valid()
    ensures Progress(keys, ps, done.perCase, done.run, baseline, candidate, leOrigin, n)
  {
    done, ps := Done([], Running([], [], [], [], 0, 0, 0)), [];
  }

  datatype Done = Done(perCase: seq<PerCase>, run: Running)

  /** One round of the loop. */
  method CompareNext(group: Group, leOrigin: Order, n: Numerics, done: Done, ghost keys: seq<Key>, ghost i: nat,
                     ghost ps: seq<Pairs>, ghost baseline: seq<TrialResult>, ghost candidate: seq<TrialResult>)
    returns (r: Result<Done, Error>, ghost qs: seq<Pairs>)
    requires Preorder(leOrigin) && n.Valid() && i < |keys|
    requires group == Group(keys[i], OfKey(baseline, keys[i]), OfKey(candidate, keys[i]))
    requires Progress(keys[..i], ps, done.perCase, done.run, baseline, candidate, leOrigin, n)
    ensures r.Err? ==> PairAll(keys, baseline, candidate, leOrigin) == Err(r.error)
    ensures r.Ok? ==> Progress(keys[..i + 1], qs, r.value.perCase, r.value.run, baseline, candidate, leOrigin, n)
  {
    qs := ps;
    var compared := CompareGroup(group.key, group.baseline, group.candidate, leOrigin, n, done.run);
    if compared.Err? {
      FirstError(keys, i, baseline, candidate, leOrigin);
      return Err(compared.error), ps;
    }
    ProgressStep(keys[..i], compared.value.pairs, ps, done.perCase, done.run, baseline, candidate, leOrigin, n);
    assert keys[..i + 1] == keys[..i] + [keys[i]];
    r, qs := Ok(Done(done.perCase + [compared.value.row], compared.value.run)), ps + [compared.value.pairs];
  }

  method CompareGroups(groups: seq<Group>, leOrigin: Order, n: Numerics, ghost keys: seq<Key>,
                       ghost baseline: seq<TrialResult>, ghost candidate: seq<TrialResult>)
    returns (r: Result<Done, Error>, ghost ps: seq<Pairs>)
    requires Preorder(leOrigin) && n.Valid() && GroupsOf(keys, groups, baseline, candidate)
    ensures r.Err? ==> PairAll(keys, baseline, candidate, leOrigin) == Err(r.error)
    ensures r.Ok? ==> Progress(keys, ps, r.value.perCase, r.value.run, baseline, candidate, leOrigin, n)
  {
    var done;
    done, ps := NoGroupYet(keys[..0], baseline, candidate, leOrigin, n);
    for i := 0 to |groups|
      invariant Progress(keys[..i], ps, done.perCase, done.run, baseline, candidate, leOrigin, n)
    {
      var next;
      next, ps := CompareNext(groups[i], leOrigin, n, done, keys, i, ps, baseline, candidate);
      if next.Err? {
        return next, ps;
      }
      done := next.value;
    }
    assert keys[..|keys|] == keys;
    r := Ok(done);
  }

  /** The whole comparison; the first group that cannot be paired decides the error. */
  method BuildBaselineComparison(baseline: seq<TrialResult>, candidate: seq<TrialResult>, leId: Order,
                                 leOrigin: Order, n: Numerics)
    returns (r: Result<Report, Error>)
    requires Preorder(leOrigin) && n.Valid()
    ensures r == Compare(baseline, candidate, leId, leOrigin, n)
  {
    var groups := MatchGroups(baseline, candidate, leId);
    if |groups| == 0 {
      return Err(NoSharedGroup);
    }
    var compared; ghost var ps;
    compared, ps := CompareGroups(groups, leOrigin, n, MatchedKeys(baseline, candidate, leId), baseline, candidate);
    if compared.Err? {
      return Err(compared.error);
    }
    var overall := Summarize(compared.value.run, BaselineTrials(ps), CandidateTrials(ps), n);
    r := Ok(Report(overall, compared.value.perCase));
  }
}
