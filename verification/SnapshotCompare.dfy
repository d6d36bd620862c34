/** Comparing a run's token totals with the stored ones. */
module SnapshotCompare {
  import opened Collections
  import opened Sorting
  import opened SnapshotStore

  datatype Comparable = Comparable(key: SnapshotKey, totalTokens: nat)

  datatype Outcome = New | Orphaned | Unchanged | Improved | Regressed

  datatype CheckCase = CheckCase(key: SnapshotKey, outcome: Outcome, currentTotalTokens: Option<nat>,
                                 snapshotTotalTokens: Option<nat>, deltaTokens: Option<int>, deltaPercent: Option<real>)

  datatype Summary = Summary(total: nat, added: nat, orphaned: nat, same: nat, improved: nat, regressed: nat)

  datatype Report = Report(threshold: real, cases: seq<CheckCase>, summary: Summary)

  datatype CompareError = DuplicateRecordKey(key: SnapshotKey)

  ghost predicate DistinctRecords(records: seq<Comparable>) {
    forall i, j | 0 <= i < j < |records| :: records[i].key != records[j].key
  }

  function TotalsOf(records: seq<Comparable>): map<SnapshotKey, nat> {
    if records == [] then map[]
    else TotalsOf(records[..|records| - 1])[records[|records| - 1].key := records[|records| - 1].totalTokens]
  }

  lemma {:induction false} TotalsFacts(records: seq<Comparable>)
    ensures forall k :: k in TotalsOf(records) <==> exists r :: r in records && r.key == k
    ensures DistinctRecords(records) ==> forall r | r in records :: TotalsOf(records)[r.key] == r.totalTokens
  {
    if records != [] {
      var init, last := records[..|records| - 1], records[|records| - 1];
      assert records == init + [last];
      TotalsFacts(init);
    }
  }

  /** Up to `i` the keys are distinct, and the next is new exactly if they stay so. */
  lemma KeySeenIff(records: seq<Comparable>, i: nat)
    requires i < |records| && DistinctRecords(records[..i])
    ensures records[i].key in TotalsOf(records[..i]) ==> !DistinctRecords(records)
    ensures records[i].key !in TotalsOf(records[..i]) ==> DistinctRecords(records[..i + 1])
  {
    TotalsFacts(records[..i]);
    if records[i].key in TotalsOf(records[..i]) {
      var other :| other in records[..i] && other.key == records[i].key;
      var j :| 0 <= j < i && records[j] == other;
    } else {
      forall j | 0 <= j < i
        ensures records[j].key != records[i].key
      {
        assert records[j] in records[..i];
      }
    }
  }

  method CreateRecordMap(records: seq<Comparable>) returns (r: Result<map<SnapshotKey, nat>, CompareError>)
    ensures r.Ok? <==> DistinctRecords(records)
    ensures r.Ok? ==> r.value == TotalsOf(records)
  {
    var totals: map<SnapshotKey, nat> := map[];
    for i := 0 to |records|
      invariant DistinctRecords(records[..i]) && totals == TotalsOf(records[..i])
    {
      assert records[..i + 1][..i] == records[..i];
      KeySeenIff(records, i);
      if records[i].key in totals {
        return Err(DuplicateRecordKey(records[i].key));
      }
      totals := totals[records[i].key := records[i].totalTokens];
    }
    assert records[..|records|] == records;
    r := Ok(totals);
  }

  /** The case of a key that at least one side has. */
  function Classify(key: SnapshotKey, current: Option<nat>, snapshot: Option<nat>, threshold: real): CheckCase
    requires current.Some? || snapshot.Some?
  {
    if current.None? then CheckCase(key, Orphaned, None, snapshot, None, None)
    else if snapshot.None? then CheckCase(key, New, current, None, None, None)
    else
      var delta := current.value - snapshot.value;
      var percent := if snapshot.value > 0 then Some(delta as real / snapshot.value as real * 100.0) else None;
      var ceiling := snapshot.value as real * (1.0 + threshold / 100.0);
      var outcome := if current.value < snapshot.value then Improved
                     else if current.value as real > ceiling then Regressed
                     else Unchanged;
      CheckCase(key, outcome, current, snapshot, Some(delta), percent)
  }

  function Lookup(totals: map<SnapshotKey, nat>, key: SnapshotKey): Option<nat> {
    if key in totals then Some(totals[key]) else None
  }

  function CasesFor(keys: seq<SnapshotKey>, current: map<SnapshotKey, nat>, snapshot: map<SnapshotKey, nat>,
                    threshold: real): (cases: seq<CheckCase>)
    requires forall k | k in keys :: k in current || k in snapshot
    ensures |cases| == |keys|
    ensures forall i | 0 <= i < |keys| ::
              cases[i] == Classify(keys[i], Lookup(current, keys[i]), Lookup(snapshot, keys[i]), threshold)
  {
    seq(|keys|, i requires 0 <= i < |keys| =>
      Classify(keys[i], Lookup(current, keys[i]), Lookup(snapshot, keys[i]), threshold))
  }

  function CountOf(cases: seq<CheckCase>, outcome: Outcome): nat {
    if cases == [] then 0
    else CountOf(cases[..|cases| - 1], outcome) + if cases[|cases| - 1].outcome == outcome then 1 else 0
  }

  function SummaryOf(cases: seq<CheckCase>): Summary {
    Summary(|cases|, CountOf(cases, New), CountOf(cases, Orphaned), CountOf(cases, Unchanged),
            CountOf(cases, Improved), CountOf(cases, Regressed))
  }

  /** One pass over the cases, incrementing the total and the counter the outcome names. */
  method Summarize(cases: seq<CheckCase>) returns (s: Summary)
    ensures s == SummaryOf(cases)
  {
    s := Summary(0, 0, 0, 0, 0, 0);
    for i := 0 to |cases|
      invariant s == SummaryOf(cases[..i])
    {
      assert cases[..i + 1][..i] == cases[..i];
      s := s.(total := s.total + 1);
      match cases[i].outcome
      case New => s := s.(added := s.added + 1);
      case Orphaned => s := s.(orphaned := s.orphaned + 1);
      case Unchanged => s := s.(same := s.same + 1);
      case Improved => s := s.(improved := s.improved + 1);
      case Regressed => s := s.(regressed := s.regressed + 1);
    }
    assert cases[..|cases|] == cases;
  }

  /** The keys of one side, then the other side's keys not among them. */
  method UnionKeys(current: seq<Comparable>, snapshot: seq<Comparable>, a: map<SnapshotKey, nat>, b: map<SnapshotKey,
                   nat>)
    returns (keys: seq<SnapshotKey>)
    requires a == TotalsOf(current) && b == TotalsOf(snapshot)
    ensures Distinct(keys) && forall k :: k in keys <==> k in a || k in b
  {
    keys := [];
    for i := 0 to |current|
      invariant Distinct(keys) && forall k :: k in keys <==> exists r :: r in current[..i] && r.key == k
    {
      assert current[..i + 1] == current[..i] + [current[i]];
      if current[i].key !in keys {
        keys := keys + [current[i].key];
      }
    }
    assert current[..|current|] == current;
    TotalsFacts(current);
    for i := 0 to |snapshot|
      invariant Distinct(keys) && forall k :: k in keys <==> k in a || exists r :: r in snapshot[..i] && r.key == k
    {
      assert snapshot[..i + 1] == snapshot[..i] + [snapshot[i]];
      if snapshot[i].key !in keys {
        keys := keys + [snapshot[i].key];
      }
    }
    assert snapshot[..|snapshot|] == snapshot;
    TotalsFacts(snapshot);
  }

  /** The cases of a report are exactly the classified union of keys, each once. */
  ghost predicate IsComparison(report: Report, current: map<SnapshotKey, nat>, snapshot: map<SnapshotKey, nat>,
                               threshold: real)
  {
    && report.threshold == threshold
    && report.summary == SummaryOf(report.cases)
    && (forall i, j | 0 <= i < j < |report.cases| :: report.cases[i].key != report.cases[j].key)
    && (forall i | 0 <= i < |report.cases| :: IsCaseOf(report.cases[i], current, snapshot, threshold))
    && (forall k | k in current || k in snapshot :: exists c :: c in report.cases && c.key == k)
  }

  ghost predicate IsCaseOf(c: CheckCase, current: map<SnapshotKey, nat>, snapshot: map<SnapshotKey, nat>,
                           threshold: real) {
    && (c.key in current || c.key in snapshot)
    && c == Classify(c.key, Lookup(current, c.key), Lookup(snapshot, c.key), threshold)
  }

  method CompareSnapshotRecords(current: seq<Comparable>, snapshot: seq<Comparable>, threshold: real,
                                le: (SnapshotKey, SnapshotKey) -> bool)
    returns (r: Result<Report, CompareError>)
    requires threshold >= 0.0
    ensures r.Ok? <==> DistinctRecords(current) && DistinctRecords(snapshot)
    ensures r.Ok? ==> IsComparison(r.value, TotalsOf(current), TotalsOf(snapshot), threshold)
    ensures r.Ok? && TotalOrder(le) ==>
              Sorted(Map(KeyOfCase, r.value.cases), le)
  {
    var a := CreateRecordMap(current);
    if a.Err? {
      return Err(a.error);
    }
    var b := CreateRecordMap(snapshot);
    if b.Err? {
      return Err(b.error);
    }
    var keys := UnionKeys(current, snapshot, a.value, b.value);
    var sorted := Sort(keys, le);
    SortedKeysFacts(keys, le);
    var cases := CasesFor(sorted, a.value, b.value, threshold);
    var summary := Summarize(cases);
    CasesCover(sorted, a.value, b.value, threshold, cases);
    r := Ok(Report(threshold, cases, summary));
    if TotalOrder(le) {
      SortSorted(keys, le);
      assert Map(KeyOfCase, cases) == sorted;
    }
  }

  lemma CasesCover(keys: seq<SnapshotKey>, current: map<SnapshotKey, nat>, snapshot: map<SnapshotKey, nat>,
                   threshold: real, cases: seq<CheckCase>)
    requires Distinct(keys) && forall k :: k in keys <==> k in current || k in snapshot
    requires cases == CasesFor(keys, current, snapshot, threshold)
    ensures IsComparison(Report(threshold, cases, SummaryOf(cases)), current, snapshot, threshold)
  {
    forall i | 0 <= i < |cases|
      ensures cases[i].key == keys[i] && IsCaseOf(cases[i], current, snapshot, threshold)
    {
      assert keys[i] in keys;
    }
    forall k | k in current || k in snapshot
      ensures exists c :: c in cases && c.key == k
    {
      var i :| 0 <= i < |keys| && keys[i] == k;
      assert cases[i] in cases && cases[i].key == k;
    }
  }

  // ---------- Theorems ----------

  lemma {:induction false} CountsAddUp(cases: seq<CheckCase>)
    ensures
      var s := SummaryOf(cases);
      s.total == s.added + s.orphaned + s.same + s.improved + s.regressed
  {
    if cases != [] {
      CountsAddUp(cases[..|cases| - 1]);
    }
  }

  /** A larger threshold never turns a case into a regression, and changes no other outcome than regressed to
      unchanged. */
  lemma ThresholdMonotone(key: SnapshotKey, current: Option<nat>, snapshot: Option<nat>, low: real, high: real)
    requires (current.Some? || snapshot.Some?) && 0.0 <= low <= high
    ensures
      var a, b := Classify(key, current, snapshot, low), Classify(key, current, snapshot, high);
      && (b.outcome == Regressed ==> a.outcome == Regressed)
      && (a.outcome != Regressed ==> b == a)
      && (a.outcome == Regressed && b.outcome != Regressed ==> b == a.(outcome := Unchanged))
  {
    if current.Some? && snapshot.Some? {
      ScaleMonotone(snapshot.value as real, 1.0 + low / 100.0, 1.0 + high / 100.0);
    }
  }

  // ---------- Counts of a whole report ----------

  function KeyOfCase(c: CheckCase): SnapshotKey {
    c.key
  }

  function OutcomeOf(c: CheckCase): Outcome {
    c.outcome
  }

  lemma {:induction false} CountIsMultiplicity(cases: seq<CheckCase>, outcome: Outcome)
    ensures CountOf(cases, outcome) == multiset(Map(OutcomeOf, cases))[outcome]
  {
    if cases != [] {
      var init, last := cases[..|cases| - 1], cases[|cases| - 1];
      CountIsMultiplicity(init, outcome);
      assert Map(OutcomeOf, cases) == Map(OutcomeOf, init) + [last.outcome];
    }
  }

  /** The outcome of a key that one side has at least. */
  function OutcomeAt(current: map<SnapshotKey, nat>, snapshot: map<SnapshotKey, nat>,
                     threshold: real): SnapshotKey -> Outcome {
    (k: SnapshotKey) =>
      if k in current || k in snapshot then Classify(k, Lookup(current, k), Lookup(snapshot, k), threshold).outcome
      else Unchanged
  }

  lemma CaseOutcome(report: Report, current: map<SnapshotKey, nat>, snapshot: map<SnapshotKey, nat>, threshold: real,
                    i: nat)
    requires IsComparison(report, current, snapshot, threshold) && i < |report.cases|
    ensures report.cases[i].key in current || report.cases[i].key in snapshot
    ensures report.cases[i].outcome == OutcomeAt(current, snapshot, threshold)(report.cases[i].key)
  {
    assert IsCaseOf(report.cases[i], current, snapshot, threshold);
  }

  lemma KeyOfMember(cases: seq<CheckCase>, c: CheckCase)
    requires c in cases
    ensures c.key in Map(KeyOfCase, cases)
  {
    var i :| 0 <= i < |cases| && cases[i] == c;
    assert Map(KeyOfCase, cases)[i] == c.key;
  }

  /** A report lists each key of either side once. */
  lemma ReportKeys(report: Report, current: map<SnapshotKey, nat>, snapshot: map<SnapshotKey, nat>, threshold: real)
    requires IsComparison(report, current, snapshot, threshold)
    ensures Distinct(Map(KeyOfCase, report.cases))
    ensures forall k :: k in Map(KeyOfCase, report.cases) <==> k in current || k in snapshot
  {
    var keys := Map(KeyOfCase, report.cases);
    forall k | k in keys
      ensures k in current || k in snapshot
    {
      var i :| 0 <= i < |keys| && keys[i] == k;
      CaseOutcome(report, current, snapshot, threshold, i);
    }
    forall k | k in current || k in snapshot
      ensures k in keys
    {
      var c :| c in report.cases && c.key == k;
      KeyOfMember(report.cases, c);
    }
  }

  lemma ReportOutcomes(report: Report, current: map<SnapshotKey, nat>, snapshot: map<SnapshotKey, nat>,
                       threshold: real)
    requires IsComparison(report, current, snapshot, threshold)
    ensures Map(OutcomeOf, report.cases) == Map(OutcomeAt(current, snapshot, threshold), Map(KeyOfCase, report.cases))
  {
    forall i | 0 <= i < |report.cases|
      ensures Map(OutcomeOf, report.cases)[i] ==
              Map(OutcomeAt(current, snapshot, threshold), Map(KeyOfCase, report.cases))[i]
    {
      CaseOutcome(report, current, snapshot, threshold, i);
    }
  }

  /** The counts of a report are those of its keys in any order. */
  lemma CountsByKey(report: Report, current: map<SnapshotKey, nat>, snapshot: map<SnapshotKey, nat>, threshold: real,
                    keys: seq<SnapshotKey>, outcome: Outcome)
    requires IsComparison(report, current, snapshot, threshold)
    requires Distinct(keys) && forall k :: k in keys <==> k in current || k in snapshot
    ensures CountOf(report.cases, outcome) == multiset(Map(OutcomeAt(current, snapshot, threshold), keys))[outcome]
    ensures |report.cases| == |keys|
  {
    var own := Map(KeyOfCase, report.cases);
    ReportKeys(report, current, snapshot, threshold);
    ReportOutcomes(report, current, snapshot, threshold);
    DistinctSameMembers(own, keys);
    Permuted(own, keys);
    MapPermutes(OutcomeAt(current, snapshot, threshold), own, keys);
    CountIsMultiplicity(report.cases, outcome);
  }

  ghost predicate ThresholdStep(low: Outcome, high: Outcome) {
    high == low || (low == Regressed && high == Unchanged)
  }

  lemma {:induction false} StepCounts(low: seq<Outcome>, high: seq<Outcome>, outcome: Outcome)
    requires |low| == |high| && forall i | 0 <= i < |low| :: ThresholdStep(low[i], high[i])
    ensures multiset(high)[Regressed] <= multiset(low)[Regressed]
    ensures outcome != Regressed && outcome != Unchanged ==> multiset(high)[outcome] == multiset(low)[outcome]
  {
    if low != [] {
      StepCounts(low[1..], high[1..], outcome);
      assert low == [low[0]] + low[1..] && high == [high[0]] + high[1..];
    }
  }

  lemma CountsShrink(a: Report, b: Report, current: map<SnapshotKey, nat>, snapshot: map<SnapshotKey, nat>,
                     low: real, high: real, outcome: Outcome)
    requires IsComparison(a, current, snapshot, low) && IsComparison(b, current, snapshot, high) && 0.0 <= low <= high
    ensures |a.cases| == |b.cases| && CountOf(b.cases, Regressed) <= CountOf(a.cases, Regressed)
    ensures outcome != Regressed && outcome != Unchanged ==> CountOf(b.cases, outcome) == CountOf(a.cases, outcome)
  {
    var keys := Map(KeyOfCase, a.cases);
    var f, g := OutcomeAt(current, snapshot, low), OutcomeAt(current, snapshot, high);
    ReportKeys(a, current, snapshot, low);
    forall i | 0 <= i < |keys|
      ensures ThresholdStep(Map(f, keys)[i], Map(g, keys)[i])
    {
      if keys[i] in current || keys[i] in snapshot {
        ThresholdMonotone(keys[i], Lookup(current, keys[i]), Lookup(snapshot, keys[i]), low, high);
      }
    }
    StepCounts(Map(f, keys), Map(g, keys), outcome);
    CountsByKey(a, current, snapshot, low, keys, Regressed);
    CountsByKey(b, current, snapshot, high, keys, Regressed);
    CountsByKey(a, current, snapshot, low, keys, outcome);
    CountsByKey(b, current, snapshot, high, keys, outcome);
  }

  /** Of two reports on the same records, the one with the larger threshold has no more regressions; what it has less
      of them is unchanged, and every other count is the same. */
  lemma RegressionsShrink(a: Report, b: Report, current: map<SnapshotKey, nat>, snapshot: map<SnapshotKey, nat>,
                          low: real, high: real)
    requires IsComparison(a, current, snapshot, low) && IsComparison(b, current, snapshot, high) && 0.0 <= low <= high
    ensures b.summary.regressed <= a.summary.regressed
    ensures b.summary.regressed + b.summary.same == a.summary.regressed + a.summary.same
    ensures a.summary.total == b.summary.total && a.summary.added == b.summary.added
    ensures a.summary.orphaned == b.summary.orphaned && a.summary.improved == b.summary.improved
  {
    CountsShrink(a, b, current, snapshot, low, high, New);
    CountsShrink(a, b, current, snapshot, low, high, Orphaned);
    CountsShrink(a, b, current, snapshot, low, high, Improved);
    CountsAddUp(a.cases);
    CountsAddUp(b.cases);
  }

  lemma ScaleMonotone(x: real, a: real, b: real)
    requires x >= 0.0 && a <= b
    ensures x * a <= x * b
  {
    assert x * b - x * a == x * (b - a);
  }

  /** A regression is exactly a reported percentage above the threshold; a stored zero regresses on any use. The
      percentage is that of the stored total. */
  lemma RegressedByPercentage(key: SnapshotKey, current: nat, snapshot: nat, threshold: real)
    requires threshold >= 0.0
    ensures
      var c := Classify(key, Some(current), Some(snapshot), threshold);
      && c.deltaTokens == Some(current - snapshot)
      && (snapshot > 0 ==> c.deltaPercent.Some? && (c.outcome == Regressed <==> c.deltaPercent.value > threshold))
      && (snapshot > 0 ==> (c.outcome == Improved <==> c.deltaPercent.value < 0.0))
      && (snapshot > 0 ==> c.deltaPercent.value * snapshot as real == 100.0 * (current - snapshot) as real)
      && (snapshot == 0 ==> (c.outcome == Regressed <==> current > 0) && c.deltaPercent.None?)
  {
    if snapshot > 0 {
      PercentScaled(current as real, snapshot as real, threshold);
      PercentScaled(current as real, snapshot as real, 0.0);
      QuotientSign((current - snapshot) as real, snapshot as real);
      PercentTimes((current - snapshot) as real, snapshot as real);
    }
  }

  lemma PercentTimes(d: real, s: real)
    requires s > 0.0
    ensures d / s * 100.0 * s == 100.0 * d
  {
    assert d / s * s == d;
  }

  lemma PercentScaled(c: real, s: real, t: real)
    requires s > 0.0 && t >= 0.0
    ensures c > s * (1.0 + t / 100.0) <==> (c - s) / s * 100.0 > t
  {
    var q := (c - s) / s;
    assert q * s == c - s;
    assert c - s * (1.0 + t / 100.0) == s * (q - t / 100.0);
    if q > t / 100.0 {
      assert s * (q - t / 100.0) > 0.0;
    } else {
      assert s * (t / 100.0 - q) >= 0.0;
    }
  }

  lemma QuotientSign(d: real, s: real)
    requires s > 0.0
    ensures d / s * 100.0 < 0.0 <==> d < 0.0
  {
    assert d / s * s == d;
    if d < 0.0 {
      assert d / s < 0.0;
    } else {
      assert d / s >= 0.0;
    }
  }

  function Mirror(outcome: Outcome): Outcome {
    match outcome
    case New => Orphaned
    case Orphaned => New
    case Improved => Regressed
    case Regressed => Improved
    case Unchanged => Unchanged
  }

  /** At threshold zero exchanging the two sides mirrors every outcome and negates every difference. */
  lemma SwapMirrors(key: SnapshotKey, current: Option<nat>, snapshot: Option<nat>)
    requires current.Some? || snapshot.Some?
    ensures
      var a, b := Classify(key, current, snapshot, 0.0), Classify(key, snapshot, current, 0.0);
      && b.outcome == Mirror(a.outcome)
      && b.currentTotalTokens == a.snapshotTotalTokens && b.snapshotTotalTokens == a.currentTotalTokens
      && (a.deltaTokens.Some? ==> b.deltaTokens == Some(-a.deltaTokens.value))
  {
    if current.Some? && snapshot.Some? {
      assert snapshot.value as real * (1.0 + 0.0 / 100.0) == snapshot.value as real;
      assert current.value as real * (1.0 + 0.0 / 100.0) == current.value as real;
    }
  }

  /** The whole reports mirror each other: same keys, mirrored outcome for each. */
  lemma SwappedReports(a: Report, b: Report, current: map<SnapshotKey, nat>, snapshot: map<SnapshotKey, nat>, i: nat)
    requires IsComparison(a, current, snapshot, 0.0) && IsComparison(b, snapshot, current, 0.0) && i < |a.cases|
    ensures exists d :: d in b.cases && d.key == a.cases[i].key && d.outcome == Mirror(a.cases[i].outcome)
  {
    var c := a.cases[i];
    assert IsCaseOf(c, current, snapshot, 0.0);
    var d :| d in b.cases && d.key == c.key;
    var j :| 0 <= j < |b.cases| && b.cases[j] == d;
    assert IsCaseOf(b.cases[j], snapshot, current, 0.0);
    SwapMirrors(c.key, Lookup(current, c.key), Lookup(snapshot, c.key));
  }

  lemma MirrorInjective(x: Outcome, y: Outcome)
    ensures Mirror(x) == Mirror(y) <==> x == y
  {
  }

  lemma OutcomeMirrors(current: map<SnapshotKey, nat>, snapshot: map<SnapshotKey, nat>, k: SnapshotKey)
    ensures OutcomeAt(snapshot, current, 0.0)(k) == Mirror(OutcomeAt(current, snapshot, 0.0)(k))
  {
    if k in current || k in snapshot {
      SwapMirrors(k, Lookup(current, k), Lookup(snapshot, k));
    }
  }

  lemma MirroredKeys(current: map<SnapshotKey, nat>, snapshot: map<SnapshotKey, nat>, keys: seq<SnapshotKey>,
                     x: Outcome, y: Outcome)
    requires y == Mirror(x)
    ensures multiset(Map(OutcomeAt(current, snapshot, 0.0), keys))[x] ==
            multiset(Map(OutcomeAt(snapshot, current, 0.0), keys))[y]
  {
    var f, g := OutcomeAt(current, snapshot, 0.0), OutcomeAt(snapshot, current, 0.0);
    forall i | 0 <= i < |keys|
      ensures f(keys[i]) == x <==> g(keys[i]) == y
    {
      OutcomeMirrors(current, snapshot, keys[i]);
      MirrorInjective(f(keys[i]), x);
    }
    SameMultiplicity(Map(f, keys), Map(g, keys), x, y);
  }

  lemma MirroredCount(a: Report, b: Report, current: map<SnapshotKey, nat>, snapshot: map<SnapshotKey, nat>,
                      x: Outcome, y: Outcome)
    requires IsComparison(a, current, snapshot, 0.0) && IsComparison(b, snapshot, current, 0.0) && y == Mirror(x)
    ensures CountOf(b.cases, y) == CountOf(a.cases, x) && |a.cases| == |b.cases|
  {
    var keys := Map(KeyOfCase, a.cases);
    ReportKeys(a, current, snapshot, 0.0);
    MirroredKeys(current, snapshot, keys, x, y);
    CountsByKey(a, current, snapshot, 0.0, keys, x);
    CountsByKey(b, snapshot, current, 0.0, keys, y);
  }

  /** The summaries mirror each other: new and orphaned, improved and regressed are exchanged. */
  lemma SwappedSummaries(a: Report, b: Report, current: map<SnapshotKey, nat>, snapshot: map<SnapshotKey, nat>)
    requires IsComparison(a, current, snapshot, 0.0) && IsComparison(b, snapshot, current, 0.0)
    ensures b.summary == Summary(a.summary.total, a.summary.orphaned, a.summary.added, a.summary.same,
                                 a.summary.regressed, a.summary.improved)
  {
    MirroredCount(a, b, current, snapshot, New, Orphaned);
    MirroredCount(a, b, current, snapshot, Orphaned, New);
    MirroredCount(a, b, current, snapshot, Unchanged, Unchanged);
    MirroredCount(a, b, current, snapshot, Improved, Regressed);
    MirroredCount(a, b, current, snapshot, Regressed, Improved);
  }

  /** Equal totals are unchanged with difference zero, whatever the threshold. */
  lemma EqualTotalsUnchanged(key: SnapshotKey, total: nat, threshold: real)
    requires threshold >= 0.0
    ensures
      var c := Classify(key, Some(total), Some(total), threshold);
      c.outcome == Unchanged && c.deltaTokens == Some(0)
  {
    ScaleMonotone(total as real, 1.0, 1.0 + threshold / 100.0);
  }
}
