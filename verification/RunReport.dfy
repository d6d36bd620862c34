/** The snapshot report of a whole run, after the run has updated its own snapshots. */
module RunReport {
  import opened Collections
  import opened Selection
  import opened SnapshotStore
  import opened SnapshotCompare
  import opened SnapshotRun
  import opened RunCheck
  import opened TokenAggregation

  // ---------- The check, group by group ----------

  /** What the check finds in the file of a group. */
  function SeenBy(group: Group, files: Files, codec: Codec, valid: set<LogicalKey>): seq<Comparable> {
    SnapshotOf(Stored(files, FileName(group.id), codec, Some(valid)))
  }

  ghost predicate Comparing(group: Group, files: Files, codec: Codec, valid: set<LogicalKey>) {
    DistinctRecords(CurrentOf(group)) && DistinctRecords(SeenBy(group, files, codec, valid))
  }

  ghost predicate ReportOn(report: Report, group: Group, files: Files, codec: Codec, valid: set<LogicalKey>,
                           threshold: real)
  {
    IsComparison(report, TotalsOf(CurrentOf(group)), TotalsOf(SeenBy(group, files, codec, valid)), threshold)
  }

  method CheckGroup(group: Group, files: Files, codec: Codec, valid: set<LogicalKey>, threshold: real,
                    le: (SnapshotKey, SnapshotKey) -> bool)
    returns (r: Result<Report, CompareError>)
    requires threshold >= 0.0
    ensures r.Ok? <==> Comparing(group, files, codec, valid)
    ensures r.Ok? ==> ReportOn(r.value, group, files, codec, valid, threshold)
  {
    var name := FileName(group.id);
    var entries, _ := LoadSnapshotFile(if name in files then Some(files[name]) else None, codec, Some(valid));
    r := CompareSnapshotRecords(CurrentOf(group), SnapshotOf(entries), threshold, le);
  }

  ghost predicate ReportsOn(reports: seq<Report>, groups: seq<Group>, files: Files, codec: Codec,
                            valid: set<LogicalKey>, threshold: real)
  {
    && |reports| == |groups|
    && forall i | 0 <= i < |groups| :: ReportOn(reports[i], groups[i], files, codec, valid, threshold)
  }

  lemma ReportsOnSnoc(reports: seq<Report>, groups: seq<Group>, report: Report, group: Group, files: Files,
                      codec: Codec, valid: set<LogicalKey>, threshold: real)
    requires ReportsOn(reports, groups, files, codec, valid, threshold)
    requires ReportOn(report, group, files, codec, valid, threshold)
    ensures ReportsOn(reports + [report], groups + [group], files, codec, valid, threshold)
  {
    forall i | 0 <= i < |groups| + 1
      ensures ReportOn((reports + [report])[i], (groups + [group])[i], files, codec, valid, threshold)
    {
      if i < |groups| {
        assert ReportOn(reports[i], groups[i], files, codec, valid, threshold);
      }
    }
  }

  method CheckGroups(groups: seq<Group>, files: Files, codec: Codec, valid: set<LogicalKey>, threshold: real,
                     le: (SnapshotKey, SnapshotKey) -> bool)
    returns (r: Result<seq<Report>, CompareError>)
    requires threshold >= 0.0
    ensures r.Ok? <==> forall g | g in groups :: Comparing(g, files, codec, valid)
    ensures r.Ok? ==> ReportsOn(r.value, groups, files, codec, valid, threshold)
  {
    var reports: seq<Report> := [];
    for i := 0 to |groups|
      invariant forall g | g in groups[..i] :: Comparing(g, files, codec, valid)
      invariant ReportsOn(reports, groups[..i], files, codec, valid, threshold)
    {
      assert groups[..i + 1] == groups[..i] + [groups[i]];
      var report := CheckGroup(groups[i], files, codec, valid, threshold, le);
      if report.Err? {
        assert groups[i] in groups;
        return Err(report.error);
      }
      ReportsOnSnoc(reports, groups[..i], report.value, groups[i], files, codec, valid, threshold);
      reports := reports + [report.value];
    }
    assert groups[..|groups|] == groups;
    r := Ok(reports);
  }

  // ---------- What the reports say after an update ----------

  ghost predicate Settles(run: Run, le: (SnapshotKey, SnapshotKey) -> bool, groups: seq<Group>, codec: Codec) {
    Produced(run) && GroupsOf(groups, RowsOf(run, le)) && Faithful(codec)
  }

  /** The check of a group's own records cannot fail, and finds each of them unchanged. */
  lemma GroupComparing(run: Run, le: (SnapshotKey, SnapshotKey) -> bool, groups: seq<Group>, files: Files,
                       codec: Codec, createdAtMs: nat, i: nat)
    requires Settles(run, le, groups, codec) && i < |groups|
    ensures Comparing(groups[i], UpdatedAll(files, groups, codec, createdAtMs), codec, Valid(run))
  {
    assert groups[i] in groups;
    EveryRecordUnchanged(run, le, groups, files, codec, createdAtMs, 0.0, i, groups[i].records[0]);
  }

  lemma CheckSucceeds(run: Run, le: (SnapshotKey, SnapshotKey) -> bool, groups: seq<Group>, files: Files,
                      codec: Codec, createdAtMs: nat)
    requires Settles(run, le, groups, codec)
    ensures forall g | g in groups :: Comparing(g, UpdatedAll(files, groups, codec, createdAtMs), codec, Valid(run))
  {
    forall i | 0 <= i < |groups|
      ensures Comparing(groups[i], UpdatedAll(files, groups, codec, createdAtMs), codec, Valid(run))
    {
      GroupComparing(run, le, groups, files, codec, createdAtMs, i);
    }
  }

  /** A case is unchanged exactly if its key is a record of the run; otherwise it is orphaned. */
  ghost predicate CurrentOrOrphaned(c: CheckCase, group: Group) {
    c.outcome == if c.key in TotalsOf(CurrentOf(group)) then Unchanged else Orphaned
  }

  lemma CaseSettled(run: Run, le: (SnapshotKey, SnapshotKey) -> bool, groups: seq<Group>, files: Files, codec: Codec,
                    createdAtMs: nat, threshold: real, i: nat, c: CheckCase)
    requires Settles(run, le, groups, codec) && i < |groups| && threshold >= 0.0
    requires IsCaseOf(c, TotalsOf(CurrentOf(groups[i])),
                      TotalsOf(SnapshotAfter(run, groups, files, codec, createdAtMs, i)), threshold)
    ensures CurrentOrOrphaned(c, groups[i])
  {
    if c.key in TotalsOf(CurrentOf(groups[i])) {
      var r := RowOf(groups[i], c.key);
      EveryRecordUnchanged(run, le, groups, files, codec, createdAtMs, threshold, i, r);
    }
  }

  lemma GroupSettled(run: Run, le: (SnapshotKey, SnapshotKey) -> bool, groups: seq<Group>, files: Files, codec: Codec,
                     createdAtMs: nat, threshold: real, i: nat, report: Report)
    requires Settles(run, le, groups, codec) && i < |groups| && threshold >= 0.0
    requires ReportOn(report, groups[i], UpdatedAll(files, groups, codec, createdAtMs), codec, Valid(run), threshold)
    ensures forall k | 0 <= k < |report.cases| :: CurrentOrOrphaned(report.cases[k], groups[i])
  {
    forall k | 0 <= k < |report.cases|
      ensures CurrentOrOrphaned(report.cases[k], groups[i])
    {
      CaseSettled(run, le, groups, files, codec, createdAtMs, threshold, i, report.cases[k]);
    }
  }

  // ---------- Counting ----------

  lemma MeetSnoc<T>(members: set<T>, s: set<T>, x: T)
    requires x !in s
    ensures |members * (s + {x})| == |members * s| + if x in members then 1 else 0
  {
    assert members * (s + {x}) == members * s + if x in members then {x} else {};
  }

  lemma {:induction false} CountWithin(cases: seq<CheckCase>, members: set<SnapshotKey>)
    requires Distinct(Map(KeyOfCase, cases))
    requires forall k | 0 <= k < |cases| :: cases[k].outcome == Unchanged <==> cases[k].key in members
    ensures CountOf(cases, Unchanged) == |members * SetOf(Map(KeyOfCase, cases))|
  {
    if cases != [] {
      var init, last := cases[..|cases| - 1], cases[|cases| - 1];
      var keys := Map(KeyOfCase, init);
      assert Map(KeyOfCase, cases) == keys + [last.key];
      assert Distinct(keys) && last.key !in keys by {
        assert forall i | 0 <= i < |keys| :: keys[i] == Map(KeyOfCase, cases)[i];
      }
      CountWithin(init, members);
      MeetSnoc(members, SetOf(keys), last.key);
      assert SetOf(keys + [last.key]) == SetOf(keys) + {last.key};
    }
  }

  function RecordKey(r: Comparable): SnapshotKey {
    r.key
  }

  lemma DistinctTotals(records: seq<Comparable>)
    requires DistinctRecords(records)
    ensures |TotalsOf(records).Keys| == |records|
  {
    var keys := Map(RecordKey, records);
    TotalsFacts(records);
    DistinctSize(keys);
    forall k
      ensures k in SetOf(keys) <==> k in TotalsOf(records)
    {
      if r :| r in records && r.key == k {
        var i :| 0 <= i < |records| && records[i] == r;
        assert keys[i] == k;
      }
      if k in SetOf(keys) {
        var i :| 0 <= i < |keys| && keys[i] == k;
        assert records[i] in records;
      }
    }
    assert SetOf(keys) == TotalsOf(records).Keys;
  }

  /** A group's report has as many unchanged cases as the group has records. */
  lemma UnchangedInGroup(report: Report, group: Group, files: Files, codec: Codec, valid: set<LogicalKey>,
                         threshold: real)
    requires Comparing(group, files, codec, valid) && ReportOn(report, group, files, codec, valid, threshold)
    requires forall k | 0 <= k < |report.cases| :: CurrentOrOrphaned(report.cases[k], group)
    ensures CountOf(report.cases, Unchanged) == |group.records|
  {
    var current := TotalsOf(CurrentOf(group));
    UnchangedKeys(report, current, TotalsOf(SeenBy(group, files, codec, valid)), threshold);
    DistinctTotals(CurrentOf(group));
  }

  lemma UnchangedKeys(report: Report, current: map<SnapshotKey, nat>, snapshot: map<SnapshotKey, nat>, threshold: real)
    requires IsComparison(report, current, snapshot, threshold)
    requires forall k | 0 <= k < |report.cases| ::
               report.cases[k].outcome == if report.cases[k].key in current then Unchanged else Orphaned
    ensures CountOf(report.cases, Unchanged) == |current.Keys|
  {
    ReportKeys(report, current, snapshot, threshold);
    CountWithin(report.cases, current.Keys);
    assert current.Keys * SetOf(Map(KeyOfCase, report.cases)) == current.Keys;
  }

  function RecordCount(groups: seq<Group>): nat {
    if groups == [] then 0 else RecordCount(groups[..|groups| - 1]) + |groups[|groups| - 1].records|
  }

  lemma {:induction false} UnchangedInAll(reports: seq<Report>, groups: seq<Group>)
    requires |reports| == |groups|
    requires forall i | 0 <= i < |groups| :: CountOf(reports[i].cases, Unchanged) == |groups[i].records|
    ensures CountOf(AllCases(reports), Unchanged) == RecordCount(groups)
    decreases |reports|
  {
    if reports != [] {
      var n := |reports| - 1;
      UnchangedInAll(reports[..n], groups[..n]);
      CountSplit(AllCases(reports[..n]), reports[n].cases, Unchanged);
    }
  }

  // ---------- The groups share out the records ----------

  function GroupId(g: Group): GroupKey {
    g.id
  }

  function RowCount(rows: seq<SnapshotRow>, ids: seq<GroupKey>): nat {
    if ids == [] then 0 else RowCount(rows, ids[..|ids| - 1]) + |OfGroup(rows, ids[|ids| - 1])|
  }

  lemma {:induction false} NoRows(ids: seq<GroupKey>)
    ensures RowCount([], ids) == 0
  {
    if ids != [] {
      NoRows(ids[..|ids| - 1]);
    }
  }

  lemma OfGroupSnoc(rows: seq<SnapshotRow>, r: SnapshotRow, id: GroupKey)
    ensures |OfGroup(rows + [r], id)| == |OfGroup(rows, id)| + if GroupOf(r) == id then 1 else 0
  {
    assert (rows + [r])[..|rows|] == rows;
  }

  lemma {:induction false} RowCountSnoc(rows: seq<SnapshotRow>, r: SnapshotRow, ids: seq<GroupKey>)
    requires Distinct(ids)
    ensures RowCount(rows + [r], ids) == RowCount(rows, ids) + if GroupOf(r) in ids then 1 else 0
    decreases |ids|
  {
    if ids != [] {
      var init, last := ids[..|ids| - 1], ids[|ids| - 1];
      assert ids == init + [last];
      RowCountSnoc(rows, r, init);
      OfGroupSnoc(rows, r, last);
    }
  }

  lemma {:induction false} RowsShared(rows: seq<SnapshotRow>, ids: seq<GroupKey>)
    requires Distinct(ids) && forall r | r in rows :: GroupOf(r) in ids
    ensures RowCount(rows, ids) == |rows|
    decreases |rows|
  {
    if rows == [] {
      NoRows(ids);
    } else {
      var init, last := rows[..|rows| - 1], rows[|rows| - 1];
      assert rows == init + [last];
      RowsShared(init, ids);
      RowCountSnoc(init, last, ids);
    }
  }

  lemma RowCountOfSnoc(rows: seq<SnapshotRow>, ids: seq<GroupKey>, id: GroupKey)
    ensures RowCount(rows, ids + [id]) == RowCount(rows, ids) + |OfGroup(rows, id)|
  {
    assert (ids + [id])[..|ids|] == ids;
  }

  lemma {:induction false} RecordCountById(groups: seq<Group>, rows: seq<SnapshotRow>)
    requires forall g | g in groups :: g.records == OfGroup(rows, g.id)
    ensures RecordCount(groups) == RowCount(rows, Map(GroupId, groups))
    decreases |groups|
  {
    if groups != [] {
      var init, last := groups[..|groups| - 1], groups[|groups| - 1];
      assert groups == init + [last];
      RecordCountById(init, rows);
      assert Map(GroupId, groups) == Map(GroupId, init) + [last.id];
      RowCountOfSnoc(rows, Map(GroupId, init), last.id);
    }
  }

  /** Every record of the run is in one group. */
  lemma GroupsShareRecords(groups: seq<Group>, rows: seq<SnapshotRow>)
    requires GroupsOf(groups, rows)
    ensures RecordCount(groups) == |rows|
  {
    var ids := Map(GroupId, groups);
    RecordCountById(groups, rows);
    forall r | r in rows
      ensures GroupOf(r) in ids
    {
      var g :| g in groups && g.id == GroupOf(r);
      var i :| 0 <= i < |groups| && groups[i] == g;
      assert ids[i] == GroupOf(r);
    }
    RowsShared(rows, ids);
  }

  // ---------- The merged report ----------

  ghost predicate MergedFrom(merged: Report, reports: seq<Report>) {
    merged.summary == SummaryOf(merged.cases) && multiset(merged.cases) == multiset(AllCases(reports))
  }

  lemma {:induction false} AllCasesFrom(reports: seq<Report>, c: CheckCase) returns (i: nat, k: nat)
    requires c in AllCases(reports)
    ensures i < |reports| && k < |reports[i].cases| && reports[i].cases[k] == c
  {
    var n := |reports| - 1;
    if c in reports[n].cases {
      i := n;
      k :| 0 <= k < |reports[i].cases| && reports[i].cases[k] == c;
    } else {
      i, k := AllCasesFrom(reports[..n], c);
    }
  }

  ghost predicate AllSettled(reports: seq<Report>, groups: seq<Group>) {
    && |reports| == |groups|
    && forall i, k | 0 <= i < |groups| && 0 <= k < |reports[i].cases| ::
         CurrentOrOrphaned(reports[i].cases[k], groups[i])
  }

  lemma {:induction false} NoneOf(cases: seq<CheckCase>, outcome: Outcome)
    requires forall i | 0 <= i < |cases| :: cases[i].outcome != outcome
    ensures CountOf(cases, outcome) == 0
  {
    if cases != [] {
      NoneOf(cases[..|cases| - 1], outcome);
    }
  }

  lemma MergedCounts(merged: Report, reports: seq<Report>, groups: seq<Group>)
    requires MergedFrom(merged, reports) && AllSettled(reports, groups)
    requires forall i | 0 <= i < |groups| :: CountOf(reports[i].cases, Unchanged) == |groups[i].records|
    ensures merged.summary.added == merged.summary.improved == merged.summary.regressed == 0
    ensures merged.summary.same == RecordCount(groups)
    ensures merged.summary.total == merged.summary.same + merged.summary.orphaned
  {
    var cases := merged.cases;
    Permuted(cases, AllCases(reports));
    forall j | 0 <= j < |cases|
      ensures cases[j].outcome == Unchanged || cases[j].outcome == Orphaned
    {
      assert cases[j] in cases;
      var i, k := AllCasesFrom(reports, cases[j]);
      assert CurrentOrOrphaned(reports[i].cases[k], groups[i]);
    }
    NoneOf(cases, New);
    NoneOf(cases, Improved);
    NoneOf(cases, Regressed);
    CountsAddUp(cases);
    UnchangedInAll(reports, groups);
    CountPermutes(cases, AllCases(reports), Unchanged);
  }

  lemma CountPermutes(a: seq<CheckCase>, b: seq<CheckCase>, outcome: Outcome)
    requires multiset(a) == multiset(b)
    ensures CountOf(a, outcome) == CountOf(b, outcome)
  {
    CountIsMultiplicity(a, outcome);
    CountIsMultiplicity(b, outcome);
    MapPermutes(OutcomeOf, a, b);
  }

  /** The report of a run on the snapshots it has just updated, whatever the files held before and for every threshold:
      nothing is new, improved or regressed; the unchanged cases are as many as the run has records, and the rest are
      orphans. */
  lemma NothingToReport(run: Run, le: (SnapshotKey, SnapshotKey) -> bool, groups: seq<Group>, files: Files,
                        codec: Codec, createdAtMs: nat, threshold: real, reports: seq<Report>, merged: Report)
    requires Settles(run, le, groups, codec) && threshold >= 0.0
    requires ReportsOn(reports, groups, UpdatedAll(files, groups, codec, createdAtMs), codec, Valid(run), threshold)
    requires MergedFrom(merged, reports)
    ensures merged.summary.added == merged.summary.improved == merged.summary.regressed == 0
    ensures merged.summary.same == |RowsOf(run, le)|
    ensures merged.summary.total == merged.summary.same + merged.summary.orphaned
  {
    var after := UpdatedAll(files, groups, codec, createdAtMs);
    forall i | 0 <= i < |groups|
      ensures forall k | 0 <= k < |reports[i].cases| :: CurrentOrOrphaned(reports[i].cases[k], groups[i])
      ensures CountOf(reports[i].cases, Unchanged) == |groups[i].records|
    {
      GroupSettled(run, le, groups, files, codec, createdAtMs, threshold, i, reports[i]);
      GroupComparing(run, le, groups, files, codec, createdAtMs, i);
      UnchangedInGroup(reports[i], groups[i], after, codec, Valid(run), threshold);
    }
    MergedCounts(merged, reports, groups);
    GroupsShareRecords(groups, RowsOf(run, le));
  }

  /** The check of a run: group by group, then merged. */
  method CheckSnapshots(groups: seq<Group>, files: Files, codec: Codec, valid: set<LogicalKey>, threshold: real,
                        le: (SnapshotKey, SnapshotKey) -> bool, leCase: (CheckCase, CheckCase) -> bool)
    returns (r: Result<Report, CompareError>, ghost reports: seq<Report>)
    requires threshold >= 0.0
    ensures r.Ok? <==> forall g | g in groups :: Comparing(g, files, codec, valid)
    ensures r.Ok? ==> MergedFrom(r.value, reports) && r.value.threshold == threshold
    ensures r.Ok? ==> ReportsOn(reports, groups, files, codec, valid, threshold)
  {
    reports := [];
    var checked := CheckGroups(groups, files, codec, valid, threshold, le);
    if checked.Err? {
      return Err(checked.error), [];
    }
    reports := checked.value;
    var merged := MergeReports(checked.value, threshold, leCase);
    r := Ok(merged.value);
  }
}
