/** Updating the snapshot files of a run and then checking the same run against them. */
module SnapshotRun {
  import opened Collections
  import opened SnapshotStore
  import opened SnapshotCompare
  import opened Sorting
  import opened TokenAggregation

  datatype GroupKey = GroupKey(provider: string, model: string)

  datatype Group = Group(id: GroupKey, records: seq<SnapshotRow>)

  function GroupOf(r: SnapshotRow): GroupKey {
    GroupKey(r.key.provider, r.key.model)
  }

  type Files = map<string, string>

  function FileName(id: GroupKey): string {
    id.provider + "-" + id.model + ".jsonl"
  }

  // ---------- Grouping ----------

  function OfGroup(records: seq<SnapshotRow>, id: GroupKey): (r: seq<SnapshotRow>)
    ensures forall x :: x in r <==> x in records && GroupOf(x) == id
  {
    if records == [] then []
    else
      var last := records[|records| - 1];
      assert records == records[..|records| - 1] + [last];
      OfGroup(records[..|records| - 1], id) + if GroupOf(last) == id then [last] else []
  }

  method GroupRecords(records: seq<SnapshotRow>) returns (groups: map<GroupKey, seq<SnapshotRow>>)
    ensures forall id :: id in groups <==> exists r :: r in records && GroupOf(r) == id
    ensures forall id | id in groups :: groups[id] == OfGroup(records, id)
  {
    groups := map[];
    for i := 0 to |records|
      invariant forall id :: id in groups <==> OfGroup(records[..i], id) != []
      invariant forall id | id in groups :: groups[id] == OfGroup(records[..i], id)
    {
      var r := records[i];
      var id := GroupOf(r);
      assert records[..i + 1][..i] == records[..i];
      if id !in groups {
        groups := groups[id := [r]];
      } else {
        groups := groups[id := groups[id] + [r]];
      }
    }
    assert records[..|records|] == records;
    forall id
      ensures id in groups <==> exists r :: r in records && GroupOf(r) == id
    {
      var group := OfGroup(records, id);
      if group != [] {
        assert group[0] in group;
      }
    }
  }

  // ---------- Update ----------

  function EntryOf(r: SnapshotRow, createdAtMs: nat): Entry {
    Entry(r.key.provider, r.key.model, r.key.logical, r.totals.inputTokens, r.totals.outputTokens, r.totals.totalTokens,
          r.totals.cachedTokens, createdAtMs)
  }

  function EntriesOf(group: Group, createdAtMs: nat): seq<Entry> {
    Map((r: SnapshotRow) => EntryOf(r, createdAtMs), group.records)
  }

  /** The records belong to the group and name each logical key once, as reduction guarantees. */
  ghost predicate ValidGroup(group: Group) {
    && (forall r | r in group.records :: GroupOf(r) == group.id)
    && (forall i, j | 0 <= i < j < |group.records| :: group.records[i].key != group.records[j].key)
  }

  function Stored(files: Files, name: string, codec: Codec, valid: Option<set<LogicalKey>>): seq<Entry> {
    if name in files then LoadedEntries(FileLines(files[name]), codec, valid) else []
  }

  function Updated(files: Files, group: Group, codec: Codec, createdAtMs: nat): Files {
    var name := FileName(group.id);
    files[name := Serialize(Merge(Stored(files, name, codec, None), EntriesOf(group, createdAtMs)), codec)]
  }

  function UpdatedAll(files: Files, groups: seq<Group>, codec: Codec, createdAtMs: nat): Files {
    if groups == [] then files
    else Updated(UpdatedAll(files, groups[..|groups| - 1], codec, createdAtMs), groups[|groups| - 1], codec,
                 createdAtMs)
  }

  lemma EntriesForFile(group: Group, createdAtMs: nat)
    requires ValidGroup(group)
    ensures ForFile(EntriesOf(group, createdAtMs), group.id.provider, group.id.model)
    ensures DistinctKeys(EntriesOf(group, createdAtMs))
  {
    var entries := EntriesOf(group, createdAtMs);
    forall e | e in entries
      ensures e.provider == group.id.provider && e.model == group.id.model
    {
      var i :| 0 <= i < |entries| && entries[i] == e;
      assert group.records[i] in group.records;
    }
    forall i, j | 0 <= i < j < |entries|
      ensures KeysOf(entries)[i] != KeysOf(entries)[j]
    {
      KeyAt(entries, i);
      KeyAt(entries, j);
    }
  }

  /** Writing one group's file: no invariant of the store can fire. */
  method WriteSnapshotFile(files: Files, group: Group, codec: Codec, createdAtMs: nat) returns (after: Files)
    requires ValidGroup(group)
    ensures after == Updated(files, group, codec, createdAtMs)
  {
    var name := FileName(group.id);
    var contents := if name in files then Some(files[name]) else None;
    var existing, _ := LoadSnapshotFile(contents, codec, None);
    EntriesForFile(group, createdAtMs);
    var merged := MergeEntries(existing, group.id.provider, group.id.model, EntriesOf(group, createdAtMs));
    after := files[name := Serialize(merged.value, codec)];
  }

  method UpdateSnapshots(files: Files, groups: seq<Group>, codec: Codec, createdAtMs: nat) returns (after: Files)
    requires forall g | g in groups :: ValidGroup(g)
    ensures after == UpdatedAll(files, groups, codec, createdAtMs)
  {
    after := files;
    for i := 0 to |groups|
      invariant after == UpdatedAll(files, groups[..i], codec, createdAtMs)
    {
      assert groups[..i + 1][..i] == groups[..i];
      after := WriteSnapshotFile(after, groups[i], codec, createdAtMs);
    }
    assert groups[..|groups|] == groups;
  }

  // ---------- Check ----------

  function CurrentOf(group: Group): seq<Comparable> {
    Map((r: SnapshotRow) => Comparable(r.key, r.totals.totalTokens), group.records)
  }

  function SnapshotOf(entries: seq<Entry>): seq<Comparable> {
    Map((e: Entry) => Comparable(SnapshotKey(e.provider, e.model, e.key), e.totalTokens), entries)
  }

  ghost predicate DistinctFiles(groups: seq<Group>) {
    forall i, j | 0 <= i < j < |groups| :: FileName(groups[i].id) != FileName(groups[j].id)
  }

  /** The merged contents a group's file holds after its update. */
  ghost function MergedFor(files: Files, group: Group, codec: Codec, createdAtMs: nat): seq<Entry> {
    Merge(Stored(files, FileName(group.id), codec, None), EntriesOf(group, createdAtMs))
  }

  ghost predicate Holds(files: Files, name: string, contents: string) {
    name in files && files[name] == contents
  }

  /** With a file per group, updating the others does not touch a group's file. */
  lemma {:induction false} OwnFile(files: Files, groups: seq<Group>, codec: Codec, createdAtMs: nat, i: nat)
    requires DistinctFiles(groups) && i < |groups|
    ensures Holds(UpdatedAll(files, groups, codec, createdAtMs), FileName(groups[i].id),
                  Serialize(MergedFor(files, groups[i], codec, createdAtMs), codec))
    decreases |groups|
  {
    var init, last := groups[..|groups| - 1], groups[|groups| - 1];
    PrefixApart(groups, i);
    if i < |init| {
      OwnFile(files, init, codec, createdAtMs, i);
      OtherFile(UpdatedAll(files, init, codec, createdAtMs), last, codec, createdAtMs, FileName(groups[i].id),
                Serialize(MergedFor(files, groups[i], codec, createdAtMs), codec));
    } else {
      LastFile(files, groups, codec, createdAtMs);
    }
  }

  lemma PrefixApart(groups: seq<Group>, i: nat)
    requires DistinctFiles(groups) && i < |groups|
    ensures DistinctFiles(groups[..|groups| - 1])
    ensures i < |groups| - 1 ==> FileName(groups[i].id) != FileName(groups[|groups| - 1].id)
  {
  }

  lemma LastFile(files: Files, groups: seq<Group>, codec: Codec, createdAtMs: nat)
    requires DistinctFiles(groups) && groups != []
    ensures
      var last := groups[|groups| - 1];
      Holds(UpdatedAll(files, groups, codec, createdAtMs), FileName(last.id),
            Serialize(MergedFor(files, last, codec, createdAtMs), codec))
  {
    var init, last := groups[..|groups| - 1], groups[|groups| - 1];
    forall g | g in init
      ensures FileName(g.id) != FileName(last.id)
    {
    }
    UntouchedFile(files, init, codec, createdAtMs, FileName(last.id));
    SameStored(UpdatedAll(files, init, codec, createdAtMs), files, FileName(last.id), codec);
  }

  lemma OtherFile(files: Files, group: Group, codec: Codec, createdAtMs: nat, name: string, contents: string)
    requires FileName(group.id) != name && Holds(files, name, contents)
    ensures Holds(Updated(files, group, codec, createdAtMs), name, contents)
  {
  }

  lemma SameStored(a: Files, b: Files, name: string, codec: Codec)
    requires name in a <==> name in b
    requires name in a ==> a[name] == b[name]
    ensures Stored(a, name, codec, None) == Stored(b, name, codec, None)
  {
  }

  lemma {:induction false} UntouchedFile(files: Files, groups: seq<Group>, codec: Codec, createdAtMs: nat, name: string)
    requires forall g | g in groups :: FileName(g.id) != name
    ensures name in UpdatedAll(files, groups, codec, createdAtMs) <==> name in files
    ensures name in files ==> UpdatedAll(files, groups, codec, createdAtMs)[name] == files[name]
    decreases |groups|
  {
    if groups != [] {
      assert groups[|groups| - 1] in groups;
      UntouchedFile(files, groups[..|groups| - 1], codec, createdAtMs, name);
    }
  }

  /** What a check sees of a merged file: keys still distinct, and for each key the overriding entry if admitted. */
  lemma AdmittedTotals(existing: seq<Entry>, incoming: seq<Entry>, valid: Option<set<LogicalKey>>, e: Entry)
    requires DistinctKeys(incoming) && e in incoming
    ensures DistinctRecords(SnapshotOf(Admitted(Merge(existing, incoming), valid)))
    ensures Lookup(TotalsOf(SnapshotOf(Admitted(Merge(existing, incoming), valid))),
                   SnapshotKey(e.provider, e.model, e.key)) ==
            if Admits(valid, e.key) then Some(e.totalTokens) else None
  {
    MergeRefinesOverride(existing, incoming);
    MergedHolds(existing, incoming, e);
    var kept := Admitted(Merge(existing, incoming), valid);
    AdmittedDistinct(Merge(existing, incoming), valid);
    AdmittedMembers(Merge(existing, incoming), valid);
    SnapshotDistinct(kept);
    SeenTotal(kept, valid, e);
  }

  lemma SeenTotal(kept: seq<Entry>, valid: Option<set<LogicalKey>>, e: Entry)
    requires KeyedApart(kept) && forall x | x in kept :: Admits(valid, x.key)
    requires Admits(valid, e.key) ==> e in kept
    ensures Lookup(TotalsOf(SnapshotOf(kept)), SnapshotKey(e.provider, e.model, e.key)) ==
            if Admits(valid, e.key) then Some(e.totalTokens) else None
  {
    var seen, key := SnapshotOf(kept), SnapshotKey(e.provider, e.model, e.key);
    SnapshotDistinct(kept);
    TotalsFacts(seen);
    if Admits(valid, e.key) {
      var i :| 0 <= i < |kept| && kept[i] == e;
      assert seen[i] == Comparable(key, e.totalTokens);
      assert seen[i] in seen;
    } else {
      forall r | r in seen
        ensures r.key != key
      {
        var i :| 0 <= i < |seen| && seen[i] == r;
        assert kept[i] in kept;
      }
    }
  }

  lemma MergedHolds(existing: seq<Entry>, incoming: seq<Entry>, e: Entry)
    requires DistinctKeys(incoming) && e in incoming
    ensures e in Merge(existing, incoming)
  {
    var i :| 0 <= i < |incoming| && incoming[i] == e;
    IncomingStep(existing, incoming, i);
    MergeRefinesOverride(existing, incoming);
    FirstWellKeyed(Merge(existing, incoming));
  }

  ghost predicate KeyedApart(entries: seq<Entry>) {
    forall i, j | 0 <= i < j < |entries| :: entries[i].key != entries[j].key
  }

  lemma {:induction false} AdmittedApart(entries: seq<Entry>, valid: Option<set<LogicalKey>>)
    requires KeyedApart(entries)
    ensures KeyedApart(Admitted(entries, valid))
  {
    if entries != [] {
      var init, last := entries[..|entries| - 1], entries[|entries| - 1];
      AdmittedApart(init, valid);
      AdmittedMembers(init, valid);
      forall e | e in Admitted(init, valid)
        ensures e.key != last.key
      {
        var i :| 0 <= i < |init| && init[i] == e;
        assert entries[i] == e;
      }
    }
  }

  lemma AdmittedDistinct(entries: seq<Entry>, valid: Option<set<LogicalKey>>)
    requires DistinctKeys(entries)
    ensures KeyedApart(Admitted(entries, valid))
  {
    forall i, j | 0 <= i < j < |entries|
      ensures entries[i].key != entries[j].key
    {
      KeyAt(entries, i);
      KeyAt(entries, j);
    }
    AdmittedApart(entries, valid);
  }

  lemma SnapshotDistinct(entries: seq<Entry>)
    requires KeyedApart(entries)
    ensures DistinctRecords(SnapshotOf(entries))
  {
  }

  /**
   Checking a run against the files it has just updated, whatever they held before: no duplicate key on either side,
   and a record comes out unchanged with difference zero exactly if its key is among those the check admits, for every
   threshold. `RunCheck` shows that a run's own keys always are.
   */
  lemma CheckAfterUpdate(files: Files, groups: seq<Group>, codec: Codec, createdAtMs: nat, i: nat,
                         valid: set<LogicalKey>, threshold: real, r: SnapshotRow)
    requires Faithful(codec) && threshold >= 0.0
    requires (forall g | g in groups :: ValidGroup(g)) && DistinctFiles(groups) && i < |groups|
    requires r in groups[i].records
    ensures
      var after := UpdatedAll(files, groups, codec, createdAtMs);
      var current := CurrentOf(groups[i]);
      var snapshot := SnapshotOf(Stored(after, FileName(groups[i].id), codec, Some(valid)));
      && DistinctRecords(current) && DistinctRecords(snapshot)
      && r.key in TotalsOf(current)
      && var c := Classify(r.key, Lookup(TotalsOf(current), r.key), Lookup(TotalsOf(snapshot), r.key), threshold);
         && (r.key.logical in valid <==> c.outcome == Unchanged)
         && (r.key.logical in valid ==> c.deltaTokens == Some(0))
         && (r.key.logical !in valid ==> c.outcome == New)
  {
    var group := groups[i];
    assert group in groups;
    var existing := Stored(files, FileName(group.id), codec, None);
    var incoming := EntriesOf(group, createdAtMs);
    OwnFile(files, groups, codec, createdAtMs, i);
    LoadInvertsSerialize(Merge(existing, incoming), codec, Some(valid));
    EntriesForFile(group, createdAtMs);
    var k :| 0 <= k < |group.records| && group.records[k] == r;
    assert incoming[k] == EntryOf(r, createdAtMs);
    AdmittedTotals(existing, incoming, Some(valid), EntryOf(r, createdAtMs));
    CurrentTotals(group, k);
    EqualTotalsUnchanged(r.key, r.totals.totalTokens, threshold);
  }

  lemma CurrentTotals(group: Group, k: nat)
    requires ValidGroup(group) && k < |group.records|
    ensures DistinctRecords(CurrentOf(group))
    ensures
      var r := group.records[k];
      Lookup(TotalsOf(CurrentOf(group)), r.key) == Some(r.totals.totalTokens)
  {
    var current := CurrentOf(group);
    TotalsFacts(current);
    assert current[k] in current;
  }

  /** Repeating an update leaves the file as it is. */
  lemma UpdateIdempotent(files: Files, group: Group, codec: Codec, createdAtMs: nat)
    requires Faithful(codec) && ValidGroup(group)
    ensures
      var once := Updated(files, group, codec, createdAtMs);
      Updated(once, group, codec, createdAtMs) == once
  {
    var name := FileName(group.id);
    var existing, incoming := Stored(files, name, codec, None), EntriesOf(group, createdAtMs);
    LoadInvertsSerialize(Merge(existing, incoming), codec, None);
    MergeIdempotent(existing, incoming);
  }

  lemma {:induction false} OfGroupApart(rows: seq<SnapshotRow>, id: GroupKey)
    requires forall i, j | 0 <= i < j < |rows| :: rows[i].key != rows[j].key
    ensures ValidGroup(Group(id, OfGroup(rows, id)))
  {
    if rows != [] {
      var init, last := rows[..|rows| - 1], rows[|rows| - 1];
      OfGroupApart(init, id);
      forall r | r in OfGroup(init, id)
        ensures r.key != last.key
      {
        var i :| 0 <= i < |init| && init[i] == r;
        assert rows[i] == r;
      }
    }
  }

  /** The groups of a run's reduced records are valid, so the theorems above apply to every run. */
  lemma RunGroupsValid(records: seq<TokenRecord>, le: (SnapshotKey, SnapshotKey) -> bool, id: GroupKey)
    ensures ValidGroup(Group(id, OfGroup(Reduced(records, le), id)))
  {
    ReducedRegroups(records, le, CaseKey("", "", ""));
    OfGroupApart(Reduced(records, le), id);
  }

  // ---------- Merging the reports of the groups ----------

  lemma {:induction false} CountSplit(a: seq<CheckCase>, b: seq<CheckCase>, outcome: Outcome)
    ensures CountOf(a + b, outcome) == CountOf(a, outcome) + CountOf(b, outcome)
    decreases |b|
  {
    if b == [] {
      assert a + b == a;
    } else {
      assert (a + b)[..|a + b| - 1] == a + b[..|b| - 1];
      CountSplit(a, b[..|b| - 1], outcome);
    }
  }

  lemma {:induction false} CountInsert(c: CheckCase, s: seq<CheckCase>, le: (CheckCase, CheckCase) -> bool,
                                       outcome: Outcome)
    ensures CountOf(Insert(c, s, le), outcome) == CountOf(s, outcome) + if c.outcome == outcome then 1 else 0
  {
    if s == [] || le(c, s[0]) {
      assert s == [] ==> [c] + s == [c];
      CountSplit([c], s, outcome);
    } else {
      CountInsert(c, s[1..], le, outcome);
      CountSplit([s[0]], Insert(c, s[1..], le), outcome);
      CountSplit([s[0]], s[1..], outcome);
      assert s == [s[0]] + s[1..];
    }
  }

  lemma {:induction false} CountSort(s: seq<CheckCase>, le: (CheckCase, CheckCase) -> bool, outcome: Outcome)
    ensures CountOf(Sort(s, le), outcome) == CountOf(s, outcome)
  {
    if s != [] {
      CountSort(s[1..], le, outcome);
      CountInsert(s[0], Sort(s[1..], le), le, outcome);
      CountSplit([s[0]], s[1..], outcome);
      assert s == [s[0]] + s[1..];
    }
  }

  function AllCases(reports: seq<Report>): seq<CheckCase> {
    if reports == [] then [] else AllCases(reports[..|reports| - 1]) + reports[|reports| - 1].cases
  }

  lemma SummarySplit(a: seq<CheckCase>, b: seq<CheckCase>)
    ensures
      var x, y, z := SummaryOf(a), SummaryOf(b), SummaryOf(a + b);
      z == Summary(x.total + y.total, x.added + y.added, x.orphaned + y.orphaned, x.same + y.same,
                   x.improved + y.improved, x.regressed + y.regressed)
  {
    CountSplit(a, b, New);
    CountSplit(a, b, Orphaned);
    CountSplit(a, b, Unchanged);
    CountSplit(a, b, Improved);
    CountSplit(a, b, Regressed);
  }

  lemma SummarySort(s: seq<CheckCase>, le: (CheckCase, CheckCase) -> bool)
    ensures SummaryOf(Sort(s, le)) == SummaryOf(s)
  {
    Permuted(Sort(s, le), s);
    CountSort(s, le, New);
    CountSort(s, le, Orphaned);
    CountSort(s, le, Unchanged);
    CountSort(s, le, Improved);
    CountSort(s, le, Regressed);
  }

  /** The merged report: its summed counters are those of its own cases. `None`: thresholds differ. */
  method MergeReports(reports: seq<Report>, threshold: real, le: (CheckCase, CheckCase) -> bool)
    returns (merged: Option<Report>)
    ensures merged.Some? <==> forall r | r in reports :: r.threshold == threshold
    ensures merged.Some? ==> merged.value.threshold == threshold
    ensures merged.Some? ==> multiset(merged.value.cases) == multiset(AllCases(reports))
    ensures merged.Some? && (forall r | r in reports :: r.summary == SummaryOf(r.cases)) ==>
              merged.value.summary == SummaryOf(merged.value.cases)
  {
    var summary := Summary(0, 0, 0, 0, 0, 0);
    var cases: seq<CheckCase> := [];
    for i := 0 to |reports|
      invariant forall r | r in reports[..i] :: r.threshold == threshold
      invariant cases == AllCases(reports[..i])
      invariant (forall r | r in reports[..i] :: r.summary == SummaryOf(r.cases)) ==> summary == SummaryOf(cases)
    {
      var r := reports[i];
      assert reports[..i + 1][..i] == reports[..i] && reports[..i + 1] == reports[..i] + [r];
      if r.threshold != threshold {
        assert r in reports;
        return None;
      }
      SummarySplit(cases, r.cases);
      summary := Summary(summary.total + r.summary.total, summary.added + r.summary.added,
                         summary.orphaned + r.summary.orphaned, summary.same + r.summary.same,
                         summary.improved + r.summary.improved, summary.regressed + r.summary.regressed);
      cases := cases + r.cases;
    }
    assert reports[..|reports|] == reports;
    SummarySort(cases, le);
    merged := Some(Report(threshold, Sort(cases, le), summary));
  }

  // ---------- One file per group ----------

  lemma {:induction false} SameEnding(a: string, b: string, tail: string)
    requires a + tail == b + tail
    ensures a == b
  {
    assert |a + tail| == |a| + |tail| && |b + tail| == |b| + |tail|;
    assert a == (a + tail)[..|a|] && b == (b + tail)[..|b|];
  }

  /** A run has one provider, and then models with different names have different files. */
  lemma OneProviderDistinctFiles(groups: seq<Group>, provider: string)
    requires forall g | g in groups :: g.id.provider == provider
    requires forall i, j | 0 <= i < j < |groups| :: groups[i].id != groups[j].id
    ensures DistinctFiles(groups)
  {
    forall i, j | 0 <= i < j < |groups|
      ensures FileName(groups[i].id) != FileName(groups[j].id)
    {
      assert groups[i] in groups && groups[j] in groups;
      if FileName(groups[i].id) == FileName(groups[j].id) {
        SameFileSameModel(provider, groups[i].id.model, groups[j].id.model);
      }
    }
  }

  lemma SameFileSameModel(provider: string, a: string, b: string)
    requires FileName(GroupKey(provider, a)) == FileName(GroupKey(provider, b))
    ensures a == b
  {
    var prefix := provider + "-";
    SameEnding(prefix + a, prefix + b, ".jsonl");
    assert a == (prefix + a)[|prefix|..] && b == (prefix + b)[|prefix|..];
  }

  /** The providers the program knows; the command line refuses all others. */
  const SUPPORTED_PROVIDER_IDS := ["stub", "fixture", "recording", "claude", "codex"]

  lemma SupportedWithoutHyphen(provider: string)
    requires provider in SUPPORTED_PROVIDER_IDS
    ensures '-' !in provider
  {
  }

  lemma NotShorter(a: GroupKey, b: GroupKey)
    requires '-' !in b.provider && FileName(a) == FileName(b)
    ensures |a.provider| >= |b.provider|
  {
    assert FileName(a)[|a.provider|] == '-';
    assert forall i | 0 <= i < |b.provider| :: FileName(b)[i] == b.provider[i] != '-';
  }

  /** The part before the first hyphen is the provider. */
  lemma FileNameInjective(a: GroupKey, b: GroupKey)
    requires '-' !in a.provider && '-' !in b.provider && FileName(a) == FileName(b)
    ensures a == b
  {
    NotShorter(a, b);
    NotShorter(b, a);
    assert FileName(a)[..|a.provider|] == a.provider && FileName(b)[..|b.provider|] == b.provider;
    SameFileSameModel(a.provider, a.model, b.model);
  }

  /** Whatever mix of supported providers and models, different groups have different files. */
  lemma SupportedDistinctFiles(groups: seq<Group>)
    requires forall g | g in groups :: g.id.provider in SUPPORTED_PROVIDER_IDS
    requires forall i, j | 0 <= i < j < |groups| :: groups[i].id != groups[j].id
    ensures DistinctFiles(groups)
  {
    forall i, j | 0 <= i < j < |groups|
      ensures FileName(groups[i].id) != FileName(groups[j].id)
    {
      assert groups[i] in groups && groups[j] in groups;
      SupportedWithoutHyphen(groups[i].id.provider);
      SupportedWithoutHyphen(groups[j].id.provider);
      if FileName(groups[i].id) == FileName(groups[j].id) {
        FileNameInjective(groups[i].id, groups[j].id);
      }
    }
  }
}
