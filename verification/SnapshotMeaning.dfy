/** What a snapshot report and a written snapshot file say, number by number. */
module SnapshotMeaning {
  import opened Collections
  import opened Sublists
  import opened SnapshotStore
  import opened TokenAggregation
  import opened SnapshotCompare
  import opened SnapshotRun

  // ---------- The cases of a report ----------

  /** `c > s * (1 + t / 100)` without the quotient. */
  lemma CeilingScaled(c: real, s: real, t: real)
    ensures c > s * (1.0 + t / 100.0) <==> 100.0 * (c - s) > t * s
  {
    assert 100.0 * (s * (1.0 + t / 100.0)) == 100.0 * s + t * s;
  }

  /** What the code compares: `more` says whether the growth exceeds the threshold percentage of the stored total. */
  ghost predicate Exceeds(now: int, before: int, threshold: real) {
    100.0 * (now - before) as real > threshold * before as real
  }

  ghost predicate IsPercentage(percent: Option<real>, now: int, before: int) {
    if before == 0 then percent == None
    else percent.Some? && percent.value * before as real == 100.0 * (now - before) as real
  }

  /** A key on both sides: improved below the stored total, regressed above the threshold, unchanged between. */
  ghost predicate BothSay(c: CheckCase, now: int, before: int, threshold: real) {
    && c.deltaTokens == Some(now - before)
    && IsPercentage(c.deltaPercent, now, before)
    && (c.outcome == Improved <==> now < before)
    && (c.outcome == Regressed <==> Exceeds(now, before, threshold))
    && (c.outcome == Unchanged <==> now >= before && !Exceeds(now, before, threshold))
  }

  lemma BothSides(key: SnapshotKey, now: nat, before: nat, threshold: real)
    requires threshold >= 0.0
    ensures BothSay(Classify(key, Some(now), Some(before), threshold), now, before, threshold)
  {
    CeilingScaled(now as real, before as real, threshold);
    NonNegative(threshold, before as real);
    if before > 0 {
      PercentTimes((now - before) as real, before as real);
    }
  }

  lemma NonNegative(a: real, b: real)
    requires a >= 0.0 && b >= 0.0
    ensures a * b >= 0.0
  {
  }

  /** What a case says about the totals its key has on the two sides. */
  ghost predicate CaseSays(c: CheckCase, current: Option<nat>, snapshot: Option<nat>, threshold: real) {
    && c.currentTotalTokens == current && c.snapshotTotalTokens == snapshot
    && (current.None? <==> c.outcome == Orphaned)
    && (snapshot.None? <==> c.outcome == New)
    && (current.None? || snapshot.None? ==> c.deltaTokens == None && c.deltaPercent == None)
    && (current.Some? && snapshot.Some? ==> BothSay(c, current.value, snapshot.value, threshold))
  }

  lemma ClassifyReads(key: SnapshotKey, current: Option<nat>, snapshot: Option<nat>, threshold: real)
    requires (current.Some? || snapshot.Some?) && threshold >= 0.0
    ensures CaseSays(Classify(key, current, snapshot, threshold), current, snapshot, threshold)
  {
    if current.Some? && snapshot.Some? {
      BothSides(key, current.value, snapshot.value, threshold);
    }
  }

  ghost predicate TotalIn(records: seq<Comparable>, key: SnapshotKey, total: Option<nat>) {
    match total
    case None => forall r | r in records :: r.key != key
    case Some(n) => Comparable(key, n) in records
  }

  lemma LookupReads(records: seq<Comparable>, key: SnapshotKey)
    requires DistinctRecords(records)
    ensures TotalIn(records, key, Lookup(TotalsOf(records), key))
  {
    TotalsFacts(records);
    if r :| r in records && r.key == key {
      assert r == Comparable(key, TotalsOf(records)[key]);
    }
  }

  /** Every case of a report is about a key of one of the sides, and says what the totals recorded for it say. */
  lemma CaseReads(report: Report, current: seq<Comparable>, snapshot: seq<Comparable>, threshold: real, c: CheckCase)
    returns (now: Option<nat>, before: Option<nat>)
    requires IsComparison(report, TotalsOf(current), TotalsOf(snapshot), threshold) && threshold >= 0.0
    requires DistinctRecords(current) && DistinctRecords(snapshot) && c in report.cases
    ensures TotalIn(current, c.key, now) && TotalIn(snapshot, c.key, before) && CaseSays(c, now, before, threshold)
  {
    var i :| 0 <= i < |report.cases| && report.cases[i] == c;
    assert IsCaseOf(report.cases[i], TotalsOf(current), TotalsOf(snapshot), threshold);
    now, before := Lookup(TotalsOf(current), c.key), Lookup(TotalsOf(snapshot), c.key);
    LookupReads(current, c.key);
    LookupReads(snapshot, c.key);
    ClassifyReads(c.key, now, before, threshold);
  }

  // ---------- The counters ----------

  /** The cases of one outcome. */
  ghost function With(cases: seq<CheckCase>, outcome: Outcome): set<nat> {
    set k: nat | k < |cases| && cases[k].outcome == outcome
  }

  lemma WithSnoc(cases: seq<CheckCase>, c: CheckCase, outcome: Outcome)
    ensures |With(cases + [c], outcome)| == |With(cases, outcome)| + if c.outcome == outcome then 1 else 0
  {
    var before, after := With(cases, outcome), With(cases + [c], outcome);
    if c.outcome == outcome {
      assert after == before + {|cases|};
    } else {
      assert after == before;
    }
  }

  lemma {:induction false} CountReads(cases: seq<CheckCase>, outcome: Outcome)
    ensures CountOf(cases, outcome) == |With(cases, outcome)|
  {
    if cases == [] {
      assert With(cases, outcome) == {};
    } else {
      var init, last := cases[..|cases| - 1], cases[|cases| - 1];
      assert cases == init + [last];
      CountReads(init, outcome);
      WithSnoc(init, last, outcome);
    }
  }

  /** Each counter of a summary is the number of the cases it names. */
  lemma SummaryReads(report: Report, current: map<SnapshotKey, nat>, snapshot: map<SnapshotKey, nat>, threshold: real)
    requires IsComparison(report, current, snapshot, threshold)
    ensures
      var s, cases := report.summary, report.cases;
      && s.total == |cases| && s.added == |With(cases, New)| && s.orphaned == |With(cases, Orphaned)|
      && s.same == |With(cases, Unchanged)| && s.improved == |With(cases, Improved)|
      && s.regressed == |With(cases, Regressed)|
  {
    CountReads(report.cases, New);
    CountReads(report.cases, Orphaned);
    CountReads(report.cases, Unchanged);
    CountReads(report.cases, Improved);
    CountReads(report.cases, Regressed);
  }

  // ---------- The files after an update ----------

  /** An entry of a file holds the numbers of a record. */
  ghost predicate Writes(e: Entry, r: SnapshotRow, createdAtMs: nat) {
    && e.provider == r.key.provider && e.model == r.key.model && e.key == r.key.logical
    && e.inputTokens == r.totals.inputTokens && e.outputTokens == r.totals.outputTokens
    && e.totalTokens == r.totals.totalTokens && e.cachedTokens == r.totals.cachedTokens
    && e.createdAtMs == createdAtMs
  }

  /** After the update of a run every record has its entry in the file of its group, with all its numbers and the time
      of the update, and no other entry of that file has its key. */
  lemma EveryRecordWritten(files: Files, groups: seq<Group>, codec: Codec, createdAtMs: nat, i: nat, r: SnapshotRow)
    returns (e: Entry)
    requires Faithful(codec) && (forall g | g in groups :: ValidGroup(g)) && DistinctFiles(groups) && i < |groups|
    requires r in groups[i].records
    ensures
      var stored := Stored(UpdatedAll(files, groups, codec, createdAtMs), FileName(groups[i].id), codec, None);
      && e in stored && Writes(e, r, createdAtMs)
      && forall x | x in stored && x.key == e.key :: x == e
  {
    var group := groups[i];
    assert group in groups;
    var merged := MergedFor(files, group, codec, createdAtMs);
    StoredAfter(files, groups, codec, createdAtMs, i);
    EntriesForFile(group, createdAtMs);
    var incoming := EntriesOf(group, createdAtMs);
    var k :| 0 <= k < |group.records| && group.records[k] == r;
    e := incoming[k];
    MergedHolds(Stored(files, FileName(group.id), codec, None), incoming, e);
    OnlyEntry(Stored(files, FileName(group.id), codec, None), incoming, e);
  }

  lemma StoredAfter(files: Files, groups: seq<Group>, codec: Codec, createdAtMs: nat, i: nat)
    requires Faithful(codec) && DistinctFiles(groups) && i < |groups|
    ensures Stored(UpdatedAll(files, groups, codec, createdAtMs), FileName(groups[i].id), codec, None) ==
            MergedFor(files, groups[i], codec, createdAtMs)
  {
    var merged := MergedFor(files, groups[i], codec, createdAtMs);
    OwnFile(files, groups, codec, createdAtMs, i);
    LoadInvertsSerialize(merged, codec, None);
    EverythingAdmitted(merged);
  }

  lemma {:induction false} EverythingAdmitted(entries: seq<Entry>)
    ensures Admitted(entries, None) == entries
  {
    if entries != [] {
      EverythingAdmitted(entries[..|entries| - 1]);
    }
  }

  lemma OnlyEntry(existing: seq<Entry>, incoming: seq<Entry>, e: Entry)
    requires e in Merge(existing, incoming)
    ensures forall x | x in Merge(existing, incoming) && x.key == e.key :: x == e
  {
    MergeRefinesOverride(existing, incoming);
    forall x | x in Merge(existing, incoming) && x.key == e.key
      ensures x == e
    {
      SameEntry(Merge(existing, incoming), x, e);
    }
  }

  lemma SameEntry(entries: seq<Entry>, x: Entry, e: Entry)
    requires DistinctKeys(entries) && x in entries && e in entries && x.key == e.key
    ensures x == e
  {
    var i :| 0 <= i < |entries| && entries[i] == x;
    var j :| 0 <= j < |entries| && entries[j] == e;
    KeyAt(entries, i);
    KeyAt(entries, j);
    assert KeysOf(entries)[i] == KeysOf(entries)[j];
  }

  /** An entry stored before under a key that no record of the group has stays as it is, if it is the first of its
      key. */
  lemma OthersKept(files: Files, groups: seq<Group>, codec: Codec, createdAtMs: nat, i: nat, k: nat)
    requires Faithful(codec) && (forall g | g in groups :: ValidGroup(g)) && DistinctFiles(groups) && i < |groups|
    requires
      var before := Stored(files, FileName(groups[i].id), codec, None);
      && k < |before| && (forall j | 0 <= j < k :: before[j].key != before[k].key)
      && forall r | r in groups[i].records :: r.key.logical != before[k].key
    ensures Stored(files, FileName(groups[i].id), codec, None)[k] in
            Stored(UpdatedAll(files, groups, codec, createdAtMs), FileName(groups[i].id), codec, None)
  {
    var before, incoming := Stored(files, FileName(groups[i].id), codec, None), EntriesOf(groups[i], createdAtMs);
    StoredAfter(files, groups, codec, createdAtMs, i);
    forall e | e in incoming
      ensures e.key != before[k].key
    {
      var j :| 0 <= j < |incoming| && incoming[j] == e;
      assert groups[i].records[j] in groups[i].records;
    }
    KeptUnlessReplaced(before, incoming, k);
  }

  lemma KeptUnlessReplaced(existing: seq<Entry>, incoming: seq<Entry>, k: nat)
    requires k < |existing| && forall j | 0 <= j < k :: existing[j].key != existing[k].key
    requires forall e | e in incoming :: e.key != existing[k].key
    ensures existing[k] in Merge(existing, incoming)
  {
    var key := existing[k].key;
    NotAmongKeys(existing[..k], key);
    FirstStays(existing, k);
    NotAmongKeys(incoming, key);
    FirstKeys(incoming);
    MergeRefinesOverride(existing, incoming);
    FirstWellKeyed(Merge(existing, incoming));
  }

  lemma NotAmongKeys(entries: seq<Entry>, key: LogicalKey)
    requires forall e | e in entries :: e.key != key
    ensures key !in KeysOf(entries)
  {
    if key in KeysOf(entries) {
      var i :| 0 <= i < |KeysOf(entries)| && KeysOf(entries)[i] == key;
      KeyAt(entries, i);
    }
  }

  // ---------- Loading and grouping ----------

  /** What a line of a file contributes: its entry, if it can be read and the check admits it. */
  function EntryAt(codec: Codec, valid: Option<set<LogicalKey>>): (nat, string) -> Option<Entry> {
    (i: nat, line: string) =>
      if codec.decode(line).Some? && (valid.Some? ==> codec.decode(line).value.key in valid.value)
      then codec.decode(line) else None
  }

  /** What is said about any other line: that it cannot be read, or which key is not admitted; lines count from 1. */
  function DiagnosticAt(codec: Codec, valid: Option<set<LogicalKey>>): (nat, string) -> Option<Diagnostic> {
    (i: nat, line: string) =>
      if codec.decode(line).None? then Some(Malformed(i + 1))
      else if valid.Some? && codec.decode(line).value.key !in valid.value
      then Some(Stale(i + 1, codec.decode(line).value.key)) else None
  }

  /** Every line of a file yields either an entry or a diagnostic, both in the order of the lines. */
  lemma {:induction false} LoadReads(lines: seq<string>, codec: Codec, valid: Option<set<LogicalKey>>)
    ensures Picked(LoadedEntries(lines, codec, valid), lines, EntryAt(codec, valid))
    ensures Picked(LoadDiagnostics(lines, codec, valid), lines, DiagnosticAt(codec, valid))
  {
    if lines == [] {
      NothingPicked(EntryAt(codec, valid));
      NothingPicked(DiagnosticAt(codec, valid));
    } else {
      var init, last := lines[..|lines| - 1], lines[|lines| - 1];
      assert lines == init + [last];
      LoadReads(init, codec, valid);
      EntriesNext(init, last, codec, valid);
      DiagnosticsNext(init, last, codec, valid);
    }
  }

  lemma EntriesNext(init: seq<string>, last: string, codec: Codec, valid: Option<set<LogicalKey>>)
    requires Picked(LoadedEntries(init, codec, valid), init, EntryAt(codec, valid))
    ensures Picked(LoadedEntries(init + [last], codec, valid), init + [last], EntryAt(codec, valid))
  {
    assert (init + [last])[..|init|] == init;
    assert LoadedEntries(init, codec, valid) + [] == LoadedEntries(init, codec, valid);
    PickedNext(LoadedEntries(init, codec, valid), init, EntryAt(codec, valid), last,
               LoadedEntries(init + [last], codec, valid));
  }

  lemma DiagnosticsNext(init: seq<string>, last: string, codec: Codec, valid: Option<set<LogicalKey>>)
    requires Picked(LoadDiagnostics(init, codec, valid), init, DiagnosticAt(codec, valid))
    ensures Picked(LoadDiagnostics(init + [last], codec, valid), init + [last], DiagnosticAt(codec, valid))
  {
    assert (init + [last])[..|init|] == init;
    assert LoadDiagnostics(init, codec, valid) + [] == LoadDiagnostics(init, codec, valid);
    PickedNext(LoadDiagnostics(init, codec, valid), init, DiagnosticAt(codec, valid), last,
               LoadDiagnostics(init + [last], codec, valid));
  }

  function InGroup(id: GroupKey): SnapshotRow -> bool {
    (r: SnapshotRow) => r.key.provider == id.provider && r.key.model == id.model
  }

  /** A group holds exactly the records of its provider and model, in their order. */
  lemma {:induction false} GroupListed(records: seq<SnapshotRow>, id: GroupKey)
    ensures Listed(OfGroup(records, id), records, InGroup(id))
  {
    if records == [] {
      NothingListed(InGroup(id));
    } else {
      var init, last := records[..|records| - 1], records[|records| - 1];
      assert records == init + [last];
      GroupListed(init, id);
      ListedNext(OfGroup(init, id), init, InGroup(id), last, OfGroup(records, id));
    }
  }

  /** What is compared: the total of each record of the group under its key, and of each entry of the file. */
  lemma SidesRead(group: Group, entries: seq<Entry>)
    ensures |CurrentOf(group)| == |group.records| && |SnapshotOf(entries)| == |entries|
    ensures forall i | 0 <= i < |group.records| ::
              CurrentOf(group)[i].key == group.records[i].key &&
              CurrentOf(group)[i].totalTokens == group.records[i].totals.totalTokens
    ensures forall i | 0 <= i < |entries| ::
              var c := SnapshotOf(entries)[i];
              && c.key.provider == entries[i].provider && c.key.model == entries[i].model
              && c.key.logical == entries[i].key && c.totalTokens == entries[i].totalTokens
  {
  }
}
