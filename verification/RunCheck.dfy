/** From the selection of a run to its snapshot check: every record a run can produce is current. */
module RunCheck {
  import opened Collections
  import opened Selection
  import opened WorkItems
  import opened SnapshotStore
  import opened TokenAggregation
  import opened SnapshotCompare
  import opened SnapshotRun

  // ---------- The keys that count as current ----------

  function KeysOfSelection(g: CaseSelection, fingerprint: string): set<LogicalKey> {
    set x | x in g.conditions :: LogicalKey(g.key.lane, g.key.caseId, x, fingerprint)
  }

  function ValidKeys(cases: seq<CaseSelection>, compiled: map<SelectedKey, EvalCase>): set<LogicalKey>
    requires forall g | g in cases :: g.key in compiled
  {
    if cases == [] then {}
    else
      var init, last := cases[..|cases| - 1], cases[|cases| - 1];
      assert cases == init + [last];
      ValidKeys(init, compiled) + KeysOfSelection(last, compiled[last.key].fingerprint)
  }

  lemma {:induction false} ValidKeysMembers(cases: seq<CaseSelection>, compiled: map<SelectedKey, EvalCase>,
                                            k: LogicalKey)
    requires forall g | g in cases :: g.key in compiled
    ensures k in ValidKeys(cases, compiled) <==>
            exists g :: g in cases && k.lane == g.key.lane && k.caseId == g.key.caseId && k.condition in g.conditions &&
                        k.caseFingerprint == compiled[g.key].fingerprint
  {
    if cases != [] {
      var init, last := cases[..|cases| - 1], cases[|cases| - 1];
      assert cases == init + [last];
      ValidKeysMembers(init, compiled, k);
    }
  }

  /** `None`: a selection without its compiled case. */
  method BuildValidSnapshotLogicalKeys(s: Selected) returns (r: Option<set<LogicalKey>>)
    ensures r.Some? <==> forall g | g in s.cases :: g.key in s.compiled
    ensures r.Some? ==> r.value == ValidKeys(s.cases, s.compiled)
  {
    var keys: set<LogicalKey> := {};
    for i := 0 to |s.cases|
      invariant forall g | g in s.cases[..i] :: g.key in s.compiled
      invariant keys == ValidKeys(s.cases[..i], s.compiled)
    {
      var g := s.cases[i];
      assert s.cases[..i + 1] == s.cases[..i] + [g] && s.cases[..i + 1][..i] == s.cases[..i];
      if g.key !in s.compiled {
        assert g in s.cases;
        return None;
      }
      ghost var before := keys;
      for j := 0 to |g.conditions|
        invariant keys == before +
                          KeysOfSelection(CaseSelection(g.key, g.conditions[..j]), s.compiled[g.key].fingerprint)
      {
        assert g.conditions[..j + 1] == g.conditions[..j] + [g.conditions[j]];
        keys := keys + {LogicalKey(g.key.lane, g.key.caseId, g.conditions[j], s.compiled[g.key].fingerprint)};
      }
      assert g.conditions[..|g.conditions|] == g.conditions;
    }
    assert s.cases[..|s.cases|] == s.cases;
    r := Some(keys);
  }

  // ---------- The records of a run ----------

  /** A result carries its work item's identity; usage only if the provider reported it. */
  datatype RunResult = RunResult(item: WorkItem, provider: string, model: Option<string>, usage: Option<Usage>)

  function ModelOf(r: RunResult, models: seq<string>): string {
    if r.model.Some? then r.model.value else if models != [] then models[0] else "unknown"
  }

  function ItemCase(item: WorkItem): SelectedKey {
    SelectedKey(item.lane, item.caseId)
  }

  function RecordOf(r: RunResult, models: seq<string>, compiled: map<SelectedKey, EvalCase>): TokenRecord
    requires r.usage.Some? && ItemCase(r.item) in compiled
  {
    TokenRecord(r.provider, ModelOf(r, models), r.item.lane, r.item.caseId, r.item.condition,
                compiled[ItemCase(r.item)].fingerprint, r.usage.value)
  }

  ghost predicate AllCompiled(results: seq<RunResult>, compiled: map<SelectedKey, EvalCase>) {
    forall r | r in results && r.usage.Some? :: ItemCase(r.item) in compiled
  }

  function RawRecords(results: seq<RunResult>, models: seq<string>, compiled: map<SelectedKey,
                      EvalCase>): seq<TokenRecord>
    requires AllCompiled(results, compiled)
  {
    if results == [] then []
    else
      var init, last := results[..|results| - 1], results[|results| - 1];
      assert results == init + [last];
      RawRecords(init, models, compiled) + if last.usage.Some? then [RecordOf(last, models, compiled)] else []
  }

  /** The fingerprint of a case is looked up once and kept. `None`: a result of a case that was not compiled. */
  method BuildRawTokenRecords(results: seq<RunResult>, models: seq<string>, compiled: map<SelectedKey, EvalCase>)
    returns (r: Option<seq<TokenRecord>>)
    ensures r.Some? <==> AllCompiled(results, compiled)
    ensures r.Some? ==> r.value == RawRecords(results, models, compiled)
  {
    var fingerprints: map<SelectedKey, string> := map[];
    var records: seq<TokenRecord> := [];
    for i := 0 to |results|
      invariant AllCompiled(results[..i], compiled) && records == RawRecords(results[..i], models, compiled)
      invariant forall k | k in fingerprints :: k in compiled && fingerprints[k] == compiled[k].fingerprint
    {
      var result := results[i];
      assert results[..i + 1] == results[..i] + [result] && results[..i + 1][..i] == results[..i];
      if result.usage.None? {
        continue;
      }
      var key := ItemCase(result.item);
      if key !in fingerprints {
        if key !in compiled {
          assert result in results;
          return None;
        }
        fingerprints := fingerprints[key := compiled[key].fingerprint];
      }
      records := records + [TokenRecord(result.provider, ModelOf(result, models), result.item.lane, result.item.caseId,
                                        result.item.condition, fingerprints[key], result.usage.value)];
    }
    assert results[..|results|] == results;
    r := Some(records);
  }

  // ---------- Every record is current ----------

  /** Every result belongs to a work item of an active lane of the run. */
  ghost predicate ResultsOf(results: seq<RunResult>, s: Selected, catalogue: Catalogue, n: nat) {
    forall r | r in results :: r.item.lane in s.activeLanes && r.item in LaneItems(s, catalogue, r.item.lane, n)
  }

  lemma ItemIsCurrent(q: Request, s: Selected, n: nat, x: WorkItem)
    requires RunOf(q, s) && x.lane in s.activeLanes
    requires x in LaneItems(s, q.catalogue, x.lane, n)
    ensures ItemCase(x) in s.compiled && forall g | g in s.cases :: g.key in s.compiled
    ensures LogicalKey(x.lane, x.caseId, x.condition, s.compiled[ItemCase(x)].fingerprint) in
            ValidKeys(s.cases, s.compiled)
  {
    LaneItemsExact(q, s, x.lane, n, x);
    var g :| g in s.cases && g.key == ItemCase(x) && x.condition in g.conditions;
    ValidKeysMembers(s.cases, s.compiled, LogicalKey(x.lane, x.caseId, x.condition, s.compiled[g.key].fingerprint));
  }

  ghost predicate IsCurrent(x: WorkItem, s: Selected, valid: set<LogicalKey>) {
    && ItemCase(x) in s.compiled
    && LogicalKey(x.lane, x.caseId, x.condition, s.compiled[ItemCase(x)].fingerprint) in valid
  }

  lemma {:induction false} RecordsAreCurrent(s: Selected, results: seq<RunResult>, models: seq<string>,
                                             valid: set<LogicalKey>)
    requires forall r | r in results :: IsCurrent(r.item, s, valid)
    ensures AllCompiled(results, s.compiled)
    ensures forall r | r in RawRecords(results, models, s.compiled) ::
              && SnapshotKeyOf(r).logical in valid
              && exists x :: x in results && x.provider == r.provider
  {
    if results != [] {
      var init, last := results[..|results| - 1], results[|results| - 1];
      assert results == init + [last];
      RecordsAreCurrent(s, init, models, valid);
      assert IsCurrent(last.item, s, valid);
    }
  }

  lemma ReducedKeys(records: seq<TokenRecord>, le: (SnapshotKey, SnapshotKey) -> bool, row: SnapshotRow)
    requires row in Reduced(records, le)
    ensures exists r :: r in records && SnapshotKeyOf(r) == row.key
  {
    var keys := Sorting.Sort(KeysIn(records, SnapshotKeyOf), le);
    KeysInFacts(records, SnapshotKeyOf);
    Permuted(keys, KeysIn(records, SnapshotKeyOf));
    SnapshotRowKeys(records, keys);
    var i :| 0 <= i < |keys| && SnapshotRows(records, keys)[i] == row;
    assert keys[i] in keys;
  }

  lemma {:induction false} GroupMembers(rows: seq<SnapshotRow>, id: GroupKey)
    ensures forall r :: r in OfGroup(rows, id) <==> r in rows && GroupOf(r) == id
  {
  }

  /** The groups of a run: its reduced records by provider and model, each pair once. */
  ghost predicate GroupsOf(groups: seq<Group>, rows: seq<SnapshotRow>) {
    && (forall g | g in groups :: g.records == OfGroup(rows, g.id) && g.records != [])
    && (forall i, j | 0 <= i < j < |groups| :: groups[i].id != groups[j].id)
    && (forall r | r in rows :: exists g :: g in groups && g.id == GroupOf(r))
  }

  /** A run: what was asked for, what was selected, and the results of its work items by supported providers. */
  datatype Run = Run(request: Request, selected: Selected, trials: nat, results: seq<RunResult>, models: seq<string>)

  ghost predicate Produced(run: Run) {
    && RunOf(run.request, run.selected)
    && ResultsOf(run.results, run.selected, run.request.catalogue, run.trials)
    && forall r | r in run.results :: r.provider in SUPPORTED_PROVIDER_IDS
  }

  lemma SelectionsCompiled(run: Run)
    requires Produced(run)
    ensures forall g | g in run.selected.cases :: g.key in run.selected.compiled
  {
  }

  /** Every result of the run is of a compiled case and a current key. */
  lemma ProducedCurrent(run: Run)
    requires Produced(run)
    ensures forall r | r in run.results :: IsCurrent(r.item, run.selected, Valid(run))
    ensures AllCompiled(run.results, run.selected.compiled)
  {
    SelectionsCompiled(run);
    forall r | r in run.results
      ensures IsCurrent(r.item, run.selected, Valid(run))
    {
      ItemIsCurrent(run.request, run.selected, run.trials, r.item);
    }
    RecordsAreCurrent(run.selected, run.results, run.models, Valid(run));
  }

  ghost function Valid(run: Run): set<LogicalKey>
    requires Produced(run)
  {
    SelectionsCompiled(run);
    ValidKeys(run.selected.cases, run.selected.compiled)
  }

  ghost function RowsOf(run: Run, le: (SnapshotKey, SnapshotKey) -> bool): seq<SnapshotRow>
    requires Produced(run)
  {
    ProducedCurrent(run);
    Reduced(RawRecords(run.results, run.models, run.selected.compiled), le)
  }

  /** The groups of a run are valid, have a file each, and hold only keys that count as current. */
  lemma RunGroups(run: Run, le: (SnapshotKey, SnapshotKey) -> bool, groups: seq<Group>)
    requires Produced(run) && GroupsOf(groups, RowsOf(run, le))
    ensures (forall g | g in groups :: ValidGroup(g)) && DistinctFiles(groups)
    ensures forall g, r | g in groups && r in g.records :: r.key.logical in Valid(run)
  {
    ProducedCurrent(run);
    var raw := RawRecords(run.results, run.models, run.selected.compiled);
    RecordsAreCurrent(run.selected, run.results, run.models, Valid(run));
    forall g | g in groups
      ensures ValidGroup(g) && g.id.provider in SUPPORTED_PROVIDER_IDS
      ensures forall r | r in g.records :: r.key.logical in Valid(run)
    {
      RunGroupsValid(raw, le, g.id);
      assert g == Group(g.id, OfGroup(Reduced(raw, le), g.id));
      GroupMembers(Reduced(raw, le), g.id);
      forall r | r in g.records
        ensures r.key.logical in Valid(run) && g.id.provider in SUPPORTED_PROVIDER_IDS
      {
        ReducedKeys(raw, le, r);
        var record :| record in raw && SnapshotKeyOf(record) == r.key;
      }
      assert g.records[0] in g.records;
    }
    SupportedDistinctFiles(groups);
  }

  /** What a check sees in the file of a group after the run's update. */
  ghost function SnapshotAfter(run: Run, groups: seq<Group>, files: Files, codec: Codec, createdAtMs: nat,
                               i: nat): seq<Comparable>
    requires Produced(run) && i < |groups|
  {
    SnapshotOf(Stored(UpdatedAll(files, groups, codec, createdAtMs), FileName(groups[i].id), codec, Some(Valid(run))))
  }

  /** A run that updates its snapshots and is then checked, whatever the files held before: no duplicate key on either
      side, and every one of its records comes out unchanged with difference zero, for every threshold. */
  lemma EveryRecordUnchanged(run: Run, le: (SnapshotKey, SnapshotKey) -> bool, groups: seq<Group>, files: Files,
                             codec: Codec,
                             createdAtMs: nat, threshold: real, i: nat, r: SnapshotRow)
    requires Produced(run) && GroupsOf(groups, RowsOf(run, le)) && Faithful(codec) && threshold >= 0.0
    requires i < |groups| && r in groups[i].records
    ensures
      var current, snapshot := CurrentOf(groups[i]), SnapshotAfter(run, groups, files, codec, createdAtMs, i);
      && DistinctRecords(current) && DistinctRecords(snapshot) && r.key in TotalsOf(current)
      && var c := Classify(r.key, Lookup(TotalsOf(current), r.key), Lookup(TotalsOf(snapshot), r.key), threshold);
         c.outcome == Unchanged && c.deltaTokens == Some(0)
  {
    RunGroups(run, le, groups);
    assert groups[i] in groups;
    CheckAfterUpdate(files, groups, codec, createdAtMs, i, Valid(run), threshold, r);
  }

  lemma RowOf(group: Group, key: SnapshotKey) returns (r: SnapshotRow)
    requires key in TotalsOf(CurrentOf(group))
    ensures r in group.records && r.key == key
  {
    TotalsFacts(CurrentOf(group));
    var k :| 0 <= k < |group.records| && CurrentOf(group)[k].key == key;
    r := group.records[k];
  }
}
