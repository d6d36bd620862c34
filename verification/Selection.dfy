/** Which cases a run selects, which work items its lanes then have, and which snapshot keys count as current. */
module Selection {
  import opened Collections
  import opened Sorting

  const LANES := ["prompt", "execution", "dogfood"]
  const CONDITIONS := ["none", "self-load", "preloaded", "stale"]

  /** `fingerprint` is the hash of the case's content. */
  datatype EvalCase = EvalCase(lane: string, id: string, conditions: seq<string>, fingerprint: string)

  datatype SelectedKey = SelectedKey(lane: string, caseId: string)

  datatype MatrixEntry = MatrixEntry(key: SelectedKey, condition: string)

  datatype CaseSelection = CaseSelection(key: SelectedKey, conditions: seq<string>)

  datatype Selected = Selected(cases: seq<CaseSelection>, compiled: map<SelectedKey, EvalCase>,
                               activeLanes: seq<string>,
                               activeConditions: seq<string>)

  datatype SelectError =
    | UnknownCase(id: string)
    | NoCaseMatched
    | EmptyId
    | DuplicateCase(key: SelectedKey)
    | DuplicateCondition(key: SelectedKey)
    | NothingMatched

  /** All cases, filed by lane. */
  type Catalogue = string -> seq<EvalCase>

  ghost predicate WellFiled(catalogue: Catalogue) {
    forall lane, c | c in catalogue(lane) :: c.lane == lane
  }

  // ---------- The printed key ----------

  function Label(k: SelectedKey): string {
    k.lane + "::" + k.caseId
  }

  /** The printed selection key determines lane and case. */
  lemma LabelInjective(a: SelectedKey, b: SelectedKey)
    requires a.lane in LANES && b.lane in LANES && Label(a) == Label(b)
    ensures a == b
  {
    var s := Label(a);
    assert s[0] == a.lane[0] == b.lane[0];
    assert a.lane == b.lane;
    assert a.caseId == s[|a.lane| + 2..] == b.caseId;
  }

  // ---------- What is selected ----------

  function KeyOf(c: EvalCase): SelectedKey {
    SelectedKey(c.lane, c.id)
  }

  /** Prompt cases run under every condition, others under their own if they list any. */
  function ConditionsOf(c: EvalCase): seq<string> {
    if c.lane == "prompt" || c.conditions == [] then CONDITIONS else c.conditions
  }

  function Available(catalogue: Catalogue, lanes: seq<string>): seq<EvalCase> {
    if lanes == [] then [] else Available(catalogue, lanes[..|lanes| - 1]) + catalogue(lanes[|lanes| - 1])
  }

  predicate Wanted(caseIds: seq<string>, c: EvalCase) {
    caseIds == [] || c.id in caseIds
  }

  function KeepWanted(cases: seq<EvalCase>, caseIds: seq<string>): (r: seq<EvalCase>)
    ensures forall c :: c in r <==> c in cases && Wanted(caseIds, c)
  {
    if cases == [] then []
    else
      var init, last := cases[..|cases| - 1], cases[|cases| - 1];
      assert cases == init + [last];
      KeepWanted(init, caseIds) + if Wanted(caseIds, last) then [last] else []
  }

  function Chosen(catalogue: Catalogue, lanes: seq<string>, caseIds: seq<string>): seq<EvalCase> {
    KeepWanted(Available(catalogue, lanes), caseIds)
  }

  lemma {:induction false} AvailableMembers(catalogue: Catalogue, lanes: seq<string>)
    ensures forall c :: c in Available(catalogue, lanes) <==> exists lane :: lane in lanes && c in catalogue(lane)
  {
    if lanes != [] {
      var init, last := lanes[..|lanes| - 1], lanes[|lanes| - 1];
      AvailableMembers(catalogue, init);
      assert lanes == init + [last];
    }
  }

  // ---------- The matrix ----------

  /** The entries of one case whose condition is requested, in the case's order. */
  function EntriesOf(key: SelectedKey, conditions: seq<string>, requested: seq<string>): (r: seq<MatrixEntry>)
    ensures forall e :: e in r <==> e.key == key && e.condition in conditions && e.condition in requested
  {
    if conditions == [] then []
    else
      var init, last := conditions[..|conditions| - 1], conditions[|conditions| - 1];
      assert conditions == init + [last];
      EntriesOf(key, init, requested) + if last in requested then [MatrixEntry(key, last)] else []
  }

  function Matrix(cases: seq<EvalCase>, requested: seq<string>): seq<MatrixEntry> {
    if cases == [] then []
    else
      var last := cases[|cases| - 1];
      Matrix(cases[..|cases| - 1], requested) + EntriesOf(KeyOf(last), ConditionsOf(last), requested)
  }

  lemma {:induction false} MatrixMembers(cases: seq<EvalCase>, requested: seq<string>)
    ensures forall e :: e in Matrix(cases, requested) <==>
              exists c :: c in cases && e.key == KeyOf(c) && e.condition in ConditionsOf(c) && e.condition in requested
  {
    if cases != [] {
      var init, last := cases[..|cases| - 1], cases[|cases| - 1];
      MatrixMembers(init, requested);
      assert cases == init + [last];
    }
  }

  function EntryKey(e: MatrixEntry): SelectedKey { e.key }

  /** The conditions of a key in the matrix, each once, in order of appearance. */
  function ConditionsAt(entries: seq<MatrixEntry>, key: SelectedKey): seq<string> {
    if entries == [] then []
    else
      var last := entries[|entries| - 1];
      var before := ConditionsAt(entries[..|entries| - 1], key);
      if last.key == key && last.condition !in before then before + [last.condition] else before
  }

  lemma {:induction false} ConditionsAtMembers(entries: seq<MatrixEntry>, key: SelectedKey)
    ensures forall x :: x in ConditionsAt(entries, key) <==> MatrixEntry(key, x) in entries
    ensures Distinct(ConditionsAt(entries, key))
    ensures ConditionsAt(entries, key) != [] <==> key in Map(EntryKey, entries)
  {
    if entries != [] {
      var init, last := entries[..|entries| - 1], entries[|entries| - 1];
      ConditionsAtMembers(init, key);
      assert entries == init + [last];
      assert Map(EntryKey, entries) == Map(EntryKey, init) + [last.key];
      if last.key == key && last.condition !in ConditionsAt(init, key) {
        DistinctSnoc(ConditionsAt(init, key), last.condition);
      }
    }
  }

  // ---------- The selection, stated ----------

  ghost predicate DistinctKeys(cases: seq<EvalCase>) {
    forall i, j | 0 <= i < j < |cases| :: KeyOf(cases[i]) != KeyOf(cases[j])
  }

  /** A condition list of its own holds no condition twice. */
  ghost predicate OrderlyConditions(c: EvalCase) {
    c.lane == "prompt" || Distinct(c.conditions)
  }

  /** The selection of `cases` under the requested conditions. */
  ghost predicate Selects(s: Selected, cases: seq<EvalCase>, requested: seq<string>) {
    && CompiledFrom(s.compiled, cases)
    && (forall g | g in s.cases ::
          && g.key in s.compiled && g.conditions != [] && Distinct(g.conditions)
          && forall x :: x in g.conditions <==> x in ConditionsOf(s.compiled[g.key]) && x in requested)
    && (forall c, x | c in cases && x in ConditionsOf(c) && x in requested ::
          exists g :: g in s.cases && g.key == KeyOf(c))
    && (forall i, j | 0 <= i < j < |s.cases| :: s.cases[i].key != s.cases[j].key)
    && (forall x :: x in s.activeConditions <==>
          x in CONDITIONS && x in requested && exists c :: c in cases && x in ConditionsOf(c))
    && Distinct(s.activeConditions) && Distinct(s.activeLanes)
    && (forall l :: l in s.activeLanes <==>
          l in LANES && exists g :: g in s.cases && g.key.lane == l)
  }

  /** What a run is asked for: lanes, conditions and case ids, and where its cases come from. */
  datatype Request = Request(catalogue: Catalogue, lanes: seq<string>, requested: seq<string>, caseIds: seq<string>)

  function ChosenBy(q: Request): seq<EvalCase> {
    Chosen(q.catalogue, q.lanes, q.caseIds)
  }

  ghost predicate Selectable(q: Request) {
    AllKnown(q.caseIds, Available(q.catalogue, q.lanes)) && ChosenBy(q) != [] && Compilable(ChosenBy(q), q.requested)
  }

  // ---------- The loops ----------

  ghost predicate CompiledFrom(compiled: map<SelectedKey, EvalCase>, cases: seq<EvalCase>) {
    && (forall k :: k in compiled <==> exists c :: c in cases && KeyOf(c) == k)
    && (forall c | c in cases :: compiled[KeyOf(c)] == c)
  }

  method CompileCases(cases: seq<EvalCase>) returns (r: Result<map<SelectedKey, EvalCase>, SelectError>)
    ensures r.Ok? <==> DistinctKeys(cases) && forall c | c in cases :: c.id != ""
    ensures r.Ok? ==> CompiledFrom(r.value, cases)
  {
    var compiled: map<SelectedKey, EvalCase> := map[];
    for i := 0 to |cases|
      invariant DistinctKeys(cases[..i]) && forall c | c in cases[..i] :: c.id != ""
      invariant forall k :: k in compiled <==> exists c :: c in cases[..i] && KeyOf(c) == k
      invariant forall c | c in cases[..i] :: compiled[KeyOf(c)] == c
    {
      var c := cases[i];
      assert cases[..i + 1] == cases[..i] + [c];
      if c.id == "" {
        assert c in cases;
        return Err(EmptyId);
      }
      if KeyOf(c) in compiled {
        ghost var j :| 0 <= j < i && KeyOf(cases[j]) == KeyOf(c);
        return Err(DuplicateCase(KeyOf(c)));
      }
      assert DistinctKeys(cases[..i + 1]) by {
        forall j | 0 <= j < i
          ensures KeyOf(cases[j]) != KeyOf(c)
        {
          assert cases[j] in cases[..i];
        }
      }
      compiled := compiled[KeyOf(c) := c];
    }
    assert cases[..|cases|] == cases;
    r := Ok(compiled);
  }

  /** `None`: a condition is listed twice. */
  method ResolveConditionList(c: EvalCase) returns (r: Option<seq<string>>)
    ensures r.Some? <==> OrderlyConditions(c)
    ensures r.Some? ==> r.value == ConditionsOf(c)
  {
    if c.lane == "prompt" || |c.conditions| == 0 {
      return Some(CONDITIONS);
    }
    for i := 0 to |c.conditions|
      invariant Distinct(c.conditions[..i])
    {
      assert c.conditions[..i + 1] == c.conditions[..i] + [c.conditions[i]];
      if c.conditions[i] in c.conditions[..i] {
        ghost var j :| 0 <= j < i && c.conditions[j] == c.conditions[i];
        return None;
      }
      DistinctSnoc(c.conditions[..i], c.conditions[i]);
    }
    assert c.conditions[..|c.conditions|] == c.conditions;
    r := Some(c.conditions);
  }

  method PushEntries(key: SelectedKey, conditions: seq<string>, requested: seq<string>, entries: seq<MatrixEntry>)
    returns (r: seq<MatrixEntry>)
    ensures r == entries + EntriesOf(key, conditions, requested)
  {
    r := entries;
    for i := 0 to |conditions|
      invariant r == entries + EntriesOf(key, conditions[..i], requested)
    {
      assert conditions[..i + 1][..i] == conditions[..i];
      if conditions[i] in requested {
        r := r + [MatrixEntry(key, conditions[i])];
      }
    }
    assert conditions[..|conditions|] == conditions;
  }

  /** The matrix for one provider, filtered by the requested conditions. */
  method BuildMatrix(cases: seq<EvalCase>, requested: seq<string>) returns (r: Result<seq<MatrixEntry>, SelectError>)
    ensures r.Ok? <==> forall c | c in cases :: OrderlyConditions(c)
    ensures r.Ok? ==> r.value == Matrix(cases, requested)
  {
    var entries: seq<MatrixEntry> := [];
    for i := 0 to |cases|
      invariant entries == Matrix(cases[..i], requested)
      invariant forall c | c in cases[..i] :: OrderlyConditions(c)
    {
      var c := cases[i];
      assert cases[..i + 1] == cases[..i] + [c] && cases[..i + 1][..i] == cases[..i];
      var conditions := ResolveConditionList(c);
      if conditions.None? {
        assert c in cases;
        return Err(DuplicateCondition(KeyOf(c)));
      }
      entries := PushEntries(KeyOf(c), conditions.value, requested, entries);
    }
    assert cases[..|cases|] == cases;
    r := Ok(entries);
  }

  ghost predicate Grouped(keys: seq<SelectedKey>, groups: map<SelectedKey, seq<string>>, entries: seq<MatrixEntry>) {
    keys == Uniq(Map(EntryKey, entries)) && forall k :: GroupFits(groups, entries, k)
  }

  ghost predicate GroupFits(groups: map<SelectedKey, seq<string>>, entries: seq<MatrixEntry>, k: SelectedKey) {
    if k in groups then groups[k] == ConditionsAt(entries, k) != [] else ConditionsAt(entries, k) == []
  }

  lemma EntryAppend(entries: seq<MatrixEntry>, e: MatrixEntry, k: SelectedKey)
    ensures
      var before := ConditionsAt(entries, k);
      ConditionsAt(entries + [e], k) == if e.key == k && e.condition !in before then before + [e.condition] else before
  {
    assert (entries + [e])[..|entries|] == entries;
  }

  lemma KeyAppend(entries: seq<MatrixEntry>, e: MatrixEntry)
    ensures
      var keys := Map(EntryKey, entries);
      Uniq(Map(EntryKey, entries + [e])) == if e.key in keys then Uniq(keys) else Uniq(keys) + [e.key]
  {
    var keys := Map(EntryKey, entries);
    assert Map(EntryKey, entries + [e]) == keys + [e.key];
    assert (keys + [e.key])[..|keys|] == keys;
  }

  lemma GroupedStep(keys: seq<SelectedKey>, groups: map<SelectedKey, seq<string>>, entries: seq<MatrixEntry>,
                    e: MatrixEntry)
    requires Grouped(keys, groups, entries)
    ensures e.key !in groups ==> Grouped(keys + [e.key], groups[e.key := [e.condition]], entries + [e])
    ensures e.key in groups ==>
              Grouped(keys, if e.condition in groups[e.key] then groups
                            else groups[e.key := groups[e.key] + [e.condition]], entries + [e])
  {
    ConditionsAtMembers(entries, e.key);
    KeyAppend(entries, e);
    assert GroupFits(groups, entries, e.key);
    var after :=
      if e.key !in groups then groups[e.key := [e.condition]]
      else if e.condition in groups[e.key] then groups
      else groups[e.key := groups[e.key] + [e.condition]];
    forall k
      ensures GroupFits(after, entries + [e], k)
    {
      assert GroupFits(groups, entries, k);
      EntryAppend(entries, e, k);
    }
  }

  method GroupEntries(entries: seq<MatrixEntry>) returns (keys: seq<SelectedKey>, groups: map<SelectedKey, seq<string>>)
    ensures Grouped(keys, groups, entries)
  {
    keys, groups := [], map[];
    for i := 0 to |entries|
      invariant Grouped(keys, groups, entries[..i])
    {
      var e := entries[i];
      GroupedStep(keys, groups, entries[..i], e);
      assert entries[..i + 1] == entries[..i] + [e];
      if e.key !in groups {
        keys, groups := keys + [e.key], groups[e.key := [e.condition]];
      } else if e.condition !in groups[e.key] {
        groups := groups[e.key := groups[e.key] + [e.condition]];
      }
    }
    assert entries[..|entries|] == entries;
  }

  type CaseOrder = (SelectedKey, SelectedKey) -> bool
  type ConditionOrder = (string, string) -> bool

  /** Selections are in order, and so are the conditions of each. */
  ghost predicate Arranged(cases: seq<CaseSelection>, leKey: CaseOrder, leCondition: ConditionOrder) {
    && (Preorder(leKey) ==> forall i, j | 0 <= i < j < |cases| :: leKey(cases[i].key, cases[j].key))
    && (Preorder(leCondition) ==> forall g | g in cases :: Sorted(g.conditions, leCondition))
  }

  /** The active lanes and conditions are in the order of the fixed lists. */
  ghost predicate InFixedOrder(s: Selected) {
    && (exists present :: s.activeLanes == InOrder(LANES, present))
    && (exists present :: s.activeConditions == InOrder(CONDITIONS, present))
  }

  ghost predicate Emitted(cases: seq<CaseSelection>, keys: seq<SelectedKey>, entries: seq<MatrixEntry>,
                          le: ConditionOrder) {
    |cases| == |keys| && forall k | 0 <= k < |keys| :: EmittedAt(cases[k], keys[k], entries, le)
  }

  ghost predicate EmittedAt(g: CaseSelection, key: SelectedKey, entries: seq<MatrixEntry>, le: ConditionOrder) {
    g.key == key && IsSelection(g, entries) && (Preorder(le) ==> Sorted(g.conditions, le))
  }

  lemma EmittedStep(cases: seq<CaseSelection>, keys: seq<SelectedKey>, i: nat, g: CaseSelection,
                    entries: seq<MatrixEntry>, le: ConditionOrder)
    requires i < |keys| && Emitted(cases, keys[..i], entries, le) && EmittedAt(g, keys[i], entries, le)
    ensures Emitted(cases + [g], keys[..i + 1], entries, le)
  {
  }

  lemma EmittedArranged(cases: seq<CaseSelection>, keys: seq<SelectedKey>, entries: seq<MatrixEntry>, leKey: CaseOrder,
                        leCondition: ConditionOrder)
    requires Emitted(cases, Sort(keys, leKey), entries, leCondition)
    ensures Arranged(cases, leKey, leCondition)
  {
    if Preorder(leKey) {
      SortSorted(keys, leKey);
      assert forall i, j | 0 <= i < j < |cases| :: leKey(Sort(keys, leKey)[i], Sort(keys, leKey)[j]);
    }
    assert forall k | 0 <= k < |cases| :: EmittedAt(cases[k], Sort(keys, leKey)[k], entries, leCondition);
  }

  /** The selections in the order of `leKey`, each with its conditions in the order of `leCondition`. */
  method EmitSelections(keys: seq<SelectedKey>, groups: map<SelectedKey, seq<string>>, entries: seq<MatrixEntry>,
                        leKey: CaseOrder, leCondition: ConditionOrder)
    returns (cases: seq<CaseSelection>)
    requires Grouped(keys, groups, entries)
    ensures Emitted(cases, Sort(keys, leKey), entries, leCondition)
  {
    var sorted := Sort(keys, leKey);
    Permuted(sorted, keys);
    cases := [];
    for i := 0 to |sorted|
      invariant Emitted(cases, sorted[..i], entries, leCondition)
    {
      assert sorted[i] in sorted;
      KeyHasConditions(entries, groups, sorted[i], keys);
      SortedSelection(sorted[i], entries, leCondition);
      var g := CaseSelection(sorted[i], Sort(groups[sorted[i]], leCondition));
      EmittedStep(cases, sorted, i, g, entries, leCondition);
      cases := cases + [g];
    }
    assert sorted[..|sorted|] == sorted;
  }

  lemma EmittedFacts(cases: seq<CaseSelection>, keys: seq<SelectedKey>, entries: seq<MatrixEntry>, leKey: CaseOrder,
                     leCondition: ConditionOrder)
    requires keys == Uniq(Map(EntryKey, entries)) && Emitted(cases, Sort(keys, leKey), entries, leCondition)
    ensures forall i, j | 0 <= i < j < |cases| :: cases[i].key != cases[j].key
    ensures forall g | g in cases :: IsSelection(g, entries)
    ensures forall e | e in entries :: exists g :: g in cases && g.key == e.key
  {
    var sorted := Sort(keys, leKey);
    UniqFacts(Map(EntryKey, entries));
    SortedKeysFacts(keys, leKey);
    assert forall k | 0 <= k < |sorted| :: EmittedAt(cases[k], sorted[k], entries, leCondition);
    forall e | e in entries
      ensures exists g :: g in cases && g.key == e.key
    {
      KeyListed(entries, e);
      var k :| 0 <= k < |sorted| && sorted[k] == e.key;
      assert cases[k] in cases;
    }
  }

  /** A selection holds exactly the conditions the matrix has for its key. */
  ghost predicate IsSelection(g: CaseSelection, entries: seq<MatrixEntry>) {
    g.conditions != [] && Distinct(g.conditions) && forall x :: x in g.conditions <==> MatrixEntry(g.key, x) in entries
  }

  lemma KeyListed(entries: seq<MatrixEntry>, e: MatrixEntry)
    requires e in entries
    ensures e.key in Uniq(Map(EntryKey, entries))
  {
    var i :| 0 <= i < |entries| && entries[i] == e;
    assert Map(EntryKey, entries)[i] == e.key;
    UniqMember(Map(EntryKey, entries), e.key);
  }

  lemma KeyHasConditions(entries: seq<MatrixEntry>, groups: map<SelectedKey, seq<string>>, k: SelectedKey,
                         keys: seq<SelectedKey>)
    requires Grouped(keys, groups, entries) && k in keys
    ensures k in groups && groups[k] == ConditionsAt(entries, k) != []
  {
    UniqMember(Map(EntryKey, entries), k);
    ConditionsAtMembers(entries, k);
    assert GroupFits(groups, entries, k);
  }

  lemma SortedSelection(k: SelectedKey, entries: seq<MatrixEntry>, leCondition: ConditionOrder)
    requires ConditionsAt(entries, k) != []
    ensures EmittedAt(CaseSelection(k, Sort(ConditionsAt(entries, k), leCondition)), k, entries, leCondition)
  {
    if Preorder(leCondition) {
      SortSorted(ConditionsAt(entries, k), leCondition);
    }
    ConditionsAtMembers(entries, k);
    SortedKeysFacts(ConditionsAt(entries, k), leCondition);
    assert ConditionsAt(entries, k)[0] in ConditionsAt(entries, k);
  }

  ghost predicate AllKnown(caseIds: seq<string>, available: seq<EvalCase>) {
    forall id | id in caseIds :: exists c :: c in available && c.id == id
  }

  method CheckCaseIds(caseIds: seq<string>, available: seq<EvalCase>) returns (unknown: Option<string>)
    ensures unknown.None? <==> AllKnown(caseIds, available)
  {
    var ids := set c | c in available :: c.id;
    for i := 0 to |caseIds|
      invariant AllKnown(caseIds[..i], available)
    {
      assert caseIds[..i + 1] == caseIds[..i] + [caseIds[i]];
      if caseIds[i] !in ids {
        assert caseIds[i] in caseIds;
        return Some(caseIds[i]);
      }
    }
    assert caseIds[..|caseIds|] == caseIds;
    unknown := None;
  }

  /** Cases, conditions and lanes of a run, and how many items to expect. */
  method BuildCaseSelections(q: Request, leKey: CaseOrder, leCondition: ConditionOrder, totalTrials: nat)
    returns (r: Result<Selected, SelectError>, totalInvocations: nat)
    ensures r.Ok? <==> Selectable(q)
    ensures r.Ok? ==> Selects(r.value, ChosenBy(q), q.requested) && Arranged(r.value.cases, leKey, leCondition)
    ensures r.Ok? ==> InFixedOrder(r.value)
    ensures r.Ok? ==> totalInvocations == |Matrix(ChosenBy(q), q.requested)| * totalTrials
  {
    totalInvocations := 0;
    var available := Available(q.catalogue, q.lanes);
    var unknown := CheckCaseIds(q.caseIds, available);
    if unknown.Some? {
      return Err(UnknownCase(unknown.value)), 0;
    }
    var chosen := KeepWanted(available, q.caseIds);
    if |chosen| == 0 {
      return Err(NoCaseMatched), 0;
    }
    r, totalInvocations := SelectFrom(chosen, q.requested, leKey, leCondition, totalTrials);
  }

  ghost predicate Compilable(cases: seq<EvalCase>, requested: seq<string>) {
    && DistinctKeys(cases)
    && (forall c | c in cases :: c.id != "" && OrderlyConditions(c))
    && Matrix(cases, requested) != []
  }

  /** The compiled cases and the matrix, or the first reason against them. */
  method Compile(cases: seq<EvalCase>, requested: seq<string>)
    returns (r: Result<(map<SelectedKey, EvalCase>, seq<MatrixEntry>), SelectError>)
    ensures r.Ok? <==> Compilable(cases, requested)
    ensures r.Ok? ==> CompiledFrom(r.value.0, cases) && r.value.1 == Matrix(cases, requested)
  {
    var compiled := CompileCases(cases);
    if compiled.Err? {
      return Err(compiled.error);
    }
    var entries := BuildMatrix(cases, requested);
    if entries.Err? {
      return Err(entries.error);
    }
    if |entries.value| == 0 {
      return Err(NothingMatched);
    }
    r := Ok((compiled.value, entries.value));
  }

  method SelectFrom(chosen: seq<EvalCase>, requested: seq<string>, leKey: CaseOrder, leCondition: ConditionOrder,
                    totalTrials: nat)
    returns (r: Result<Selected, SelectError>, totalInvocations: nat)
    ensures r.Ok? <==> Compilable(chosen, requested)
    ensures r.Ok? ==> Selects(r.value, chosen, requested) && Arranged(r.value.cases, leKey, leCondition)
    ensures r.Ok? ==> InFixedOrder(r.value)
    ensures r.Ok? ==> totalInvocations == |Matrix(chosen, requested)| * totalTrials
  {
    var compiled := Compile(chosen, requested);
    if compiled.Err? {
      return Err(compiled.error), 0;
    }
    var (cases, entries) := compiled.value;
    var s := Present(chosen, requested, cases, entries, leKey, leCondition);
    totalInvocations := CountInvocations(entries, totalTrials);
    r := Ok(s);
  }

  /** What is read off the matrix. */
  ghost predicate Assembled(s: Selected, entries: seq<MatrixEntry>) {
    && (forall i, j | 0 <= i < j < |s.cases| :: s.cases[i].key != s.cases[j].key)
    && (forall g | g in s.cases :: IsSelection(g, entries))
    && (forall e | e in entries :: exists g :: g in s.cases && g.key == e.key)
    && s.activeLanes == InOrder(LANES, set e | e in entries :: e.key.lane)
    && s.activeConditions == InOrder(CONDITIONS, set e | e in entries :: e.condition)
  }

  method Assemble(entries: seq<MatrixEntry>, compiled: map<SelectedKey, EvalCase>, leKey: CaseOrder,
                  leCondition: ConditionOrder)
    returns (s: Selected)
    ensures Assembled(s, entries) && s.compiled == compiled && Arranged(s.cases, leKey, leCondition)
  {
    var keys, groups := GroupEntries(entries);
    var cases := EmitSelections(keys, groups, entries, leKey, leCondition);
    EmittedFacts(cases, keys, entries, leKey, leCondition);
    EmittedArranged(cases, keys, entries, leKey, leCondition);
    s := Selected(cases, compiled, InOrder(LANES, set e | e in entries :: e.key.lane),
                  InOrder(CONDITIONS, set e | e in entries :: e.condition));
  }

  method CountInvocations(entries: seq<MatrixEntry>, totalTrials: nat) returns (count: nat)
    ensures count == |entries| * totalTrials
  {
    count := 0;
    for i := 0 to |entries|
      invariant count == i * totalTrials
    {
      count := count + totalTrials;
    }
  }

  method Present(ghost cases: seq<EvalCase>, ghost requested: seq<string>, compiled: map<SelectedKey, EvalCase>,
                 entries: seq<MatrixEntry>, leKey: CaseOrder, leCondition: ConditionOrder)
    returns (s: Selected)
    requires entries == Matrix(cases, requested) && CompiledFrom(compiled, cases)
    ensures Selects(s, cases, requested) && Arranged(s.cases, leKey, leCondition) && InFixedOrder(s)
  {
    s := Assemble(entries, compiled, leKey, leCondition);
    SelectionHolds(s, cases, requested, entries);
  }

  lemma SelectionHolds(s: Selected, cases: seq<EvalCase>, requested: seq<string>, entries: seq<MatrixEntry>)
    requires entries == Matrix(cases, requested) && Assembled(s, entries)
    requires CompiledFrom(s.compiled, cases)
    ensures Selects(s, cases, requested)
  {
    CasesHold(s, cases, requested, entries);
    ActiveConditionsHold(s.activeConditions, cases, requested, entries);
    ActiveLanesHold(s.activeLanes, s.cases, entries);
  }

  lemma EntryOf(cases: seq<EvalCase>, requested: seq<string>, e: MatrixEntry) returns (c: EvalCase)
    requires e in Matrix(cases, requested)
    ensures c in cases && e.key == KeyOf(c) && e.condition in ConditionsOf(c) && e.condition in requested
  {
    MatrixMembers(cases, requested);
    c :| c in cases && e.key == KeyOf(c) && e.condition in ConditionsOf(c) && e.condition in requested;
  }

  lemma HasEntry(cases: seq<EvalCase>, requested: seq<string>, c: EvalCase, x: string)
    requires c in cases && x in ConditionsOf(c) && x in requested
    ensures MatrixEntry(KeyOf(c), x) in Matrix(cases, requested)
  {
    MatrixMembers(cases, requested);
    assert MatrixEntry(KeyOf(c), x).key == KeyOf(c);
  }

  lemma CasesHold(s: Selected, cases: seq<EvalCase>, requested: seq<string>, entries: seq<MatrixEntry>)
    requires entries == Matrix(cases, requested)
    requires CompiledFrom(s.compiled, cases)
    requires forall g | g in s.cases :: IsSelection(g, entries)
    requires forall e | e in entries :: exists g :: g in s.cases && g.key == e.key
    ensures forall g | g in s.cases ::
              && g.key in s.compiled && g.conditions != [] && Distinct(g.conditions)
              && forall x :: x in g.conditions <==> x in ConditionsOf(s.compiled[g.key]) && x in requested
    ensures forall c, x | c in cases && x in ConditionsOf(c) && x in requested ::
              exists g :: g in s.cases && g.key == KeyOf(c)
  {
    forall g | g in s.cases
      ensures g.key in s.compiled
      ensures forall x :: x in g.conditions <==> x in ConditionsOf(s.compiled[g.key]) && x in requested
    {
      assert IsSelection(g, entries);
      assert g.conditions[0] in g.conditions;
      var c := EntryOf(cases, requested, MatrixEntry(g.key, g.conditions[0]));
      forall x
        ensures x in g.conditions <==> x in ConditionsOf(c) && x in requested
      {
        if x in g.conditions {
          var d := EntryOf(cases, requested, MatrixEntry(g.key, x));
        }
        if x in ConditionsOf(c) && x in requested {
          HasEntry(cases, requested, c, x);
        }
      }
    }
    forall c, x | c in cases && x in ConditionsOf(c) && x in requested
      ensures exists g :: g in s.cases && g.key == KeyOf(c)
    {
      HasEntry(cases, requested, c, x);
    }
  }

  lemma ActiveConditionsHold(active: seq<string>, cases: seq<EvalCase>, requested: seq<string>,
                             entries: seq<MatrixEntry>)
    requires entries == Matrix(cases, requested)
    requires active == InOrder(CONDITIONS, set e | e in entries :: e.condition)
    ensures Distinct(active)
    ensures forall x :: x in active <==>
              x in CONDITIONS && x in requested && exists c :: c in cases && x in ConditionsOf(c)
  {
    var present := set e | e in entries :: e.condition;
    InOrderMembers(CONDITIONS, present);
    InOrderDistinct(CONDITIONS, present);
    forall x
      ensures x in present <==> x in requested && exists c :: c in cases && x in ConditionsOf(c)
    {
      if e :| e in entries && e.condition == x {
        var c := EntryOf(cases, requested, e);
      }
      if c :| c in cases && x in ConditionsOf(c) && x in requested {
        HasEntry(cases, requested, c, x);
      }
    }
  }

  lemma ActiveLanesHold(active: seq<string>, cases: seq<CaseSelection>, entries: seq<MatrixEntry>)
    requires forall g | g in cases :: IsSelection(g, entries)
    requires forall e | e in entries :: exists g :: g in cases && g.key == e.key
    requires active == InOrder(LANES, set e | e in entries :: e.key.lane)
    ensures Distinct(active)
    ensures forall l :: l in active <==> l in LANES && exists g :: g in cases && g.key.lane == l
  {
    var present := set e | e in entries :: e.key.lane;
    InOrderMembers(LANES, present);
    InOrderDistinct(LANES, present);
    forall l
      ensures l in present <==> exists g :: g in cases && g.key.lane == l
    {
      if g :| g in cases && g.key.lane == l {
        assert IsSelection(g, entries) && g.conditions[0] in g.conditions;
        assert MatrixEntry(g.key, g.conditions[0]) in entries;
      }
    }
  }
}
