/** What a run selects, in terms of what was asked for, and what its raw token records hold. */
module SelectionMeaning {
  import opened Collections
  import opened Sublists
  import opened Selection
  import opened WorkItems
  import opened RunCheck
  import opened TokenAggregation

  /** The case is of a requested lane, and wanted if any ids were given. */
  ghost predicate AskedFor(q: Request, lane: string, c: EvalCase) {
    lane in q.lanes && c in q.catalogue(lane) && (q.caseIds != [] ==> c.id in q.caseIds)
  }

  /** Prompt cases run under each of the four conditions, and so do cases that list none; others under their own. */
  ghost predicate RunsUnder(c: EvalCase, condition: string) {
    if c.lane == "prompt" || c.conditions == [] then condition in ["none", "self-load", "preloaded", "stale"]
    else condition in c.conditions
  }

  /** The cases a selection is made from are those asked for. */
  lemma ChosenIff(q: Request, c: EvalCase)
    ensures c in ChosenBy(q) <==> exists lane :: AskedFor(q, lane, c)
  {
    AvailableMembers(q.catalogue, q.lanes);
    if c in ChosenBy(q) {
      var lane :| lane in q.lanes && c in q.catalogue(lane);
      assert AskedFor(q, lane, c);
    }
    if lane :| AskedFor(q, lane, c) {
      assert lane in q.lanes && c in q.catalogue(lane);
    }
  }

  ghost predicate Known(q: Request, id: string) {
    exists lane, c :: lane in q.lanes && c in q.catalogue(lane) && c.id == id
  }

  ghost predicate Combines(q: Request, lane: string, c: EvalCase, condition: string) {
    AskedFor(q, lane, c) && RunsUnder(c, condition) && condition in q.requested
  }

  /** A run can be selected exactly if every id given is known, no case is asked for twice, every case asked for has an
      id and an orderly list of conditions, and at least one of them runs under a requested condition. */
  lemma SelectableIff(q: Request)
    ensures Selectable(q) <==>
            && (forall id | id in q.caseIds :: Known(q, id))
            && DistinctKeys(ChosenBy(q))
            && (forall lane, c | AskedFor(q, lane, c) :: c.id != "" && (c.lane == "prompt" || Distinct(c.conditions)))
            && exists lane, c, condition :: Combines(q, lane, c, condition)
  {
    KnownIff(q);
    SoundIff(q);
    SomeEntry(q);
  }

  lemma KnownIff(q: Request)
    ensures AllKnown(q.caseIds, Available(q.catalogue, q.lanes)) <==> forall id | id in q.caseIds :: Known(q, id)
  {
    AvailableMembers(q.catalogue, q.lanes);
    forall id
      ensures (exists c :: c in Available(q.catalogue, q.lanes) && c.id == id) <==> Known(q, id)
    {
      if c :| c in Available(q.catalogue, q.lanes) && c.id == id {
        var lane :| lane in q.lanes && c in q.catalogue(lane);
      }
    }
  }

  lemma SoundIff(q: Request)
    ensures (forall c | c in ChosenBy(q) :: c.id != "" && OrderlyConditions(c)) <==>
            forall lane, c | AskedFor(q, lane, c) :: c.id != "" && (c.lane == "prompt" || Distinct(c.conditions))
  {
    forall c
      ensures c in ChosenBy(q) <==> exists lane :: AskedFor(q, lane, c)
    {
      ChosenIff(q, c);
    }
  }

  /** There is something to run exactly if the matrix has an entry. */
  lemma SomeEntry(q: Request)
    ensures Matrix(ChosenBy(q), q.requested) != [] <==> exists lane, c, condition :: Combines(q, lane, c, condition)
    ensures Matrix(ChosenBy(q), q.requested) != [] ==> ChosenBy(q) != []
  {
    var entries := Matrix(ChosenBy(q), q.requested);
    if entries != [] {
      var c := EntryOf(ChosenBy(q), q.requested, entries[0]);
      ChosenIff(q, c);
      var lane :| AskedFor(q, lane, c);
      assert Combines(q, lane, c, entries[0].condition);
    }
    if lane, c, condition :| Combines(q, lane, c, condition) {
      ChosenIff(q, c);
      HasEntry(ChosenBy(q), q.requested, c, condition);
    }
  }

  /** A case and a condition are selected exactly if the case is asked for, runs under the condition, and the condition
      is requested. */
  lemma SelectedIff(q: Request, s: Selected, lane: string, id: string, condition: string)
    requires RunOf(q, s)
    ensures (exists g :: g in s.cases && g.key == SelectedKey(lane, id) && condition in g.conditions) <==>
            condition in q.requested &&
            exists c :: AskedFor(q, lane, c) && c.id == id && RunsUnder(c, condition)
  {
    if g :| g in s.cases && g.key == SelectedKey(lane, id) && condition in g.conditions {
      var c := SelectionSource(q, s, g.key);
      assert AskedFor(q, lane, c) && RunsUnder(c, condition);
    }
    if c :| AskedFor(q, lane, c) && c.id == id && RunsUnder(c, condition) && condition in q.requested {
      SelectedIf(q, s, lane, c, condition);
    }
  }

  lemma SelectedIf(q: Request, s: Selected, lane: string, c: EvalCase, condition: string)
    requires RunOf(q, s) && AskedFor(q, lane, c) && RunsUnder(c, condition) && condition in q.requested
    ensures exists g :: g in s.cases && g.key == SelectedKey(lane, c.id) && condition in g.conditions
  {
    assert c.lane == lane;
    ChosenOf(q, c);
    assert condition in ConditionsOf(c);
    var g :| g in s.cases && g.key == KeyOf(c);
    assert s.compiled[g.key] == c;
  }

  /** The active lanes and conditions come in their fixed order. */
  lemma ActiveInOrder(s: Selected) returns (lanes: string -> bool, conditions: string -> bool)
    requires InFixedOrder(s)
    ensures Listed(s.activeLanes, ["prompt", "execution", "dogfood"], lanes)
    ensures Listed(s.activeConditions, ["none", "self-load", "preloaded", "stale"], conditions)
  {
    var p :| s.activeLanes == InOrder(LANES, p);
    var q :| s.activeConditions == InOrder(CONDITIONS, q);
    lanes, conditions := x => x in p, x => x in q;
    InOrderListed(LANES, p, lanes);
    InOrderListed(CONDITIONS, q, conditions);
  }

  // ---------- Raw token records ----------

  /** What a result contributes, if it reported usage: provider and model, the latter by default the first of the run
      or "unknown", its identity, the fingerprint of its compiled case, and the usage. */
  ghost predicate RecordSays(x: TokenRecord, r: RunResult, models: seq<string>, compiled: map<SelectedKey, EvalCase>) {
    && x.provider == r.provider
    && (r.model.Some? ==> x.model == r.model.value)
    && (r.model.None? && models != [] ==> x.model == models[0])
    && (r.model.None? && models == [] ==> x.model == "unknown")
    && x.lane == r.item.lane && x.caseId == r.item.caseId && x.condition == r.item.condition
    && SelectedKey(r.item.lane, r.item.caseId) in compiled
    && x.caseFingerprint == compiled[SelectedKey(r.item.lane, r.item.caseId)].fingerprint
    && r.usage == Some(x.usage)
  }

  function HasUsage(r: RunResult): bool { r.usage.Some? }

  /** One record per result with usage, in the order of the results. */
  lemma {:induction false} RecordsRead(results: seq<RunResult>, models: seq<string>,
                                       compiled: map<SelectedKey, EvalCase>)
    returns (used: seq<RunResult>)
    requires AllCompiled(results, compiled)
    ensures Listed(used, results, HasUsage) && |RawRecords(results, models, compiled)| == |used|
    ensures forall k | 0 <= k < |used| ::
              RecordSays(RawRecords(results, models, compiled)[k], used[k], models, compiled)
  {
    used := [];
    if results == [] {
      NothingListed(HasUsage);
    } else {
      var init, last := results[..|results| - 1], results[|results| - 1];
      assert results == init + [last];
      var before := RecordsRead(init, models, compiled);
      used := before + if HasUsage(last) then [last] else [];
      ListedNext(before, init, HasUsage, last, used);
      assert HasUsage(last) ==> RecordSays(RecordOf(last, models, compiled), last, models, compiled);
    }
  }
}
