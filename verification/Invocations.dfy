/** The number of invocations a run announces is the number of work items its lanes enumerate. */
module Invocations {
  import opened Collections
  import opened Selection
  import opened WorkItems

  // ---------- One trial item per matrix entry and trial ----------

  /** Every entry of the matrix, with every trial. */
  function Spread(entries: seq<MatrixEntry>, n: nat): seq<WorkItem> {
    if entries == [] then []
    else
      var e := entries[|entries| - 1];
      Spread(entries[..|entries| - 1], n) + TrialItems(e.key.lane, e.key.caseId, e.condition, n)
  }

  lemma {:induction false} TrialItemsLength(lane: string, caseId: string, condition: string, n: nat)
    ensures |TrialItems(lane, caseId, condition, n)| == n
  {
    if n > 0 {
      TrialItemsLength(lane, caseId, condition, n - 1);
    }
  }

  lemma {:induction false} SpreadLength(entries: seq<MatrixEntry>, n: nat)
    ensures |Spread(entries, n)| == |entries| * n
  {
    if entries != [] {
      var init, e := entries[..|entries| - 1], entries[|entries| - 1];
      SpreadLength(init, n);
      TrialItemsLength(e.key.lane, e.key.caseId, e.condition, n);
      assert |entries| * n == |init| * n + n;
    }
  }

  function EntryFor(x: WorkItem): MatrixEntry {
    MatrixEntry(SelectedKey(x.lane, x.caseId), x.condition)
  }

  lemma {:induction false} SpreadMembers(entries: seq<MatrixEntry>, n: nat)
    ensures forall x :: x in Spread(entries, n) <==> EntryFor(x) in entries && 1 <= x.trial <= n
    ensures Distinct(entries) ==> Distinct(Spread(entries, n))
  {
    if entries != [] {
      var init, e := entries[..|entries| - 1], entries[|entries| - 1];
      assert entries == init + [e];
      SpreadMembers(init, n);
      TrialItemsMembers(e.key.lane, e.key.caseId, e.condition, n);
      assert forall x :: EntryFor(x) == e <==>
               x.lane == e.key.lane && x.caseId == e.key.caseId && x.condition == e.condition;
      if Distinct(entries) {
        DistinctJoin(Spread(init, n), TrialItems(e.key.lane, e.key.caseId, e.condition, n));
      }
    }
  }

  // ---------- The matrix has no entry twice ----------

  lemma {:induction false} EntriesDistinct(key: SelectedKey, conditions: seq<string>, requested: seq<string>)
    requires Distinct(conditions)
    ensures Distinct(EntriesOf(key, conditions, requested))
  {
    if conditions != [] {
      var init, last := conditions[..|conditions| - 1], conditions[|conditions| - 1];
      EntriesDistinct(key, init, requested);
      if last in requested {
        DistinctSnoc(EntriesOf(key, init, requested), MatrixEntry(key, last));
      }
    }
  }

  lemma OrderlyList(c: EvalCase)
    requires OrderlyConditions(c)
    ensures Distinct(ConditionsOf(c))
  {
    assert CONDITIONS[1][0] == 's' && CONDITIONS[2][0] == 'p';
  }

  lemma {:induction false} MatrixDistinct(cases: seq<EvalCase>, requested: seq<string>)
    requires DistinctKeys(cases) && forall c | c in cases :: OrderlyConditions(c)
    ensures Distinct(Matrix(cases, requested))
  {
    if cases != [] {
      var init, last := cases[..|cases| - 1], cases[|cases| - 1];
      MatrixDistinct(init, requested);
      MatrixMembers(init, requested);
      assert last in cases;
      OrderlyList(last);
      EntriesDistinct(KeyOf(last), ConditionsOf(last), requested);
      DistinctJoin(Matrix(init, requested), EntriesOf(KeyOf(last), ConditionsOf(last), requested));
    }
  }

  // ---------- All lanes of a run ----------

  /** The items of the lanes, lane by lane. */
  function RunItems(s: Selected, catalogue: Catalogue, lanes: seq<string>, n: nat): seq<WorkItem> {
    if lanes == [] then []
    else
      RunItems(s, catalogue, lanes[..|lanes| - 1], n) + LaneItems(s, catalogue, lanes[|lanes| - 1], n)
  }

  ghost predicate OwnItems(items: seq<WorkItem>, lane: string) {
    Distinct(items) && forall x | x in items :: x.lane == lane
  }

  lemma {:induction false} RunItemsMembers(s: Selected, catalogue: Catalogue, lanes: seq<string>, n: nat)
    requires Distinct(lanes) && forall lane | lane in lanes :: OwnItems(LaneItems(s, catalogue, lane, n), lane)
    ensures forall x :: x in RunItems(s, catalogue, lanes, n) <==>
              x.lane in lanes && x in LaneItems(s, catalogue, x.lane, n)
    ensures Distinct(RunItems(s, catalogue, lanes, n))
  {
    if lanes != [] {
      var init, last := lanes[..|lanes| - 1], lanes[|lanes| - 1];
      assert lanes == init + [last];
      RunItemsMembers(s, catalogue, init, n);
      DistinctJoin(RunItems(s, catalogue, init, n), LaneItems(s, catalogue, last, n));
    }
  }

  lemma LanesOwnItems(q: Request, s: Selected, lane: string, n: nat)
    requires RunOf(q, s) && lane in s.activeLanes
    ensures OwnItems(LaneItems(s, q.catalogue, lane, n), lane)
  {
    LaneItemsEnumerable(q, s, lane, n);
    ItemsMembers(lane, LaneRows(s, q.catalogue(lane), lane), n);
  }

  /** An item is in the matrix exactly if its lane enumerates it. */
  lemma ItemInMatrix(q: Request, s: Selected, n: nat, x: WorkItem)
    requires RunOf(q, s) && forall lane | lane in q.lanes :: lane in LANES
    ensures x.lane in s.activeLanes && x in LaneItems(s, q.catalogue, x.lane, n) <==>
            EntryFor(x) in Matrix(ChosenBy(q), q.requested) && 1 <= x.trial <= n
  {
    var cases := ChosenBy(q);
    if x.lane in s.activeLanes {
      LaneItemsExact(q, s, x.lane, n, x);
      if x in LaneItems(s, q.catalogue, x.lane, n) {
        var g :| g in s.cases && g.key == SelectedKey(x.lane, x.caseId) && x.condition in g.conditions;
        SelectionInMatrix(s, cases, q.requested, g, x.condition);
      }
    }
    if EntryFor(x) in Matrix(cases, q.requested) {
      EntrySelected(s, cases, q.requested, EntryFor(x));
      var g :| g in s.cases && g.key == EntryFor(x).key && x.condition in g.conditions;
      KnownLane(q, s, g);
    }
  }

  /** What the matrix holds was selected. */
  lemma EntrySelected(s: Selected, cases: seq<EvalCase>, requested: seq<string>, e: MatrixEntry)
    requires Selects(s, cases, requested) && e in Matrix(cases, requested)
    ensures exists g :: g in s.cases && g.key == e.key && e.condition in g.conditions
  {
    var c := EntryOf(cases, requested, e);
    var g :| g in s.cases && g.key == KeyOf(c);
    assert s.compiled[g.key] == c;
  }

  lemma SelectionInMatrix(s: Selected, cases: seq<EvalCase>, requested: seq<string>, g: CaseSelection, x: string)
    requires Selects(s, cases, requested) && g in s.cases && x in g.conditions
    ensures MatrixEntry(g.key, x) in Matrix(cases, requested)
  {
    var c :| c in cases && KeyOf(c) == g.key;
    HasEntry(cases, requested, c, x);
  }

  lemma KnownLane(q: Request, s: Selected, g: CaseSelection)
    requires RunOf(q, s) && g in s.cases && forall lane | lane in q.lanes :: lane in LANES
    ensures g.key.lane in s.activeLanes
  {
    var c := SelectionSource(q, s, g.key);
  }

  /** The invocations announced for a run are its work items: as many, and the same ones, over all active lanes. */
  lemma InvocationsExact(q: Request, s: Selected, n: nat)
    requires RunOf(q, s) && forall lane | lane in q.lanes :: lane in LANES
    ensures multiset(RunItems(s, q.catalogue, s.activeLanes, n)) ==
            multiset(Spread(Matrix(ChosenBy(q), q.requested), n))
    ensures |RunItems(s, q.catalogue, s.activeLanes, n)| == |Matrix(ChosenBy(q), q.requested)| * n
  {
    var entries := Matrix(ChosenBy(q), q.requested);
    MatrixDistinct(ChosenBy(q), q.requested);
    SpreadMembers(entries, n);
    forall lane | lane in s.activeLanes
      ensures OwnItems(LaneItems(s, q.catalogue, lane, n), lane)
    {
      LanesOwnItems(q, s, lane, n);
    }
    RunItemsMembers(s, q.catalogue, s.activeLanes, n);
    forall x
      ensures x in RunItems(s, q.catalogue, s.activeLanes, n) <==> x in Spread(entries, n)
    {
      ItemInMatrix(q, s, n, x);
    }
    DistinctSameMembers(RunItems(s, q.catalogue, s.activeLanes, n), Spread(entries, n));
    Permuted(RunItems(s, q.catalogue, s.activeLanes, n), Spread(entries, n));
    SpreadLength(entries, n);
  }
}
