/** The work items of a run's lanes, enumerated from its selection. */
module WorkItems {
  import opened Collections
  import opened Sublists
  import opened Selection

  datatype WorkItem = WorkItem(lane: string, caseId: string, condition: string, trial: nat)

  // ---------- The item key ----------

  function Digits(n: nat): string {
    if n < 10 then ["0123456789"[n]] else Digits(n / 10) + ["0123456789"[n % 10]]
  }

  function ItemKey(item: WorkItem): string {
    item.lane + ":" + item.caseId + ":" + item.condition + ":" + Digits(item.trial)
  }

  lemma {:induction false} DigitsInjective(m: nat, n: nat)
    requires Digits(m) == Digits(n)
    ensures m == n
  {
    var s := Digits(m);
    DigitAt(m % 10, n % 10);
    if m >= 10 && n >= 10 {
      assert Digits(m / 10) == s[..|s| - 1] == Digits(n / 10);
      assert s[|s| - 1] == "0123456789"[m % 10] == "0123456789"[n % 10];
      DigitsInjective(m / 10, n / 10);
    } else if m < 10 && n < 10 {
      assert s[0] == "0123456789"[m] == "0123456789"[n];
    } else {
      DigitsLength(m);
      DigitsLength(n);
    }
  }

  lemma DigitAt(a: nat, b: nat)
    requires a < 10 && b < 10
    ensures "0123456789"[a] == "0123456789"[b] ==> a == b
  {
  }

  lemma {:induction false} DigitsLength(n: nat)
    ensures |Digits(n)| > 0 && (|Digits(n)| == 1 <==> n < 10)
  {
    if n >= 10 {
      DigitsLength(n / 10);
    }
  }

  lemma {:induction false} DigitsWithoutColon(n: nat)
    ensures ':' !in Digits(n)
  {
    if n >= 10 {
      DigitsWithoutColon(n / 10);
    }
  }

  /** What follows the last colon is determined. */
  lemma LastColon(a: string, s: string, b: string, t: string)
    requires a + ":" + s == b + ":" + t && ':' !in s && ':' !in t
    ensures a == b && s == t
  {
    NotLonger(a, s, b, t);
    NotLonger(b, t, a, s);
    var w := a + ":" + s;
    assert |a| == |b|;
    assert a == w[..|a|] && b == w[..|b|];
    assert s == w[|a| + 1..] && t == w[|b| + 1..];
  }

  lemma NotLonger(a: string, s: string, b: string, t: string)
    requires a + ":" + s == b + ":" + t && ':' !in t
    ensures |a| <= |b|
  {
    assert (a + ":" + s)[|a|] == ':';
    assert forall i | |b| + 1 <= i < |b + ":" + t| :: (b + ":" + t)[i] == t[i - |b| - 1] != ':';
  }

  /** What precedes the first colon is determined. */
  lemma FirstColon(a: string, s: string, b: string, t: string)
    requires a + ":" + s == b + ":" + t && ':' !in a && ':' !in b
    ensures a == b && s == t
  {
    NotShorter(a, s, b, t);
    NotShorter(b, t, a, s);
    var w := a + ":" + s;
    assert |a| == |b|;
    assert a == w[..|a|] && b == w[..|b|];
    assert s == w[|a| + 1..] && t == w[|b| + 1..];
  }

  lemma NotShorter(a: string, s: string, b: string, t: string)
    requires a + ":" + s == b + ":" + t && ':' !in b
    ensures |a| >= |b|
  {
    assert (a + ":" + s)[|a|] == ':';
    assert forall i | 0 <= i < |b| :: (b + ":" + t)[i] == b[i] != ':';
  }

  /** The printed key determines the item, whatever characters a case id holds. */
  lemma ItemKeyInjective(x: WorkItem, y: WorkItem)
    requires ':' !in x.lane && ':' !in y.lane && ':' !in x.condition && ':' !in y.condition
    requires ItemKey(x) == ItemKey(y)
    ensures x == y
  {
    DigitsWithoutColon(x.trial);
    DigitsWithoutColon(y.trial);
    LastColon(x.lane + ":" + x.caseId + ":" + x.condition, Digits(x.trial),
              y.lane + ":" + y.caseId + ":" + y.condition, Digits(y.trial));
    DigitsInjective(x.trial, y.trial);
    LastColon(x.lane + ":" + x.caseId, x.condition, y.lane + ":" + y.caseId, y.condition);
    FirstColon(x.lane, x.caseId, y.lane, y.caseId);
  }

  ghost predicate PlainNames(items: seq<WorkItem>) {
    forall x | x in items :: ':' !in x.lane && ':' !in x.condition
  }

  ghost predicate Enumerable(items: seq<WorkItem>) {
    Distinct(items) && PlainNames(items)
  }

  method AssertUniqueWorkItems(items: seq<WorkItem>) returns (unique: bool)
    ensures unique ==> Distinct(items)
    ensures Enumerable(items) ==> unique
  {
    var seen: set<string> := {};
    for i := 0 to |items|
      invariant Distinct(items[..i])
      invariant forall k :: k in seen <==> exists j :: 0 <= j < i && ItemKey(items[j]) == k
    {
      var key := ItemKey(items[i]);
      assert items[..i + 1] == items[..i] + [items[i]];
      if key in seen {
        ghost var j :| 0 <= j < i && ItemKey(items[j]) == key;
        assert items[i] in items && items[j] in items;
        if PlainNames(items) {
          ItemKeyInjective(items[i], items[j]);
        }
        return false;
      }
      assert items[i] !in items[..i];
      DistinctSnoc(items[..i], items[i]);
      seen := seen + {key};
    }
    assert items[..|items|] == items;
    unique := true;
  }

  // ---------- Enumeration ----------

  /** A case of a lane with the conditions it runs under. */
  datatype Row = Row(caseId: string, conditions: seq<string>)

  function TrialItems(lane: string, caseId: string, condition: string, n: nat): seq<WorkItem> {
    if n == 0 then [] else TrialItems(lane, caseId, condition, n - 1) + [WorkItem(lane, caseId, condition, n)]
  }

  function RowItems(lane: string, caseId: string, conditions: seq<string>, n: nat): seq<WorkItem> {
    if conditions == [] then []
    else
      RowItems(lane, caseId, conditions[..|conditions| - 1], n) +
        TrialItems(lane, caseId, conditions[|conditions| - 1], n)
  }

  function ItemsOf(lane: string, rows: seq<Row>, n: nat): seq<WorkItem> {
    if rows == [] then []
    else
      var last := rows[|rows| - 1];
      ItemsOf(lane, rows[..|rows| - 1], n) + RowItems(lane, last.caseId, last.conditions, n)
  }

  /** Case by case, condition by condition, trials from 1. */
  ghost predicate Planned(item: WorkItem, lane: string, rows: seq<Row>, n: nat) {
    item.lane == lane && 1 <= item.trial <= n &&
    exists row :: row in rows && row.caseId == item.caseId && item.condition in row.conditions
  }

  lemma {:induction false} TrialItemsMembers(lane: string, caseId: string, condition: string, n: nat)
    ensures forall x :: x in TrialItems(lane, caseId, condition, n) <==>
              x.lane == lane && x.caseId == caseId && x.condition == condition && 1 <= x.trial <= n
    ensures Distinct(TrialItems(lane, caseId, condition, n))
  {
    if n > 0 {
      TrialItemsMembers(lane, caseId, condition, n - 1);
      DistinctSnoc(TrialItems(lane, caseId, condition, n - 1), WorkItem(lane, caseId, condition, n));
    }
  }

  lemma DistinctJoin<T>(a: seq<T>, b: seq<T>)
    requires Distinct(a) && Distinct(b) && forall x | x in a :: x !in b
    ensures Distinct(a + b)
  {
    var s := a + b;
    forall i, j | 0 <= i < j < |s|
      ensures s[i] != s[j]
    {
      if i < |a| <= j {
        assert s[i] in a && s[j] in b;
      }
    }
  }

  lemma {:induction false} RowItemsMembers(lane: string, caseId: string, conditions: seq<string>, n: nat)
    ensures forall x :: x in RowItems(lane, caseId, conditions, n) <==>
              x.lane == lane && x.caseId == caseId && x.condition in conditions && 1 <= x.trial <= n
    ensures Distinct(conditions) ==> Distinct(RowItems(lane, caseId, conditions, n))
  {
    if conditions != [] {
      var init, last := conditions[..|conditions| - 1], conditions[|conditions| - 1];
      RowItemsMembers(lane, caseId, init, n);
      TrialItemsMembers(lane, caseId, last, n);
      assert conditions == init + [last];
      if Distinct(conditions) {
        DistinctJoin(RowItems(lane, caseId, init, n), TrialItems(lane, caseId, last, n));
      }
    }
  }

  ghost predicate DistinctRows(rows: seq<Row>) {
    && (forall i, j | 0 <= i < j < |rows| :: rows[i].caseId != rows[j].caseId)
    && forall row | row in rows :: Distinct(row.conditions)
  }

  lemma {:induction false} ItemsMembers(lane: string, rows: seq<Row>, n: nat)
    ensures forall x :: x in ItemsOf(lane, rows, n) <==> Planned(x, lane, rows, n)
    ensures DistinctRows(rows) ==> Distinct(ItemsOf(lane, rows, n))
  {
    if rows != [] {
      var init, last := rows[..|rows| - 1], rows[|rows| - 1];
      ItemsMembers(lane, init, n);
      RowItemsMembers(lane, last.caseId, last.conditions, n);
      assert rows == init + [last];
      if DistinctRows(rows) {
        DistinctJoin(ItemsOf(lane, init, n), RowItems(lane, last.caseId, last.conditions, n));
      }
    }
  }

  /** The pushes of one case, under the conditions that pass. */
  method PushCase(lane: string, caseId: string, conditions: seq<string>, n: nat, items: seq<WorkItem>)
    returns (r: seq<WorkItem>)
    ensures r == items + RowItems(lane, caseId, conditions, n)
  {
    r := items;
    for i := 0 to |conditions|
      invariant r == items + RowItems(lane, caseId, conditions[..i], n)
    {
      assert conditions[..i + 1][..i] == conditions[..i];
      for trialIndex := 0 to n
        invariant r ==
                  items + RowItems(lane, caseId, conditions[..i], n) +
                    TrialItems(lane, caseId, conditions[i], trialIndex)
      {
        r := r + [WorkItem(lane, caseId, conditions[i], trialIndex + 1)];
      }
    }
    assert conditions[..|conditions|] == conditions;
  }

  /** The rows of a lane whose cases list their conditions: execution and dogfood. */
  function CaseRows(cases: seq<EvalCase>, filter: seq<string>, active: set<string>): (rows: seq<Row>)
    ensures forall row :: row in rows <==>
            exists c :: c in cases && c.id in filter && row == Row(c.id, InOrder(c.conditions, active))
  {
    if cases == [] then []
    else
      var init, last := cases[..|cases| - 1], cases[|cases| - 1];
      assert cases == init + [last];
      CaseRows(init, filter,
               active) + if last.id in filter then [Row(last.id, InOrder(last.conditions, active))] else []
  }

  method EnumerateCases(lane: string, cases: seq<EvalCase>, filter: seq<string>, active: set<string>, n: nat)
    returns (items: seq<WorkItem>)
    ensures items == ItemsOf(lane, CaseRows(cases, filter, active), n)
  {
    items := [];
    for i := 0 to |cases|
      invariant items == ItemsOf(lane, CaseRows(cases[..i], filter, active), n)
    {
      assert cases[..i + 1][..i] == cases[..i];
      if cases[i].id in filter {
        ghost var before := CaseRows(cases[..i], filter, active);
        ghost var row := Row(cases[i].id, InOrder(cases[i].conditions, active));
        assert (before + [row])[..|before|] == before;
        items := PushCase(lane, cases[i].id, InOrder(cases[i].conditions, active), n, items);
      } else {
        assert CaseRows(cases[..i + 1], filter, active) == CaseRows(cases[..i], filter, active);
      }
    }
    assert cases[..|cases|] == cases;
  }

  function PromptRow(conditions: seq<string>): string -> Row {
    (id: string) => Row(id, conditions)
  }

  /** The rows of the prompt lane: every wanted case, in the order of the filter, under every active condition. */
  function PromptRows(filter: seq<string>, conditions: seq<string>): (rows: seq<Row>)
    ensures |rows| == |filter| && forall i | 0 <= i < |filter| :: rows[i] == Row(filter[i], conditions)
  {
    Map(PromptRow(conditions), filter)
  }

  method EnumeratePrompts(filter: seq<string>, conditions: seq<string>, n: nat) returns (items: seq<WorkItem>)
    ensures items == ItemsOf("prompt", PromptRows(filter, conditions), n)
  {
    items := [];
    for i := 0 to |filter|
      invariant items == ItemsOf("prompt", PromptRows(filter[..i], conditions), n)
    {
      ghost var before := PromptRows(filter[..i], conditions);
      assert PromptRows(filter[..i + 1], conditions) == before + [Row(filter[i], conditions)];
      assert (before + [Row(filter[i], conditions)])[..|before|] == before;
      items := PushCase("prompt", filter[i], conditions, n, items);
    }
    assert filter[..|filter|] == filter;
  }

  // ---------- The order of the items ----------

  lemma {:induction false} TrialItemAt(lane: string, caseId: string, condition: string, n: nat, k: nat)
    requires k < n
    ensures |TrialItems(lane, caseId, condition, n)| == n
    ensures TrialItems(lane, caseId, condition, n)[k] == WorkItem(lane, caseId, condition, k + 1)
  {
    if k < n - 1 {
      TrialItemAt(lane, caseId, condition, n - 1, k);
    } else if n > 1 {
      TrialItemAt(lane, caseId, condition, n - 1, 0);
    }
  }

  /** Item `x` comes before item `y`: in an earlier row, under an earlier condition of the row, or as an earlier
      trial. */
  ghost predicate Before(x: WorkItem, y: WorkItem, rows: seq<Row>) {
    || (exists i, j | 0 <= i < j < |rows| :: OfRow(x, rows[i]) && OfRow(y, rows[j]))
    || (exists i | 0 <= i < |rows| :: OfRow(x, rows[i]) && OfRow(y, rows[i]) && BeforeInRow(x, y, rows[i].conditions))
  }

  ghost predicate OfRow(x: WorkItem, row: Row) {
    x.caseId == row.caseId && x.condition in row.conditions
  }

  ghost predicate BeforeInRow(x: WorkItem, y: WorkItem, conditions: seq<string>) {
    || (exists i, j | 0 <= i < j < |conditions| :: x.condition == conditions[i] && y.condition == conditions[j])
    || (x.condition == y.condition && x.trial < y.trial)
  }

  lemma {:induction false} TrialsInOrder(lane: string, caseId: string, condition: string, n: nat)
    ensures forall i, j | 0 <= i < j < |TrialItems(lane, caseId, condition, n)| ::
              BeforeInRow(TrialItems(lane, caseId, condition, n)[i], TrialItems(lane, caseId, condition, n)[j],
                          [condition])
  {
    if n > 0 {
      TrialItemAt(lane, caseId, condition, n, 0);
      forall i, j | 0 <= i < j < n
        ensures BeforeInRow(TrialItems(lane, caseId, condition, n)[i], TrialItems(lane, caseId, condition, n)[j],
                            [condition])
      {
        TrialItemAt(lane, caseId, condition, n, i);
        TrialItemAt(lane, caseId, condition, n, j);
      }
    }
  }

  lemma {:induction false} RowInOrder(lane: string, caseId: string, conditions: seq<string>, n: nat)
    ensures forall i, j | 0 <= i < j < |RowItems(lane, caseId, conditions, n)| ::
              BeforeInRow(RowItems(lane, caseId, conditions, n)[i], RowItems(lane, caseId, conditions, n)[j],
                          conditions)
  {
    if conditions != [] {
      var init, last := conditions[..|conditions| - 1], conditions[|conditions| - 1];
      var front, back := RowItems(lane, caseId, init, n), TrialItems(lane, caseId, last, n);
      assert conditions == init + [last];
      RowInOrder(lane, caseId, init, n);
      RowItemsMembers(lane, caseId, init, n);
      TrialItemsMembers(lane, caseId, last, n);
      TrialsInOrder(lane, caseId, last, n);
      forall i, j | 0 <= i < j < |front + back|
        ensures BeforeInRow((front + back)[i], (front + back)[j], conditions)
      {
        var x, y := (front + back)[i], (front + back)[j];
        if j < |front| {
          EarlierCondition(front[i], front[j], init, last);
        } else if i < |front| {
          assert x in front && y in back;
          var k :| 0 <= k < |init| && init[k] == x.condition;
          assert conditions[k] == x.condition && conditions[|init|] == y.condition;
        }
      }
    }
  }

  lemma EarlierCondition(x: WorkItem, y: WorkItem, init: seq<string>, last: string)
    requires BeforeInRow(x, y, init)
    ensures BeforeInRow(x, y, init + [last])
  {
    if i, j :| 0 <= i < j < |init| && x.condition == init[i] && y.condition == init[j] {
      assert (init + [last])[i] == x.condition && (init + [last])[j] == y.condition;
    }
  }

  /** What a case of a lane contributes: its id, and those of its conditions that are active, if it is in the filter. */
  function RowAt(filter: seq<string>, active: set<string>): (nat, EvalCase) -> Option<Row> {
    (i: nat, c: EvalCase) => if c.id in filter then Some(Row(c.id, InOrder(c.conditions, active))) else None
  }

  /** The rows of a lane come in the order of its cases. */
  lemma {:induction false} CaseRowsListed(cases: seq<EvalCase>, filter: seq<string>, active: set<string>)
    ensures Picked(CaseRows(cases, filter, active), cases, RowAt(filter, active))
  {
    if cases == [] {
      NothingPicked(RowAt(filter, active));
    } else {
      var init, last := cases[..|cases| - 1], cases[|cases| - 1];
      assert cases == init + [last];
      CaseRowsListed(init, filter, active);
      assert CaseRows(init, filter, active) + [] == CaseRows(init, filter, active);
      PickedNext(CaseRows(init, filter, active), init, RowAt(filter, active), last, CaseRows(cases, filter, active));
    }
  }

  /** Items are listed row by row, condition by condition, trial by trial. */
  lemma {:induction false} ItemsInOrder(lane: string, rows: seq<Row>, n: nat)
    ensures forall i, j | 0 <= i < j < |ItemsOf(lane, rows, n)| ::
              Before(ItemsOf(lane, rows, n)[i], ItemsOf(lane, rows, n)[j], rows)
  {
    if rows != [] {
      var init, last := rows[..|rows| - 1], rows[|rows| - 1];
      var front, back := ItemsOf(lane, init, n), RowItems(lane, last.caseId, last.conditions, n);
      assert rows == init + [last];
      ItemsInOrder(lane, init, n);
      ItemsMembers(lane, init, n);
      RowItemsMembers(lane, last.caseId, last.conditions, n);
      RowInOrder(lane, last.caseId, last.conditions, n);
      forall i, j | 0 <= i < j < |front + back|
        ensures Before((front + back)[i], (front + back)[j], rows)
      {
        if j < |front| {
          BeforeLater(front[i], front[j], init, last);
        } else if i < |front| {
          BeforeLastRow(front[i], back[j - |front|], init, last, lane, n);
        } else {
          assert back[i - |front|] in back && back[j - |front|] in back && rows[|init|] == last;
        }
      }
    }
  }

  lemma BeforeLater(x: WorkItem, y: WorkItem, init: seq<Row>, last: Row)
    requires Before(x, y, init)
    ensures Before(x, y, init + [last])
  {
    var rows := init + [last];
    assert forall i | 0 <= i < |init| :: rows[i] == init[i];
  }

  lemma BeforeLastRow(x: WorkItem, y: WorkItem, init: seq<Row>, last: Row, lane: string, n: nat)
    requires Planned(x, lane, init, n) && OfRow(y, last)
    ensures Before(x, y, init + [last])
  {
    var rows := init + [last];
    var row :| row in init && row.caseId == x.caseId && x.condition in row.conditions;
    var i :| 0 <= i < |init| && init[i] == row;
    assert rows[i] == row && rows[|init|] == last;
  }

  // ---------- A lane of a selected run ----------

  /** The case filter a lane is started with. */
  function FilterOf(cases: seq<CaseSelection>, lane: string): (ids: seq<string>)
    ensures forall id :: id in ids <==> exists g :: g in cases && g.key == SelectedKey(lane, id)
  {
    if cases == [] then []
    else
      var init, last := cases[..|cases| - 1], cases[|cases| - 1];
      assert cases == init + [last];
      assert last.key.lane == lane ==> last.key == SelectedKey(lane, last.key.caseId);
      FilterOf(init, lane) + if last.key.lane == lane then [last.key.caseId] else []
  }

  lemma {:induction false} FilterDistinct(cases: seq<CaseSelection>, lane: string)
    requires forall i, j | 0 <= i < j < |cases| :: cases[i].key != cases[j].key
    ensures Distinct(FilterOf(cases, lane))
  {
    if cases != [] {
      var init, last := cases[..|cases| - 1], cases[|cases| - 1];
      FilterDistinct(init, lane);
      if last.key.lane == lane {
        assert forall g | g in init :: g.key != last.key;
        DistinctSnoc(FilterOf(init, lane), last.key.caseId);
      }
    }
  }

  function LaneRows(s: Selected, cases: seq<EvalCase>, lane: string): seq<Row> {
    if lane == "prompt" then PromptRows(FilterOf(s.cases, lane), s.activeConditions)
    else CaseRows(cases, FilterOf(s.cases, lane), set x | x in s.activeConditions)
  }

  function LaneItems(s: Selected, catalogue: Catalogue, lane: string, n: nat): seq<WorkItem> {
    ItemsOf(lane, LaneRows(s, catalogue(lane), lane), n)
  }

  /** What a lane refuses: an unknown or repeated case id in its filter, a repeated or unsupported condition. */
  ghost predicate LaneAccepts(s: Selected, cases: seq<EvalCase>, lane: string) {
    var filter := FilterOf(s.cases, lane);
    && filter != [] && Distinct(filter)
    && (forall id | id in filter :: id != "" && exists c :: c in cases && c.id == id)
    && Distinct(s.activeConditions) && forall x | x in s.activeConditions :: x in CONDITIONS
  }

  /** What the code of a lane looks at: execution does not look for repetitions. */
  ghost predicate LaneChecks(s: Selected, cases: seq<EvalCase>, lane: string) {
    if lane == "execution" then FilterOf(s.cases, lane) != [] && AllKnown(FilterOf(s.cases, lane), cases)
    else LaneAccepts(s, cases, lane)
  }

  method CheckFilter(filter: seq<string>, cases: seq<EvalCase>) returns (ok: bool)
    ensures ok <==> Distinct(filter) && forall id | id in filter :: id != "" && exists c :: c in cases && c.id == id
  {
    var ids := set c | c in cases :: c.id;
    for i := 0 to |filter|
      invariant Distinct(filter[..i])
      invariant forall id | id in filter[..i] :: id != "" && exists c :: c in cases && c.id == id
    {
      assert filter[..i + 1] == filter[..i] + [filter[i]];
      if filter[i] == "" || filter[i] !in ids {
        assert filter[i] in filter;
        return false;
      }
      if filter[i] in filter[..i] {
        ghost var j :| 0 <= j < i && filter[j] == filter[i];
        return false;
      }
      DistinctSnoc(filter[..i], filter[i]);
    }
    assert filter[..|filter|] == filter;
    ok := true;
  }

  method CheckConditions(conditions: seq<string>) returns (ok: bool)
    ensures ok <==> Distinct(conditions) && forall x | x in conditions :: x in CONDITIONS
  {
    for i := 0 to |conditions|
      invariant Distinct(conditions[..i])
      invariant forall x | x in conditions[..i] :: x in CONDITIONS
    {
      assert conditions[..i + 1] == conditions[..i] + [conditions[i]];
      if conditions[i] !in CONDITIONS {
        assert conditions[i] in conditions;
        return false;
      }
      if conditions[i] in conditions[..i] {
        ghost var j :| 0 <= j < i && conditions[j] == conditions[i];
        return false;
      }
      DistinctSnoc(conditions[..i], conditions[i]);
    }
    assert conditions[..|conditions|] == conditions;
    ok := true;
  }

  method CheckKnown(filter: seq<string>, cases: seq<EvalCase>) returns (ok: bool)
    ensures ok <==> AllKnown(filter, cases)
  {
    var ids := set c | c in cases :: c.id;
    ok := forall id | id in filter :: id in ids;
  }

  /** The items of a lane. `None`: one of the lane's own checks fails, or an item would occur twice. */
  method EnumerateLane(s: Selected, catalogue: Catalogue, lane: string, n: nat) returns (r: Option<seq<WorkItem>>)
    requires lane in LANES
    ensures r.Some? ==> r.value == LaneItems(s, catalogue, lane, n) && Distinct(r.value)
    ensures r.Some? ==> LaneChecks(s, catalogue(lane), lane)
    ensures LaneChecks(s, catalogue(lane), lane) && Enumerable(LaneItems(s, catalogue, lane, n)) ==> r.Some?
  {
    var filter := FilterOf(s.cases, lane);
    if |filter| == 0 {
      return None;
    }
    if lane == "execution" {
      var known := CheckKnown(filter, catalogue(lane));
      if !known {
        return None;
      }
    } else {
      var goodFilter := CheckFilter(filter, catalogue(lane));
      var goodConditions := CheckConditions(s.activeConditions);
      if !goodFilter || !goodConditions {
        return None;
      }
    }
    var items;
    if lane == "prompt" {
      items := EnumeratePrompts(filter, s.activeConditions, n);
    } else {
      items := EnumerateCases(lane, catalogue(lane), filter, (set x | x in s.activeConditions), n);
    }
    var unique := AssertUniqueWorkItems(items);
    r := if unique then Some(items) else None;
  }

  // ---------- A selected run ----------

  /** The inputs of a run, and its selection. The schema gives every case of another lane than prompt a condition, and
      conditions are from the fixed list. */
  ghost predicate RunOf(q: Request, s: Selected) {
    && WellFiled(q.catalogue)
    && (forall l, c | c in q.catalogue(l) ::
          (l == "prompt" || c.conditions != []) && forall x | x in c.conditions :: x in CONDITIONS)
    && Selectable(q)
    && Selects(s, ChosenBy(q), q.requested)
  }

  /** A selection comes from a wanted case of a requested lane. */
  lemma SelectionSource(q: Request, s: Selected, key: SelectedKey) returns (c: EvalCase)
    requires WellFiled(q.catalogue) && Selects(s, ChosenBy(q), q.requested)
    requires exists g :: g in s.cases && g.key == key
    ensures key.lane in q.lanes && c in q.catalogue(key.lane) && KeyOf(c) == key && Wanted(q.caseIds, c)
    ensures c in ChosenBy(q) && key in s.compiled && s.compiled[key] == c
  {
    var cases := ChosenBy(q);
    AvailableMembers(q.catalogue, q.lanes);
    c :| c in cases && KeyOf(c) == key;
    var l :| l in q.lanes && c in q.catalogue(l);
    assert c.lane == l;
  }

  /** The case behind a selection is the lane's own case of that id. */
  lemma SelectedCase(q: Request, s: Selected, lane: string, c: EvalCase)
    requires WellFiled(q.catalogue) && Selects(s, ChosenBy(q), q.requested)
    requires c in q.catalogue(lane) && c.id in FilterOf(s.cases, lane)
    ensures KeyOf(c) == SelectedKey(lane, c.id) && KeyOf(c) in s.compiled && s.compiled[KeyOf(c)] == c
    ensures Wanted(q.caseIds, c) && lane in q.lanes && c in ChosenBy(q)
  {
    var d := SelectionSource(q, s, SelectedKey(lane, c.id));
    ChosenOf(q, c);
  }

  lemma ChosenOf(q: Request, c: EvalCase)
    requires c.lane in q.lanes && c in q.catalogue(c.lane) && Wanted(q.caseIds, c)
    ensures c in ChosenBy(q)
  {
    AvailableMembers(q.catalogue, q.lanes);
  }

  lemma LaneConditions(q: Request, s: Selected, g: CaseSelection)
    requires RunOf(q, s) && g in s.cases
    ensures g.key.lane in q.lanes
    ensures exists c :: c in q.catalogue(g.key.lane) && c.id == g.key.caseId && s.compiled[g.key] == c && c.id != ""
    ensures g.key.lane == "prompt" ==> forall x :: x in g.conditions <==> x in s.activeConditions
    ensures g.key.lane != "prompt" ==>
              forall x :: x in g.conditions <==> x in s.compiled[g.key].conditions && x in s.activeConditions
  {
    var cases := ChosenBy(q);
    AvailableMembers(q.catalogue, q.lanes);
    var c :| c in cases && KeyOf(c) == g.key;
    var l :| l in q.lanes && c in q.catalogue(l);
    assert c.lane == l == g.key.lane && s.compiled[g.key] == c;
    forall x
      ensures x in ConditionsOf(c) && x in q.requested <==> x in ConditionsOf(c) && x in s.activeConditions
    {
      if x in ConditionsOf(c) && x in q.requested {
        assert x in CONDITIONS;
      }
    }
  }

  /** A lane of the run has exactly the selected combinations of its cases and conditions, every trial once. */
  lemma LaneItemsExact(q: Request, s: Selected, lane: string, n: nat, x: WorkItem)
    requires RunOf(q, s) && lane in s.activeLanes
    ensures x in LaneItems(s, q.catalogue, lane, n) <==>
            x.lane == lane && 1 <= x.trial <= n &&
            exists g :: g in s.cases && g.key == SelectedKey(lane, x.caseId) && x.condition in g.conditions
  {
    var rows, filter := LaneRows(s, q.catalogue(lane), lane), FilterOf(s.cases, lane);
    ItemsMembers(lane, rows, n);
    if x in LaneItems(s, q.catalogue, lane, n) {
      var row :| row in rows && row.caseId == x.caseId && x.condition in row.conditions;
      RowSelected(q, s, lane, row, x.condition);
    }
    if g :| g in s.cases && g.key == SelectedKey(lane, x.caseId) && x.condition in g.conditions {
      SelectionHasRow(q, s, g, x.condition);
    }
  }

  lemma RowSelected(q: Request, s: Selected, lane: string, row: Row, condition: string)
    requires RunOf(q, s) && lane in s.activeLanes
    requires row in LaneRows(s, q.catalogue(lane), lane) && condition in row.conditions
    ensures exists g :: g in s.cases && g.key == SelectedKey(lane, row.caseId) && condition in g.conditions
  {
    assert row.caseId in FilterOf(s.cases, lane);
    var g :| g in s.cases && g.key == SelectedKey(lane, row.caseId);
    LaneConditions(q, s, g);
    if lane != "prompt" {
      CaseRowConditions(q, s, lane, row, condition);
    }
  }

  lemma CaseRowConditions(q: Request, s: Selected, lane: string, row: Row, condition: string)
    requires RunOf(q, s) && lane != "prompt"
    requires row in LaneRows(s, q.catalogue(lane), lane) && condition in row.conditions
    ensures SelectedKey(lane, row.caseId) in s.compiled
    ensures condition in s.compiled[SelectedKey(lane, row.caseId)].conditions && condition in s.activeConditions
  {
    var active := set x | x in s.activeConditions;
    var c :| c in q.catalogue(lane) && c.id in FilterOf(s.cases, lane) &&
      row == Row(c.id, InOrder(c.conditions, active));
    SelectedCase(q, s, lane, c);
    InOrderMembers(c.conditions, active);
  }

  lemma SelectionHasRow(q: Request, s: Selected, g: CaseSelection, condition: string)
    requires RunOf(q, s) && g in s.cases && condition in g.conditions
    ensures exists row :: row in LaneRows(s, q.catalogue(g.key.lane), g.key.lane) &&
                          row.caseId == g.key.caseId && condition in row.conditions
  {
    var lane := g.key.lane;
    var filter := FilterOf(s.cases, lane);
    LaneConditions(q, s, g);
    assert g.key == SelectedKey(lane, g.key.caseId);
    assert g.key.caseId in filter;
    if lane == "prompt" {
      HasPromptRow(filter, s.activeConditions, g.key.caseId);
    } else {
      var c :| c in q.catalogue(lane) && c.id == g.key.caseId && s.compiled[g.key] == c;
      HasCaseRow(q.catalogue(lane), filter, (set x | x in s.activeConditions), c, condition);
    }
  }

  lemma HasPromptRow(filter: seq<string>, conditions: seq<string>, id: string)
    requires id in filter
    ensures Row(id, conditions) in PromptRows(filter, conditions)
  {
    var i :| 0 <= i < |filter| && filter[i] == id;
    assert PromptRows(filter, conditions)[i] in PromptRows(filter, conditions);
  }

  lemma HasCaseRow(cases: seq<EvalCase>, filter: seq<string>, active: set<string>, c: EvalCase, condition: string)
    requires c in cases && c.id in filter && condition in c.conditions && condition in active
    ensures exists row :: row in CaseRows(cases, filter, active) && row.caseId == c.id && condition in row.conditions
  {
    InOrderMembers(c.conditions, active);
    assert Row(c.id, InOrder(c.conditions, active)) in CaseRows(cases, filter, active);
  }

  // ---------- No lane of a selected run refuses its filter ----------

  /** Cases a run selected have no two of one id in a lane, so the rows of the lane have none either. */
  lemma {:induction false} ChosenBlock(catalogue: Catalogue, lanes: seq<string>, caseIds: seq<string>, lane: string)
    requires lane in lanes && DistinctKeys(Chosen(catalogue, lanes, caseIds))
    ensures DistinctKeys(KeepWanted(catalogue(lane), caseIds))
    decreases |lanes|
  {
    var init, last := lanes[..|lanes| - 1], lanes[|lanes| - 1];
    assert lanes == init + [last];
    var front, back := KeepWanted(Available(catalogue, init), caseIds), KeepWanted(catalogue(last), caseIds);
    KeepJoins(Available(catalogue, init), catalogue(last), caseIds);
    assert Chosen(catalogue, lanes, caseIds) == front + back;
    if lane == last {
      assert forall i | 0 <= i < |back| :: (front + back)[|front| + i] == back[i];
    } else {
      assert forall i | 0 <= i < |front| :: (front + back)[i] == front[i];
      ChosenBlock(catalogue, init, caseIds, lane);
    }
  }

  lemma {:induction false} KeepJoins(a: seq<EvalCase>, b: seq<EvalCase>, caseIds: seq<string>)
    ensures KeepWanted(a + b, caseIds) == KeepWanted(a, caseIds) + KeepWanted(b, caseIds)
    decreases |b|
  {
    if b == [] {
      assert a + b == a;
    } else {
      assert (a + b)[..|a + b| - 1] == a + b[..|b| - 1];
      KeepJoins(a, b[..|b| - 1], caseIds);
    }
  }

  lemma RowIsNew(init: seq<EvalCase>, last: EvalCase, filter: seq<string>, active: set<string>, caseIds: seq<string>,
                 row: Row)
    requires DistinctKeys(KeepWanted(init, caseIds) + [last])
    requires forall c | c in init :: c.lane == last.lane
    requires forall c | c in init && c.id in filter :: Wanted(caseIds, c)
    requires row in CaseRows(init, filter, active)
    ensures row.caseId != last.id
  {
    var kept := KeepWanted(init, caseIds);
    var c :| c in init && c.id in filter && row == Row(c.id, InOrder(c.conditions, active));
    var i :| 0 <= i < |kept| && kept[i] == c;
    assert (kept + [last])[i] == c && (kept + [last])[|kept|] == last;
  }

  lemma KeepLast(init: seq<EvalCase>, last: EvalCase, caseIds: seq<string>)
    ensures KeepWanted(init + [last], caseIds) ==
            KeepWanted(init, caseIds) + if Wanted(caseIds, last) then [last] else []
  {
    assert (init + [last])[..|init|] == init;
  }

  lemma PrefixDistinct(a: seq<EvalCase>, b: seq<EvalCase>)
    requires DistinctKeys(a + b)
    ensures DistinctKeys(a)
  {
    assert forall i | 0 <= i < |a| :: (a + b)[i] == a[i];
  }

  lemma {:induction false} CaseRowsDistinct(cases: seq<EvalCase>, filter: seq<string>, active: set<string>,
                                            caseIds: seq<string>,
                                            lane: string)
    requires DistinctKeys(KeepWanted(cases, caseIds)) && forall c | c in cases :: c.lane == lane
    requires forall c | c in cases && c.id in filter :: Wanted(caseIds, c) && Distinct(c.conditions)
    ensures DistinctRows(CaseRows(cases, filter, active))
  {
    if cases != [] {
      var init, last := cases[..|cases| - 1], cases[|cases| - 1];
      assert cases == init + [last];
      KeepLast(init, last, caseIds);
      PrefixDistinct(KeepWanted(init, caseIds), if Wanted(caseIds, last) then [last] else []);
      CaseRowsDistinct(init, filter, active, caseIds, lane);
      if last.id in filter {
        InOrderDistinct(last.conditions, active);
        forall row | row in CaseRows(init, filter, active)
          ensures row.caseId != last.id
        {
          RowIsNew(init, last, filter, active, caseIds, row);
        }
      }
    }
  }

  lemma LaneRowsDistinct(q: Request, s: Selected, lane: string)
    requires RunOf(q, s) && lane in s.activeLanes
    ensures DistinctRows(LaneRows(s, q.catalogue(lane), lane)) && Distinct(FilterOf(s.cases, lane))
  {
    FilterDistinct(s.cases, lane);
    if lane == "prompt" {
      PromptRowsDistinct(FilterOf(s.cases, lane), s.activeConditions);
    } else {
      CaseLaneDistinct(q, s, lane);
    }
  }

  lemma PromptRowsDistinct(filter: seq<string>, conditions: seq<string>)
    requires Distinct(filter) && Distinct(conditions)
    ensures DistinctRows(PromptRows(filter, conditions))
  {
  }

  lemma CaseLaneDistinct(q: Request, s: Selected, lane: string)
    requires RunOf(q, s) && lane in s.activeLanes && lane != "prompt"
    ensures DistinctRows(CaseRows(q.catalogue(lane), FilterOf(s.cases, lane), set x | x in s.activeConditions))
  {
    var filter, cases := FilterOf(s.cases, lane), q.catalogue(lane);
    forall c | c in cases && c.id in filter
      ensures Wanted(q.caseIds, c) && Distinct(c.conditions)
    {
      SelectedCase(q, s, lane, c);
    }
    ActiveLaneRequested(q, s, lane);
    ChosenBlock(q.catalogue, q.lanes, q.caseIds, lane);
    CaseRowsDistinct(cases, filter, (set x | x in s.activeConditions), q.caseIds, lane);
  }

  lemma ActiveLaneRequested(q: Request, s: Selected, lane: string)
    requires RunOf(q, s) && lane in s.activeLanes
    ensures lane in q.lanes && lane in LANES && FilterOf(s.cases, lane) != []
  {
    var g :| g in s.cases && g.key.lane == lane;
    LaneConditions(q, s, g);
    assert g.key == SelectedKey(lane, g.key.caseId);
    assert g.key.caseId in FilterOf(s.cases, lane);
  }

  lemma PlainConditions()
    ensures forall x | x in CONDITIONS :: ':' !in x
    ensures forall x | x in LANES :: ':' !in x
  {
  }

  lemma LaneItemsEnumerable(q: Request, s: Selected, lane: string, n: nat)
    requires RunOf(q, s) && lane in s.activeLanes
    ensures Enumerable(LaneItems(s, q.catalogue, lane, n))
  {
    LaneRowsDistinct(q, s, lane);
    ActiveLaneRequested(q, s, lane);
    ItemsMembers(lane, LaneRows(s, q.catalogue(lane), lane), n);
    PlainConditions();
    forall x | x in LaneItems(s, q.catalogue, lane, n)
      ensures ':' !in x.lane && ':' !in x.condition
    {
      LaneItemsExact(q, s, lane, n, x);
      var g :| g in s.cases && g.key == SelectedKey(lane, x.caseId) && x.condition in g.conditions;
      LaneConditions(q, s, g);
      assert x.condition in s.activeConditions;
    }
  }

  /** None of a lane's checks can fail on the selection the run made for it. */
  lemma LaneNeverRefuses(q: Request, s: Selected, lane: string, n: nat)
    requires RunOf(q, s) && lane in s.activeLanes
    ensures LaneAccepts(s, q.catalogue(lane), lane) && LaneChecks(s, q.catalogue(lane), lane)
    ensures Enumerable(LaneItems(s, q.catalogue, lane, n))
  {
    LaneRowsDistinct(q, s, lane);
    ActiveLaneRequested(q, s, lane);
    LaneItemsEnumerable(q, s, lane, n);
    forall id | id in FilterOf(s.cases, lane)
      ensures id != "" && exists c :: c in q.catalogue(lane) && c.id == id
    {
      var g :| g in s.cases && g.key == SelectedKey(lane, id);
      LaneConditions(q, s, g);
    }
  }
}
