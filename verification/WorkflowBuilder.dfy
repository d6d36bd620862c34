/** The builders that author workflow checks, and the promise they make to `checkWorkflow`. */
module WorkflowBuilder {
  import opened Collections
  import opened Workflow
  import opened WorkflowTheory

  datatype AuthoringError = DuplicateStepId(id: Id) | Contradiction(id: Id, pattern: string)

  /** The first required pattern that is also forbidden. */
  function FindContradiction(required: seq<string>, forbidden: seq<string>): (r: Option<string>)
    ensures r.Some? ==> exists i ::
              && 0 <= i < |required| && required[i] == r.value && r.value in forbidden
              && forall j | 0 <= j < i :: required[j] !in forbidden
    ensures r.None? <==> forall p | p in required :: p !in forbidden
  {
    if required == [] then None
    else
      assert required == [required[0]] + required[1..];
      if required[0] in forbidden then Some(required[0])
    else FindContradiction(required[1..], forbidden)
  }

  predicate Contradictory(required: seq<string>, forbidden: seq<string>) {
    exists p | p in required :: p in forbidden
  }

  method AppendUniqueValues(target: seq<string>, values: seq<string>) returns (r: seq<string>)
    ensures target <= r
    ensures SetOf(r) == SetOf(target) + SetOf(values)
    ensures Distinct(target) ==> r == Uniq(target + values) && Distinct(r)
  {
    r := target;
    assert target + values[..0] == target;
    if Distinct(target) {
      UniqOfDistinct(target);
    }
    for i := 0 to |values|
      invariant target <= r
      invariant SetOf(r) == SetOf(target + values[..i])
      invariant Distinct(target) ==> r == Uniq(target + values[..i])
    {
      UniqNext(target, values, i);
      assert values[i] in r <==> values[i] in SetOf(r);
      if values[i] !in r {
        r := r + [values[i]];
      }
    }
    assert values[..|values|] == values;
    SetOfJoin(target, values);
    UniqFacts(target + values);
  }

  lemma SetOfJoin<T>(a: seq<T>, b: seq<T>)
    ensures SetOf(a + b) == SetOf(a) + SetOf(b)
  {
  }

  lemma UniqNext(target: seq<string>, values: seq<string>, i: nat)
    requires i < |values|
    ensures
      var before, after := target + values[..i], target + values[..i + 1];
      && SetOf(after) == SetOf(before) + {values[i]}
      && Uniq(after) == if values[i] in SetOf(before) then Uniq(before) else Uniq(before) + [values[i]]
  {
    var before, after := target + values[..i], target + values[..i + 1];
    assert after == before + [values[i]] && after[..|before|] == before;
  }

  /** A step under construction. A rejected pattern stays in the draft, so `Build` rejects it again. */
  class StepDraft {
    const id: Id
    var mustMention: seq<string>
    var mustNotMention: seq<string>
    var dependsOn: seq<Id>

    ghost predicate Valid()
      reads this
    {
      Distinct(mustMention) && Distinct(mustNotMention) && Distinct(dependsOn)
    }

    constructor (id: Id)
      ensures Valid() && this.id == id && mustMention == [] && mustNotMention == [] && dependsOn == []
    {
      this.id := id;
      mustMention, mustNotMention, dependsOn := [], [], [];
    }

    method MustMention(patterns: seq<string>) returns (error: Option<AuthoringError>)
      requires Valid()
      modifies this`mustMention
      ensures Valid() && old(mustMention) <= mustMention
      ensures mustMention == Uniq(old(mustMention) + patterns)
      ensures SetOf(mustMention) == SetOf(old(mustMention)) + SetOf(patterns)
      ensures error.Some? <==> Contradictory(mustMention, mustNotMention)
      ensures error.Some? ==> error.value.Contradiction? && error.value.id == id
    {
      mustMention := AppendUniqueValues(mustMention, patterns);
      var c := FindContradiction(mustMention, mustNotMention);
      error := if c.Some? then Some(Contradiction(id, c.value)) else None;
    }

    method MustNotMention(patterns: seq<string>) returns (error: Option<AuthoringError>)
      requires Valid()
      modifies this`mustNotMention
      ensures Valid() && old(mustNotMention) <= mustNotMention
      ensures mustNotMention == Uniq(old(mustNotMention) + patterns)
      ensures SetOf(mustNotMention) == SetOf(old(mustNotMention)) + SetOf(patterns)
      ensures error.Some? <==> Contradictory(mustMention, mustNotMention)
      ensures error.Some? ==> error.value.Contradiction? && error.value.id == id
    {
      mustNotMention := AppendUniqueValues(mustNotMention, patterns);
      var c := FindContradiction(mustMention, mustNotMention);
      error := if c.Some? then Some(Contradiction(id, c.value)) else None;
    }

    method DependsOn(ids: seq<Id>)
      requires Valid()
      modifies this`dependsOn
      ensures Valid() && old(dependsOn) <= dependsOn
      ensures dependsOn == Uniq(old(dependsOn) + ids)
      ensures SetOf(dependsOn) == SetOf(old(dependsOn)) + SetOf(ids)
    {
      dependsOn := AppendUniqueValues(dependsOn, ids);
    }
  }

  datatype Entry = Draft(draft: StepDraft) | Raw(check: Check)

  function EntryId(e: Entry): Id {
    match e
    case Draft(d) => d.id
    case Raw(c) => c.id
  }

  function EntryCheck(e: Entry): Check
    reads if e.Draft? then {e.draft} else {}
  {
    match e
    case Draft(d) => Check(d.id, d.mustMention, d.mustNotMention, d.dependsOn)
    case Raw(c) => c
  }

  /** A built check says what its step was told: what to mention, what not to, and what to depend on. */
  ghost predicate Authored(e: Entry, check: Check)
    reads if e.Draft? then {e.draft} else {}
  {
    match e
    case Raw(c) => check == c
    case Draft(d) =>
      && check.id == d.id
      && check.requiredPatterns == d.mustMention
      && check.forbiddenPatterns == d.mustNotMention
      && check.dependsOn == d.dependsOn
  }

  class Builder {
    var entries: seq<Entry>
    var knownIds: set<Id>

    /** Ids are unique and known. A rejected `raw` leaves its id known without an entry. */
    ghost predicate Valid()
      reads this
    {
      && (forall i, j | 0 <= i < j < |entries| :: EntryId(entries[i]) != EntryId(entries[j]))
      && (forall e | e in entries :: EntryId(e) in knownIds)
      && (forall e | e in entries && e.Raw? :: !Contradictory(e.check.requiredPatterns, e.check.forbiddenPatterns))
    }

    constructor ()
      ensures Valid() && entries == [] && knownIds == {}
    {
      entries, knownIds := [], {};
    }

    method Step(id: Id) returns (r: Result<StepDraft, AuthoringError>)
      requires Valid()
      modifies this
      ensures Valid()
      ensures r.Err? <==> id in old(knownIds)
      ensures r.Err? ==> r.error == DuplicateStepId(id) && entries == old(entries) && knownIds == old(knownIds)
      ensures r.Ok? ==> fresh(r.value) && r.value.id == id && r.value.Valid() &&
                        entries == old(entries) + [Draft(r.value)] && knownIds == old(knownIds) + {id}
    {
      if id in knownIds {
        return Err(DuplicateStepId(id));
      }
      knownIds := knownIds + {id};
      var draft := new StepDraft(id);
      entries := entries + [Draft(draft)];
      r := Ok(draft);
    }

    method AddRaw(check: Check) returns (error: Option<AuthoringError>)
      requires Valid()
      modifies this
      ensures Valid()
      ensures knownIds == old(knownIds) + {check.id}
      ensures error.None? <==>
              check.id !in old(knownIds) && !Contradictory(check.requiredPatterns, check.forbiddenPatterns)
      ensures error.Some? && check.id in old(knownIds) ==> error.value == DuplicateStepId(check.id)
      ensures error.Some? && check.id !in old(knownIds) ==>
                exists p :: p in check.requiredPatterns && p in check.forbiddenPatterns &&
                            error.value == Contradiction(check.id, p)
      ensures entries == if error.None? then old(entries) + [Raw(check)] else old(entries)
    {
      if check.id in knownIds {
        return Some(DuplicateStepId(check.id));
      }
      knownIds := knownIds + {check.id};
      var c := FindContradiction(check.requiredPatterns, check.forbiddenPatterns);
      if c.Some? {
        return Some(Contradiction(check.id, c.value));
      }
      entries := entries + [Raw(check)];
      error := None;
    }

    /** The built list: one check per entry, ids distinct, nothing both required and forbidden. */
    method Build() returns (r: Result<seq<Check>, AuthoringError>)
      requires Valid()
      ensures r.Ok? <==>
              forall e | e in entries :: !Contradictory(EntryCheck(e).requiredPatterns, EntryCheck(e).forbiddenPatterns)
      ensures r.Ok? ==> |r.value| == |entries| && forall i | 0 <= i < |entries| :: r.value[i] == EntryCheck(entries[i])
      ensures r.Ok? ==> forall i | 0 <= i < |entries| :: Authored(entries[i], r.value[i])
      ensures r.Ok? ==> DistinctIds(r.value)
    {
      var checks: seq<Check> := [];
      for i := 0 to |entries|
        invariant |checks| == i && forall k | 0 <= k < i :: checks[k] == EntryCheck(entries[k])
        invariant forall k | 0 <= k < i :: !Contradictory(checks[k].requiredPatterns, checks[k].forbiddenPatterns)
      {
        var check := EntryCheck(entries[i]);
        if entries[i].Draft? {
          var c := FindContradiction(check.requiredPatterns, check.forbiddenPatterns);
          if c.Some? {
            assert entries[i] in entries && Contradictory(check.requiredPatterns, check.forbiddenPatterns);
            return Err(Contradiction(check.id, c.value));
          }
        }
        checks := checks + [check];
      }
      assert forall k | 0 <= k < |checks| :: checks[k].id == EntryId(entries[k]);
      r := Ok(checks);
    }
  }

  /** Options of one execution step that matter to the dependency graph. */
  datatype StepOptions = StepOptions(dependsOn: Option<seq<Id>>, forbiddenPattern: Option<string>)

  function ResolveDependsOn(previous: Option<Id>, dependsOn: Option<seq<Id>>): seq<Id> {
    if dependsOn.Some? then dependsOn.value
    else if previous.None? then [] else [previous.value]
  }

  function WorkflowCheck(id: Id, requiredPattern: string, previous: Option<Id>, options: StepOptions): Check {
    Check(id, [requiredPattern], if options.forbiddenPattern.None? then [] else [options.forbiddenPattern.value],
          ResolveDependsOn(previous, options.dependsOn))
  }

  /** A new entry holds the one required pattern, the forbidden one if any, and depends on what it was told to, by
      default on the last entry alone. */
  ghost predicate Appended(before: seq<Entry>, entry: Entry, id: Id, requiredPattern: string, options: StepOptions) {
    && entry.Raw?
    && entry.check.id == id
    && entry.check.requiredPatterns == [requiredPattern]
    && (options.forbiddenPattern.None? ==> entry.check.forbiddenPatterns == [])
    && (options.forbiddenPattern.Some? ==> entry.check.forbiddenPatterns == [options.forbiddenPattern.value])
    && (options.dependsOn.Some? ==> entry.check.dependsOn == options.dependsOn.value)
    && (options.dependsOn.None? && before == [] ==> entry.check.dependsOn == [])
    && (options.dependsOn.None? && before != [] ==>
          match before[|before| - 1]
          case Draft(d) => entry.check.dependsOn == [d.id]
          case Raw(c) => entry.check.dependsOn == [c.id])
  }

  function LastId(entries: seq<Entry>): Option<Id> {
    if entries == [] then None else Some(EntryId(entries[|entries| - 1]))
  }

  ghost predicate DefaultEntries(entries: seq<Entry>) {
    forall i | 0 <= i < |entries| :: DefaultAt(entries, i)
  }

  ghost predicate DefaultAt(entries: seq<Entry>, i: nat)
    requires i < |entries|
  {
    && entries[i].Raw?
    && entries[i].check.dependsOn == (if i == 0 then [] else [EntryId(entries[i - 1])])
  }

  lemma DefaultEntriesSnoc(entries: seq<Entry>, check: Check)
    requires DefaultEntries(entries)
    requires check.dependsOn == ResolveDependsOn(LastId(entries), None)
    ensures DefaultEntries(entries + [Raw(check)])
  {
    var longer := entries + [Raw(check)];
    forall i | 0 <= i < |longer|
      ensures DefaultAt(longer, i)
    {
      if i < |entries| {
        assert DefaultAt(entries, i);
      }
    }
  }

  /** The execution-lane builder: it remembers the last step so that the next one depends on it by default. */
  class ExecutionBuilder {
    const inner: Builder
    var lastStepId: Option<Id>

    ghost predicate Valid()
      reads this, inner
    {
      && inner.Valid()
      && lastStepId == LastId(inner.entries)
    }

    /** All entries were appended with default dependencies. */
    ghost predicate AllDefault()
      reads this, inner
    {
      DefaultEntries(inner.entries)
    }

    constructor (inner: Builder)
      requires inner.Valid() && inner.entries == []
      ensures Valid() && AllDefault() && this.inner == inner
    {
      this.inner := inner;
      lastStepId := None;
    }

    method AddRaw(check: Check) returns (error: Option<AuthoringError>)
      requires Valid()
      modifies this, inner
      ensures Valid()
      ensures error.None? <==>
              check.id !in old(inner.knownIds) && !Contradictory(check.requiredPatterns, check.forbiddenPatterns)
      ensures inner.entries == if error.None? then old(inner.entries) + [Raw(check)] else old(inner.entries)
    {
      error := inner.AddRaw(check);
      if error.None? {
        lastStepId := Some(check.id);
      }
    }

    method AppendCheck(id: Id, requiredPattern: string, options: StepOptions) returns (error: Option<AuthoringError>)
      requires Valid()
      modifies this, inner
      ensures Valid()
      ensures error.None? <==> id !in old(inner.knownIds) && options.forbiddenPattern != Some(requiredPattern)
      ensures error.None? ==>
              && |inner.entries| == |old(inner.entries)| + 1
              && inner.entries[..|old(inner.entries)|] == old(inner.entries)
              && Appended(old(inner.entries), inner.entries[|old(inner.entries)|], id, requiredPattern, options)
              && lastStepId == Some(id)
      ensures error.Some? ==>
              error.value ==
                if id in old(inner.knownIds) then DuplicateStepId(id) else Contradiction(id, requiredPattern)
      ensures error.Some? ==> inner.entries == old(inner.entries) && lastStepId == old(lastStepId)
      ensures old(AllDefault()) && options.dependsOn.None? ==> AllDefault()
    {
      ghost var before := inner.entries;
      var check := WorkflowCheck(id, requiredPattern, lastStepId, options);
      assert requiredPattern in check.requiredPatterns;
      assert Contradictory(check.requiredPatterns, check.forbiddenPatterns) <==>
             options.forbiddenPattern == Some(requiredPattern);
      error := inner.AddRaw(check);
      if error.None? {
        lastStepId := Some(id);
        if old(AllDefault()) && options.dependsOn.None? {
          DefaultEntriesSnoc(before, WorkflowCheck(id, requiredPattern, LastId(before), options));
        }
      }
    }

    /** A builder used with default dependencies only yields a default chain. */
    method BuildChain() returns (r: Result<seq<Check>, AuthoringError>)
      requires Valid() && AllDefault()
      ensures r.Ok? && DefaultChain(r.value) && DistinctIds(r.value)
    {
      ghost var entries := inner.entries;
      forall e | e in entries
        ensures e.Raw? && EntryCheck(e) == e.check
      {
        var i :| 0 <= i < |entries| && entries[i] == e;
        assert DefaultAt(entries, i);
      }
      r := inner.Build();
      forall i | 0 <= i < |r.value|
        ensures r.value[i].dependsOn == if i == 0 then [] else [r.value[i - 1].id]
      {
        assert DefaultAt(entries, i) && (i > 0 ==> EntryCheck(entries[i - 1]) == entries[i - 1].check);
      }
    }
  }

  /** A list that a builder produced never stops `checkWorkflow` on a duplicate id. */
  lemma BuiltListsHaveNoDuplicate(scan: Scan, checks: seq<Check>, j: nat, error: WorkflowError)
    requires DistinctIds(checks) && StopsAt(scan, checks, j, error)
    ensures BadPattern(scan, checks[j]).Some? && error == PatternError(checks[j].id, BadPattern(scan, checks[j]).value)
  {
    forall c | c in checks[..j]
      ensures c.id != checks[j].id
    {
      var i :| 0 <= i < j && checks[i] == c;
    }
  }
}
