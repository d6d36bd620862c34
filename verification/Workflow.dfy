/** Workflow checks of a prompt case and the cached depth-first resolver that decides which of them pass. */
module Workflow {
  import opened Collections

  type Id = string

  datatype Check = Check(id: Id, requiredPatterns: seq<string>, forbiddenPatterns: seq<string>, dependsOn: seq<Id>)

  datatype PatternMatch = PatternMatch(pattern: string, matched: bool)
  datatype ForbiddenMatch = ForbiddenMatch(pattern: string, violated: bool)

  datatype Evaluation = Evaluation(check: Check, matches: seq<PatternMatch>, forbiddenMatches: seq<ForbiddenMatch>)

  type Evaluations = map<Id, Evaluation>

  /** Which patterns compile, and what matching one text against a pattern says; the regular expressions themselves
      stay abstract. */
  datatype Scan = Scan(compiles: string -> bool, matched: string -> bool, violated: string -> bool)

  datatype Status = Status(passed: bool, message: Option<string>)

  datatype CheckResult = CheckResult(checkId: Id, passed: bool, matches: seq<PatternMatch>,
                                     forbiddenMatches: seq<ForbiddenMatch>, message: Option<string>)

  datatype WorkflowError = DuplicateCheckId(id: Id) | EmptyPattern(id: Id) | InvalidPattern(id: Id, pattern: string)

  // ---------- Message texts ----------

  function Join(parts: seq<string>, separator: string): string {
    if |parts| == 0 then ""
    else if |parts| == 1 then parts[0]
    else parts[0] + separator + Join(parts[1..], separator)
  }

  function MissingDependency(id: Id): string { "Missing dependency \"" + id + "\"" }

  function FailedDependency(id: Id): string { "Dependency \"" + id + "\" did not pass" }

  function CyclicDependency(id: Id): string { "Cyclic workflow dependency detected at " + id }

  function Unmatched(matches: seq<PatternMatch>): (patterns: seq<string>)
    ensures patterns == [] <==> forall m | m in matches :: m.matched
  {
    if matches == [] then []
    else (if matches[0].matched then [] else [matches[0].pattern]) + Unmatched(matches[1..])
  }

  function Violated(matches: seq<ForbiddenMatch>): (patterns: seq<string>)
    ensures patterns == [] <==> forall m | m in matches :: !m.violated
  {
    if matches == [] then []
    else (if matches[0].violated then [matches[0].pattern] else []) + Violated(matches[1..])
  }

  function LocalParts(e: Evaluation): (parts: seq<string>)
    ensures parts == [] <==> LocallyOk(e)
  {
    (if Unmatched(e.matches) == [] then [] else ["Missing required patterns: " + Join(Unmatched(e.matches), ", ")]) +
    (if Violated(e.forbiddenMatches) == [] then []
     else ["Matched forbidden patterns: " + Join(Violated(e.forbiddenMatches), ", ")])
  }

  function StatusOf(parts: seq<string>): Status {
    Status(|parts| == 0, if |parts| == 0 then None else Some(Join(parts, "; ")))
  }

  // ---------- Meaning of "passes" ----------

  predicate LocallyOk(e: Evaluation) {
    && (forall m | m in e.matches :: m.matched)
    && (forall m | m in e.forbiddenMatches :: !m.violated)
  }

  /** `id` passes by a derivation of height at most `n`. */
  ghost predicate PassesWithin(evals: Evaluations, id: Id, n: nat)
    decreases n
  {
    && n > 0
    && id in evals
    && LocallyOk(evals[id])
    && forall d | d in evals[id].check.dependsOn :: PassesWithin(evals, d, n - 1)
  }

  /** The least fixed point of "is there, is locally fine, and every dependency passes". */
  ghost predicate Passes(evals: Evaluations, id: Id) {
    exists n: nat :: PassesWithin(evals, id, n)
  }

  ghost predicate Edge(evals: Evaluations, a: Id, b: Id) {
    a in evals && b in evals[a].check.dependsOn
  }

  ghost predicate IsPath(evals: Evaluations, p: seq<Id>) {
    |p| >= 2 && forall i | 0 <= i < |p| - 1 :: Edge(evals, p[i], p[i + 1])
  }

  /** One or more dependency steps lead from `a` to `b`. */
  ghost predicate Reaches(evals: Evaluations, a: Id, b: Id) {
    exists p :: IsPath(evals, p) && p[0] == a && p[|p| - 1] == b
  }

  ghost function DependencyPart(evals: Evaluations, d: Id): seq<string> {
    if d !in evals then [MissingDependency(d)]
    else if !Passes(evals, d) then [FailedDependency(d)]
    else []
  }

  ghost function DependencyParts(evals: Evaluations, deps: seq<Id>): seq<string> {
    if deps == [] then []
    else DependencyParts(evals, deps[..|deps| - 1]) + DependencyPart(evals, deps[|deps| - 1])
  }

  /** The status a check has by its meaning alone: no cache, no active set, no visiting order. */
  ghost function MeaningOf(evals: Evaluations, id: Id): Status
    requires id in evals
  {
    StatusOf(DependencyParts(evals, evals[id].check.dependsOn) + LocalParts(evals[id]))
  }

  ghost function ResultOf(evals: Evaluations, id: Id): CheckResult
    requires id in evals
  {
    var status := MeaningOf(evals, id);
    CheckResult(id, status.passed, evals[id].matches, evals[id].forbiddenMatches, status.message)
  }

  // ---------- Facts the resolver needs ----------

  lemma {:induction false} PassesWithinMonotone(evals: Evaluations, id: Id, m: nat, n: nat)
    requires m <= n && PassesWithin(evals, id, m)
    ensures PassesWithin(evals, id, n)
    decreases m
  {
    forall d | d in evals[id].check.dependsOn
      ensures PassesWithin(evals, d, n - 1)
    {
      PassesWithinMonotone(evals, d, m - 1, n - 1);
    }
  }

  lemma {:induction false} CommonHeight(evals: Evaluations, deps: seq<Id>) returns (n: nat)
    requires forall d | d in deps :: Passes(evals, d)
    ensures forall d | d in deps :: PassesWithin(evals, d, n)
  {
    if deps == [] {
      n := 0;
    } else {
      var m := CommonHeight(evals, deps[1..]);
      assert Passes(evals, deps[0]);
      var k: nat :| PassesWithin(evals, deps[0], k);
      n := m + k;
      forall d | d in deps
        ensures PassesWithin(evals, d, n)
      {
        if d == deps[0] {
          PassesWithinMonotone(evals, d, k, n);
        } else {
          assert d in deps[1..];
          PassesWithinMonotone(evals, d, m, n);
        }
      }
    }
  }

  /** `Passes` is a fixed point. */
  lemma PassesUnfolds(evals: Evaluations, id: Id)
    ensures Passes(evals, id) <==>
            && id in evals
            && LocallyOk(evals[id])
            && forall d | d in evals[id].check.dependsOn :: Passes(evals, d)
  {
    if Passes(evals, id) {
      var n: nat :| PassesWithin(evals, id, n);
      forall d | d in evals[id].check.dependsOn
        ensures Passes(evals, d)
      {
        assert PassesWithin(evals, d, n - 1);
      }
    } else if id in evals && LocallyOk(evals[id]) && forall d | d in evals[id].check.dependsOn :: Passes(evals, d) {
      var n := CommonHeight(evals, evals[id].check.dependsOn);
      assert PassesWithin(evals, id, n + 1);
    }
  }

  lemma ReachesStep(evals: Evaluations, a: Id, b: Id)
    requires Edge(evals, a, b)
    ensures Reaches(evals, a, b)
  {
    assert IsPath(evals, [a, b]);
  }

  lemma ReachesExtends(evals: Evaluations, a: Id, b: Id, c: Id)
    requires Reaches(evals, a, b) && Edge(evals, b, c)
    ensures Reaches(evals, a, c)
  {
    var p :| IsPath(evals, p) && p[0] == a && p[|p| - 1] == b;
    var q := p + [c];
    assert IsPath(evals, q) by {
      forall i | 0 <= i < |q| - 1
        ensures Edge(evals, q[i], q[i + 1])
      {
        if i < |p| - 1 {
          assert Edge(evals, p[i], p[i + 1]);
        }
      }
    }
  }

  /** A derivation loses a level at each step of a path. */
  lemma {:induction false} HeightAlongPath(evals: Evaluations, p: seq<Id>, k: nat, n: nat)
    requires IsPath(evals, p) && k < |p| && PassesWithin(evals, p[0], n)
    ensures n > k && PassesWithin(evals, p[k], n - k)
    decreases k
  {
    if k > 0 {
      HeightAlongPath(evals, p, k - 1, n);
      assert Edge(evals, p[k - 1], p[k]);
    }
  }

  lemma {:induction false} CycleHasNoHeight(evals: Evaluations, p: seq<Id>, n: nat)
    requires IsPath(evals, p) && p[0] == p[|p| - 1]
    ensures !PassesWithin(evals, p[0], n)
    decreases n
  {
    if PassesWithin(evals, p[0], n) {
      HeightAlongPath(evals, p, |p| - 1, n);
      CycleHasNoHeight(evals, p, n - (|p| - 1));
    }
  }

  lemma CycleNeverPasses(evals: Evaluations, id: Id)
    requires Reaches(evals, id, id)
    ensures !Passes(evals, id)
  {
    var p :| IsPath(evals, p) && p[0] == id && p[|p| - 1] == id;
    forall n: nat
      ensures !PassesWithin(evals, id, n)
    {
      CycleHasNoHeight(evals, p, n);
    }
  }

  lemma {:induction false} DependencyPartsEmpty(evals: Evaluations, deps: seq<Id>)
    ensures DependencyParts(evals, deps) == [] <==> forall d | d in deps :: Passes(evals, d)
  {
    if deps != [] {
      var last := |deps| - 1;
      DependencyPartsEmpty(evals, deps[..last]);
      PassesUnfolds(evals, deps[last]);
      assert deps == deps[..last] + [deps[last]];
    }
  }

  lemma MeaningPasses(evals: Evaluations, id: Id)
    requires id in evals
    ensures MeaningOf(evals, id).passed <==> Passes(evals, id)
  {
    DependencyPartsEmpty(evals, evals[id].check.dependsOn);
    PassesUnfolds(evals, id);
  }

  lemma DependencyPartsSnoc(evals: Evaluations, deps: seq<Id>, i: nat)
    requires i < |deps|
    ensures DependencyParts(evals, deps[..i + 1]) == DependencyParts(evals, deps[..i]) + DependencyPart(evals, deps[i])
  {
    assert deps[..i + 1][..i] == deps[..i];
  }

  /** Every check of `from` lies above `id`: the shape of the active set during a descent. */
  ghost predicate AllReach(evals: Evaluations, from: set<Id>, id: Id) {
    forall a | a in from :: Reaches(evals, a, id)
  }

  lemma AllReachStep(evals: Evaluations, active: set<Id>, id: Id, dependency: Id)
    requires AllReach(evals, active - {id}, id) && Edge(evals, id, dependency)
    ensures AllReach(evals, active, dependency)
  {
    ReachesStep(evals, id, dependency);
    forall a | a in active
      ensures Reaches(evals, a, dependency)
    {
      if a != id {
        ReachesExtends(evals, a, id, dependency);
      }
    }
  }

  // ---------- The resolver ----------

  /** One `checkWorkflow` call: its evaluations, the shared cache and the active set of the current root. */
  class Resolver {
    const evaluations: Evaluations
    var cache: map<Id, Status>
    var active: set<Id>

    ghost predicate Valid()
      reads this
    {
      && active <= evaluations.Keys
      && forall id | id in cache :: id in evaluations && cache[id] == MeaningOf(evaluations, id)
    }

    constructor (evaluations: Evaluations)
      ensures Valid() && this.evaluations == evaluations && active == {} && cache == map[]
    {
      this.evaluations := evaluations;
      cache := map[];
      active := {};
    }

    /** Resolves one check. Every active check is an ancestor of `id` on the current descent. */
    method Resolve(id: Id) returns (status: Status)
      requires Valid() && id in evaluations
      requires AllReach(evaluations, active, id)
      modifies this
      ensures Valid() && active == old(active)
      ensures old(cache).Keys <= cache.Keys
      ensures status.passed <==> Passes(evaluations, id)
      ensures id !in active ==> status == MeaningOf(evaluations, id) && id in cache
      ensures status == MeaningOf(evaluations, id) || status == Status(false, Some(CyclicDependency(id)))
      decreases |evaluations.Keys - active|, 1
    {
      MeaningPasses(evaluations, id);
      if id in cache {
        return cache[id];
      }
      if id in active {
        assert Reaches(evaluations, id, id);
        CycleNeverPasses(evaluations, id);
        return Status(false, Some(CyclicDependency(id)));
      }

      ghost var outer := active;
      assert id in evaluations.Keys - outer;
      active := active + {id};
      SubsetSize(evaluations.Keys - active, evaluations.Keys - outer);
      var parts := ResolveDependencies(id);
      active := active - {id};
      assert active == outer;

      parts := parts + LocalParts(evaluations[id]);
      status := StatusOf(parts);
      cache := cache[id := status];
    }

    /** The dependency loop of one descent: the message parts contributed by the dependencies of `id`. */
    method ResolveDependencies(id: Id) returns (parts: seq<string>)
      requires Valid() && id in active
      requires AllReach(evaluations, active - {id}, id)
      modifies this
      ensures Valid() && active == old(active)
      ensures old(cache).Keys <= cache.Keys
      ensures parts == DependencyParts(evaluations, evaluations[id].check.dependsOn)
      decreases |evaluations.Keys - active|, 2
    {
      var deps := evaluations[id].check.dependsOn;
      parts := [];
      for i := 0 to |deps|
        invariant Valid() && active == old(active)
        invariant old(cache).Keys <= cache.Keys
        invariant parts == DependencyParts(evaluations, deps[..i])
      {
        DependencyPartsSnoc(evaluations, deps, i);
        if deps[i] !in evaluations {
          parts := parts + [MissingDependency(deps[i])];
        } else {
          AllReachStep(evaluations, active, id, deps[i]);
          var dependency := Resolve(deps[i]);
          if !dependency.passed {
            parts := parts + [FailedDependency(deps[i])];
          }
        }
      }
      assert deps[..|deps|] == deps;
    }
  }

  // ---------- checkWorkflow ----------

  function MatchPatterns(scan: Scan, patterns: seq<string>): (r: seq<PatternMatch>)
    ensures |r| == |patterns|
    ensures forall i | 0 <= i < |r| :: r[i] == PatternMatch(patterns[i], scan.matched(patterns[i]))
  {
    seq(|patterns|, i requires 0 <= i < |patterns| => PatternMatch(patterns[i], scan.matched(patterns[i])))
  }

  function CheckForbidden(scan: Scan, patterns: seq<string>): (r: seq<ForbiddenMatch>)
    ensures |r| == |patterns|
    ensures forall i | 0 <= i < |r| :: r[i] == ForbiddenMatch(patterns[i], scan.violated(patterns[i]))
  {
    seq(|patterns|, i requires 0 <= i < |patterns| => ForbiddenMatch(patterns[i], scan.violated(patterns[i])))
  }

  function Evaluate(scan: Scan, check: Check): Evaluation {
    Evaluation(check, MatchPatterns(scan, check.requiredPatterns), CheckForbidden(scan, check.forbiddenPatterns))
  }

  predicate Usable(scan: Scan, pattern: string) {
    pattern != "" && scan.compiles(pattern)
  }

  /** The first pattern that cannot be used: empty, or not a regular expression. */
  function FirstBad(scan: Scan, patterns: seq<string>): Option<string> {
    if patterns == [] then None
    else if !Usable(scan, patterns[0]) then Some(patterns[0])
    else FirstBad(scan, patterns[1..])
  }

  lemma {:induction false} FirstBadIsFirst(scan: Scan, patterns: seq<string>)
    ensures FirstBad(scan, patterns).None? <==> forall p | p in patterns :: Usable(scan, p)
    ensures FirstBad(scan, patterns).Some? ==>
              exists i | 0 <= i < |patterns| :: patterns[i] == FirstBad(scan, patterns).value &&
                !Usable(scan, patterns[i]) && forall p | p in patterns[..i] :: Usable(scan, p)
  {
    if patterns != [] {
      var rest := patterns[1..];
      assert patterns == [patterns[0]] + rest;
      FirstBadIsFirst(scan, rest);
      if Usable(scan, patterns[0]) && FirstBad(scan, rest).Some? {
        var i :| 0 <= i < |rest| && rest[i] == FirstBad(scan, rest).value && !Usable(scan, rest[i]) &&
                 forall p | p in rest[..i] :: Usable(scan, p);
        assert patterns[..i + 1] == [patterns[0]] + rest[..i];
        assert patterns[i + 1] == rest[i];
      }
    }
  }

  /** Required patterns are compiled before forbidden ones. */
  function BadPattern(scan: Scan, check: Check): Option<string> {
    FirstBad(scan, check.requiredPatterns + check.forbiddenPatterns)
  }

  function PatternError(id: Id, pattern: string): WorkflowError {
    if pattern == "" then EmptyPattern(id) else InvalidPattern(id, pattern)
  }

  ghost predicate DistinctIds(checks: seq<Check>) {
    forall i, j | 0 <= i < j < |checks| :: checks[i].id != checks[j].id
  }

  ghost predicate WellFormed(scan: Scan, checks: seq<Check>) {
    DistinctIds(checks) && forall c | c in checks :: BadPattern(scan, c).None?
  }

  /** The evaluations of a well-formed list, as a set of facts rather than an insertion order. */
  ghost predicate EvaluationsFor(scan: Scan, checks: seq<Check>, evals: Evaluations) {
    && (forall c | c in checks :: c.id in evals && evals[c.id] == Evaluate(scan, c))
    && (forall id | id in evals :: exists c :: c in checks && c.id == id)
  }

  /** Each check's meaning, in the order of the list. */
  ghost function ResultsOf(evals: Evaluations, checks: seq<Check>): seq<CheckResult>
    requires forall c | c in checks :: c.id in evals
  {
    seq(|checks|, i requires 0 <= i < |checks| => ResultOf(evals, checks[i].id))
  }

  /** The first check that cannot be evaluated stops the call. */
  ghost predicate StopsAt(scan: Scan, checks: seq<Check>, j: nat, error: WorkflowError) {
    && j < |checks|
    && WellFormed(scan, checks[..j])
    && if exists c :: c in checks[..j] && c.id == checks[j].id
       then error == DuplicateCheckId(checks[j].id)
       else BadPattern(scan, checks[j]).Some? &&
            error == PatternError(checks[j].id, BadPattern(scan, checks[j]).value)
  }

  method CheckWorkflow(scan: Scan, checks: seq<Check>) returns (r: Result<seq<CheckResult>, WorkflowError>)
    ensures r.Ok? <==> WellFormed(scan, checks)
    ensures r.Err? ==> exists j: nat :: StopsAt(scan, checks, j, r.error)
    ensures r.Ok? ==> exists evals :: EvaluationsFor(scan, checks, evals) && r.value == ResultsOf(evals, checks)
  {
    var evaluations := EvaluateAll(scan, checks);
    if evaluations.Err? {
      return Err(evaluations.error);
    }
    var results := ResolveAll(evaluations.value, checks);
    r := Ok(results);
  }

  lemma WellFormedSnoc(scan: Scan, checks: seq<Check>, i: nat)
    requires i < |checks| && WellFormed(scan, checks[..i])
    requires BadPattern(scan, checks[i]).None? && forall c | c in checks[..i] :: c.id != checks[i].id
    ensures WellFormed(scan, checks[..i + 1])
  {
    var longer := checks[..i + 1];
    forall a, b | 0 <= a < b < |longer|
      ensures longer[a].id != longer[b].id
    {
      assert checks[a] in checks[..i];
    }
  }

  lemma StopsNotWellFormed(scan: Scan, checks: seq<Check>, j: nat, error: WorkflowError)
    requires StopsAt(scan, checks, j, error)
    ensures !WellFormed(scan, checks)
  {
    if c :| c in checks[..j] && c.id == checks[j].id {
      var i :| 0 <= i < j && checks[i] == c;
    } else {
      assert checks[j] in checks;
    }
  }

  /** The first pass: every check is matched against the text once, before any is resolved. */
  method EvaluateAll(scan: Scan, checks: seq<Check>) returns (r: Result<Evaluations, WorkflowError>)
    ensures r.Ok? <==> WellFormed(scan, checks)
    ensures r.Err? ==> exists j: nat :: StopsAt(scan, checks, j, r.error)
    ensures r.Ok? ==> EvaluationsFor(scan, checks, r.value)
  {
    var evaluations: Evaluations := map[];
    for i := 0 to |checks|
      invariant WellFormed(scan, checks[..i])
      invariant EvaluationsFor(scan, checks[..i], evaluations)
    {
      var check := checks[i];
      assert checks[..i + 1] == checks[..i] + [check];
      if check.id in evaluations {
        assert StopsAt(scan, checks, i, DuplicateCheckId(check.id));
        StopsNotWellFormed(scan, checks, i, DuplicateCheckId(check.id));
        return Err(DuplicateCheckId(check.id));
      }
      var bad := BadPattern(scan, check);
      if bad.Some? {
        assert StopsAt(scan, checks, i, PatternError(check.id, bad.value));
        StopsNotWellFormed(scan, checks, i, PatternError(check.id, bad.value));
        return Err(PatternError(check.id, bad.value));
      }
      WellFormedSnoc(scan, checks, i);
      evaluations := evaluations[check.id := Evaluate(scan, check)];
    }
    assert checks[..|checks|] == checks;
    r := Ok(evaluations);
  }

  /** One descent with no check under way. */
  method ResolveAfresh(resolver: Resolver, id: Id) returns (result: CheckResult)
    requires resolver.Valid() && resolver.active == {} && id in resolver.evaluations
    modifies resolver
    ensures resolver.Valid() && resolver.active == {}
    ensures result == ResultOf(resolver.evaluations, id)
  {
    var status := resolver.Resolve(id);
    var e := resolver.evaluations[id];
    result := CheckResult(id, status.passed, e.matches, e.forbiddenMatches, status.message);
  }

  /** The second pass: one descent per check, all sharing the resolver's cache. */
  method ResolveAll(evaluations: Evaluations, checks: seq<Check>) returns (results: seq<CheckResult>)
    requires forall c | c in checks :: c.id in evaluations
    ensures results == ResultsOf(evaluations, checks)
  {
    var resolver := new Resolver(evaluations);
    results := [];
    for i := 0 to |checks|
      invariant resolver.Valid() && resolver.active == {} && resolver.evaluations == evaluations
      invariant fresh(resolver)
      invariant |results| == i && forall k | 0 <= k < i :: results[k] == ResultOf(evaluations, checks[k].id)
    {
      var result := ResolveAfresh(resolver, checks[i].id);
      results := results + [result];
    }
  }
}
