/** What `checkWorkflow` computes, stated on the dependency graph alone. */
module WorkflowTheory {
  import opened Collections
  import opened Workflow

  /** `x` is `id` itself or lies below it. */
  ghost predicate Below(evals: Evaluations, id: Id, x: Id) {
    x == id || Reaches(evals, id, x)
  }

  /** Everything below `id` exists, is locally fine and lies on no cycle. */
  ghost predicate SoundBelow(evals: Evaluations, id: Id) {
    forall x | Below(evals, id, x) :: x in evals && LocallyOk(evals[x]) && !Reaches(evals, x, x)
  }

  lemma ReachesPrepends(evals: Evaluations, a: Id, b: Id, c: Id)
    requires Edge(evals, a, b) && Below(evals, b, c)
    ensures Reaches(evals, a, c)
  {
    if c == b {
      ReachesStep(evals, a, b);
    } else {
      var p :| IsPath(evals, p) && p[0] == b && p[|p| - 1] == c;
      var q := [a] + p;
      assert IsPath(evals, q) by {
        forall i | 0 <= i < |q| - 1
          ensures Edge(evals, q[i], q[i + 1])
        {
          if i > 0 {
            assert Edge(evals, p[i - 1], p[i]);
          }
        }
      }
    }
  }

  /** Without cycles the descent runs out of new checks, so a derivation exists. */
  lemma {:induction false} SoundPasses(evals: Evaluations, id: Id, above: set<Id>)
    requires SoundBelow(evals, id)
    requires above <= evals.Keys && AllReach(evals, above, id)
    ensures Passes(evals, id)
    decreases |evals.Keys - above|
  {
    assert Below(evals, id, id);
    assert id !in above;
    var wider := above + {id};
    assert id in evals.Keys - above;
    SubsetSize(evals.Keys - wider, evals.Keys - above);
    forall d | d in evals[id].check.dependsOn
      ensures Passes(evals, d)
    {
      assert wider - {id} == above;
      AllReachStep(evals, wider, id, d);
      forall x | Below(evals, d, x)
        ensures Below(evals, id, x)
      {
        ReachesPrepends(evals, id, d, x);
      }
      SoundPasses(evals, d, wider);
    }
    PassesUnfolds(evals, id);
  }

  lemma {:induction false} PassesAlongPath(evals: Evaluations, p: seq<Id>, k: nat)
    requires IsPath(evals, p) && k < |p| && Passes(evals, p[0])
    ensures Passes(evals, p[k])
    decreases k
  {
    if k > 0 {
      PassesAlongPath(evals, p, k - 1);
      PassesUnfolds(evals, p[k - 1]);
      assert Edge(evals, p[k - 1], p[k]);
    }
  }

  /** The least fixed point, read off the graph. */
  lemma PassesIffSoundBelow(evals: Evaluations, id: Id)
    ensures Passes(evals, id) <==> SoundBelow(evals, id)
  {
    if SoundBelow(evals, id) {
      SoundPasses(evals, id, {});
    }
    if Passes(evals, id) {
      forall x | Below(evals, id, x)
        ensures x in evals && LocallyOk(evals[x]) && !Reaches(evals, x, x)
      {
        if x != id {
          var p :| IsPath(evals, p) && p[0] == id && p[|p| - 1] == x;
          PassesAlongPath(evals, p, |p| - 1);
        }
        PassesUnfolds(evals, x);
        if Reaches(evals, x, x) {
          CycleNeverPasses(evals, x);
        }
      }
    }
  }

  lemma EvaluationsUnique(scan: Scan, checks: seq<Check>, checks': seq<Check>, a: Evaluations, b: Evaluations)
    requires forall c :: c in checks <==> c in checks'
    requires EvaluationsFor(scan, checks, a) && EvaluationsFor(scan, checks', b)
    ensures a == b
  {
    assert a.Keys == b.Keys;
    forall id | id in a
      ensures a[id] == b[id]
    {
      var c :| c in checks && c.id == id;
    }
  }

  /** Reordering the checks reorders the results and changes nothing in them, messages included. */
  lemma OrderIndependent(scan: Scan, checks: seq<Check>, checks': seq<Check>, a: Evaluations, b: Evaluations)
    requires multiset(checks) == multiset(checks')
    requires EvaluationsFor(scan, checks, a) && EvaluationsFor(scan, checks', b)
    ensures multiset(ResultsOf(a, checks)) == multiset(ResultsOf(b, checks'))
    ensures forall i, j | 0 <= i < |checks| && 0 <= j < |checks'| && checks[i] == checks'[j] ::
              ResultsOf(a, checks)[i] == ResultsOf(b, checks')[j]
  {
    Permuted(checks, checks');
    EvaluationsUnique(scan, checks, checks', a, b);
    ResultsPermute(a, checks, checks');
  }

  lemma ResultsPermute(a: Evaluations, checks: seq<Check>, checks': seq<Check>)
    requires multiset(checks) == multiset(checks')
    requires (forall c | c in checks :: c.id in a) && forall c | c in checks' :: c.id in a
    ensures multiset(ResultsOf(a, checks)) == multiset(ResultsOf(a, checks'))
  {
    var result := (c: Check) => if c.id in a then ResultOf(a, c.id) else CheckResult(c.id, false, [], [], None);
    MapPermutes(result, checks, checks');
    assert Map(result, checks) == ResultsOf(a, checks);
    assert Map(result, checks') == ResultsOf(a, checks');
  }

  lemma FirstPart(parts: seq<string>, separator: string)
    requires |parts| > 0 && |parts[0]| > 0
    ensures |Join(parts, separator)| > 0 && Join(parts, separator)[0] == parts[0][0]
  {
  }

  lemma {:induction false} DependencyPartsStart(evals: Evaluations, deps: seq<Id>)
    ensures forall p | p in DependencyParts(evals, deps) :: |p| > 0 && p[0] != 'C'
  {
    if deps != [] {
      DependencyPartsStart(evals, deps[..|deps| - 1]);
      var d := deps[|deps| - 1];
      assert MissingDependency(d)[0] == 'M' && FailedDependency(d)[0] == 'D';
    }
  }

  /** The failure returned on a back edge stays inside the descent: no reported message is that text. */
  lemma CyclicMessageNeverReported(evals: Evaluations, id: Id, other: Id)
    requires id in evals
    ensures ResultOf(evals, id).message != Some(CyclicDependency(other))
    ensures ResultOf(evals, id).passed <==> ResultOf(evals, id).message == None
  {
    var e := evals[id];
    var parts := DependencyParts(evals, e.check.dependsOn) + LocalParts(e);
    DependencyPartsStart(evals, e.check.dependsOn);
    if parts != [] {
      assert |parts[0]| > 0 && parts[0][0] != 'C';
      FirstPart(parts, "; ");
      assert CyclicDependency(other)[0] == 'C';
    }
  }

  // ---------- The default chain ----------

  /** Each check depends on the one before it, as default builder steps do. */
  ghost predicate DefaultChain(checks: seq<Check>) {
    forall i | 0 <= i < |checks| :: checks[i].dependsOn == if i == 0 then [] else [checks[i - 1].id]
  }

  lemma {:induction false} ChainPasses(scan: Scan, checks: seq<Check>, evals: Evaluations, i: nat)
    requires DefaultChain(checks) && EvaluationsFor(scan, checks, evals) && i < |checks|
    ensures Passes(evals, checks[i].id) <==> forall j | 0 <= j <= i :: LocallyOk(Evaluate(scan, checks[j]))
  {
    PassesUnfolds(evals, checks[i].id);
    if i > 0 {
      ChainPasses(scan, checks, evals, i - 1);
      assert checks[i].dependsOn == [checks[i - 1].id];
    }
  }

  /** In a default chain the passed steps are exactly the steps before the first locally failing one. */
  lemma ChainPassesPrefix(scan: Scan, checks: seq<Check>, evals: Evaluations) returns (k: nat)
    requires DefaultChain(checks) && EvaluationsFor(scan, checks, evals)
    ensures k <= |checks| && (k < |checks| ==> !LocallyOk(Evaluate(scan, checks[k])))
    ensures forall i | 0 <= i < |checks| :: ResultsOf(evals, checks)[i].passed <==> i < k
  {
    k := 0;
    while k < |checks| && LocallyOk(Evaluate(scan, checks[k]))
      invariant k <= |checks|
      invariant forall j | 0 <= j < k :: LocallyOk(Evaluate(scan, checks[j]))
    {
      k := k + 1;
    }
    forall i | 0 <= i < |checks|
      ensures ResultsOf(evals, checks)[i].passed <==> i < k
    {
      ChainPasses(scan, checks, evals, i);
      MeaningPasses(evals, checks[i].id);
    }
  }
}
