/** What the results of `checkWorkflow` say, field by field, in terms of the checks and the text alone. */
module WorkflowMessages {
  import opened Collections
  import opened Sublists
  import opened Workflow

  // ---------- Lists of what failed ----------

  lemma Associate<T>(a: seq<T>, b: seq<T>, c: seq<T>)
    ensures a + (b + c) == a + b + c
  {
  }

  lemma {:induction false} UnmatchedSnoc(matches: seq<PatternMatch>, m: PatternMatch)
    ensures Unmatched(matches + [m]) == Unmatched(matches) + if m.matched then [] else [m.pattern]
  {
    if matches == [] {
      assert matches + [m] == [m] && [m][1..] == [];
    } else {
      var rest := matches[1..];
      assert (matches + [m])[1..] == rest + [m];
      UnmatchedSnoc(rest, m);
      Associate(if matches[0].matched then [] else [matches[0].pattern], Unmatched(rest),
                if m.matched then [] else [m.pattern]);
    }
  }

  lemma {:induction false} ViolatedSnoc(matches: seq<ForbiddenMatch>, m: ForbiddenMatch)
    ensures Violated(matches + [m]) == Violated(matches) + if m.violated then [m.pattern] else []
  {
    if matches == [] {
      assert matches + [m] == [m] && [m][1..] == [];
    } else {
      var rest := matches[1..];
      assert (matches + [m])[1..] == rest + [m];
      ViolatedSnoc(rest, m);
      Associate(if matches[0].violated then [matches[0].pattern] else [], Violated(rest),
                if m.violated then [m.pattern] else []);
    }
  }

  /** The missing patterns are exactly the required ones that the text does not match. */
  lemma {:induction false} UnmatchedListed(scan: Scan, patterns: seq<string>, missing: string -> bool)
    requires forall p :: missing(p) <==> !scan.matched(p)
    ensures Listed(Unmatched(MatchPatterns(scan, patterns)), patterns, missing)
  {
    if patterns == [] {
      NothingListed(missing);
    } else {
      var init, last := patterns[..|patterns| - 1], patterns[|patterns| - 1];
      UnmatchedListed(scan, init, missing);
      UnmatchedNext(scan, init, last);
      assert patterns == init + [last];
      ListedNext(Unmatched(MatchPatterns(scan, init)), init, missing, last, Unmatched(MatchPatterns(scan, patterns)));
    }
  }

  lemma UnmatchedNext(scan: Scan, init: seq<string>, last: string)
    ensures Unmatched(MatchPatterns(scan, init + [last])) ==
            Unmatched(MatchPatterns(scan, init)) + if scan.matched(last) then [] else [last]
  {
    var m := PatternMatch(last, scan.matched(last));
    assert MatchPatterns(scan, init + [last]) == MatchPatterns(scan, init) + [m];
    UnmatchedSnoc(MatchPatterns(scan, init), m);
  }

  /** The violated patterns are exactly the forbidden ones that the text violates. */
  lemma {:induction false} ViolatedListed(scan: Scan, patterns: seq<string>)
    ensures Listed(Violated(CheckForbidden(scan, patterns)), patterns, scan.violated)
  {
    if patterns == [] {
      NothingListed(scan.violated);
    } else {
      var init, last := patterns[..|patterns| - 1], patterns[|patterns| - 1];
      ViolatedListed(scan, init);
      ViolatedNext(scan, init, last);
      assert patterns == init + [last];
      ListedNext(Violated(CheckForbidden(scan, init)), init, scan.violated, last,
                 Violated(CheckForbidden(scan, patterns)));
    }
  }

  lemma ViolatedNext(scan: Scan, init: seq<string>, last: string)
    ensures Violated(CheckForbidden(scan, init + [last])) ==
            Violated(CheckForbidden(scan, init)) + if scan.violated(last) then [last] else []
  {
    var m := ForbiddenMatch(last, scan.violated(last));
    assert CheckForbidden(scan, init + [last]) == CheckForbidden(scan, init) + [m];
    ViolatedSnoc(CheckForbidden(scan, init), m);
  }

  // ---------- Dependencies ----------

  ghost predicate Names(checks: seq<Check>, id: Id) {
    exists c :: c in checks && c.id == id
  }

  /** One part per dependency that is missing or does not pass. */
  ghost predicate SaysWhy(part: string, checks: seq<Check>, d: Id) {
    part == if Names(checks, d) then "Dependency \"" + d + "\" did not pass" else "Missing dependency \"" + d + "\""
  }

  ghost predicate SaysWhyAll(parts: seq<string>, checks: seq<Check>, found: seq<Id>) {
    |parts| == |found| && forall k | 0 <= k < |found| :: SaysWhy(parts[k], checks, found[k])
  }

  lemma {:induction false} DependenciesListed(scan: Scan, checks: seq<Check>, evals: Evaluations, deps: seq<Id>,
                                              failing: Id -> bool)
    returns (found: seq<Id>)
    requires EvaluationsFor(scan, checks, evals) && forall d :: failing(d) <==> !Passes(evals, d)
    ensures Listed(found, deps, failing) && SaysWhyAll(DependencyParts(evals, deps), checks, found)
  {
    found := [];
    if deps == [] {
      NothingListed(failing);
    } else {
      var init, last := deps[..|deps| - 1], deps[|deps| - 1];
      var before := DependenciesListed(scan, checks, evals, init, failing);
      assert deps == init + [last];
      DependencyPartReads(scan, checks, evals, last);
      found := before + if failing(last) then [last] else [];
      ListedNext(before, init, failing, last, found);
    }
  }

  lemma DependencyPartReads(scan: Scan, checks: seq<Check>, evals: Evaluations, d: Id)
    requires EvaluationsFor(scan, checks, evals)
    ensures Passes(evals, d) ==> DependencyPart(evals, d) == []
    ensures !Passes(evals, d) ==> |DependencyPart(evals, d)| == 1 && SaysWhy(DependencyPart(evals, d)[0], checks, d)
  {
    PassesUnfolds(evals, d);
    if Names(checks, d) {
      var c :| c in checks && c.id == d;
    }
  }

  // ---------- Joined texts ----------

  /** Joining puts one separator between any two neighbours and nothing else. */
  lemma {:induction false} JoinAppends(a: seq<string>, b: seq<string>, separator: string)
    ensures Join([], separator) == "" && forall x :: Join([x], separator) == x
    ensures a != [] && b != [] ==> Join(a + b, separator) == Join(a, separator) + separator + Join(b, separator)
  {
    if |a| == 1 && b != [] {
      assert (a + b)[1..] == b;
    } else if |a| > 1 && b != [] {
      JoinAppends(a[1..], b, separator);
      assert (a + b)[1..] == a[1..] + b;
    }
  }

  // ---------- Results ----------

  /** A part that names a list, if there is something to name. */
  ghost predicate PartOf(part: seq<string>, heading: string, found: seq<string>) {
    part == if found == [] then [] else [heading + Join(found, ", ")]
  }

  /** What a message is made of. */
  datatype Parts = Parts(dependencies: seq<string>, missing: seq<string>, violated: seq<string>)

  /** Passed and no message exactly if nothing failed; else the message says what failed, kind after kind. */
  ghost predicate Reports(r: CheckResult, parts: Parts) {
    && (r.passed <==> parts == Parts([], [], []))
    && r.message == if r.passed then None else Some(Join(parts.dependencies + parts.missing + parts.violated, "; "))
  }

  lemma LocalPartsRead(e: Evaluation) returns (missing: seq<string>, violated: seq<string>)
    ensures LocalParts(e) == missing + violated
    ensures PartOf(missing, "Missing required patterns: ", Unmatched(e.matches))
    ensures PartOf(violated, "Matched forbidden patterns: ", Violated(e.forbiddenMatches))
  {
    missing := if Unmatched(e.matches) == [] then [] else [LocalParts(e)[0]];
    violated := LocalParts(e)[|missing|..];
  }

  lemma MeaningReads(evals: Evaluations, id: Id, missing: seq<string>, violated: seq<string>)
    requires id in evals && LocalParts(evals[id]) == missing + violated
    ensures Reports(ResultOf(evals, id), Parts(DependencyParts(evals, evals[id].check.dependsOn), missing, violated))
  {
    var why := DependencyParts(evals, evals[id].check.dependsOn);
    assert why + (missing + violated) == why + missing + violated;
  }

  /** What check `i` reports: a message of the dependencies that are missing or did not pass, then all required patterns
      that are missing, then all forbidden ones that are violated, each kind in the order of the check; it has passed,
      without message, exactly if there are none of the three. */
  lemma ResultReads(scan: Scan, checks: seq<Check>, evals: Evaluations, i: nat, missing: string -> bool,
                    failing: Id -> bool)
    returns (parts: Parts, found: seq<Id>, absent: seq<string>, present: seq<string>)
    requires EvaluationsFor(scan, checks, evals) && i < |checks|
    requires (forall p :: missing(p) <==> !scan.matched(p)) && forall d :: failing(d) <==> !Passes(evals, d)
    ensures ResultsOf(evals, checks)[i].checkId == checks[i].id && Reports(ResultsOf(evals, checks)[i], parts)
    ensures Listed(found, checks[i].dependsOn, failing) && SaysWhyAll(parts.dependencies, checks, found)
    ensures Listed(absent, checks[i].requiredPatterns, missing)
    ensures PartOf(parts.missing, "Missing required patterns: ", absent)
    ensures Listed(present, checks[i].forbiddenPatterns, scan.violated)
    ensures PartOf(parts.violated, "Matched forbidden patterns: ", present)
  {
    var check := checks[i];
    assert check in checks && evals[check.id] == Evaluate(scan, check);
    found := DependenciesListed(scan, checks, evals, check.dependsOn, failing);
    absent := Unmatched(MatchPatterns(scan, check.requiredPatterns));
    present := Violated(CheckForbidden(scan, check.forbiddenPatterns));
    UnmatchedListed(scan, check.requiredPatterns, missing);
    ViolatedListed(scan, check.forbiddenPatterns);
    var second, third := LocalPartsRead(evals[check.id]);
    MeaningReads(evals, check.id, second, third);
    parts := Parts(DependencyParts(evals, check.dependsOn), second, third);
  }

  /** One match per pattern of the check, in its order, saying what the text says. */
  lemma MatchesRead(scan: Scan, checks: seq<Check>, evals: Evaluations, i: nat)
    requires EvaluationsFor(scan, checks, evals) && i < |checks|
    ensures
      var r := ResultsOf(evals, checks)[i];
      && |r.matches| == |checks[i].requiredPatterns| && |r.forbiddenMatches| == |checks[i].forbiddenPatterns|
      && (forall k | 0 <= k < |r.matches| ::
            && r.matches[k].pattern == checks[i].requiredPatterns[k]
            && r.matches[k].matched == scan.matched(checks[i].requiredPatterns[k]))
      && (forall k | 0 <= k < |r.forbiddenMatches| ::
            && r.forbiddenMatches[k].pattern == checks[i].forbiddenPatterns[k]
            && r.forbiddenMatches[k].violated == scan.violated(checks[i].forbiddenPatterns[k]))
  {
    assert checks[i] in checks;
  }

  /** Why the call stops at check `j`: its id occurred before, or `p` is its first pattern, required ones first, that
      is empty or does not compile. */
  lemma StopReads(scan: Scan, checks: seq<Check>, j: nat, error: WorkflowError)
    requires StopsAt(scan, checks, j, error)
    ensures
      match error
      case DuplicateCheckId(id) => id == checks[j].id && exists k | 0 <= k < j :: checks[k].id == id
      case EmptyPattern(id) => id == checks[j].id && FirstUnusable(scan, checks[j], "")
      case InvalidPattern(id, p) =>
        id == checks[j].id && p != "" && !scan.compiles(p) && FirstUnusable(scan, checks[j], p)
  {
    if c :| c in checks[..j] && c.id == checks[j].id {
      var k :| 0 <= k < j && checks[k] == c;
      assert checks[k].id == checks[j].id;
    } else {
      FirstBadIsFirst(scan, checks[j].requiredPatterns + checks[j].forbiddenPatterns);
    }
  }

  ghost predicate FirstUnusable(scan: Scan, check: Check, p: string) {
    exists i | 0 <= i < |check.requiredPatterns + check.forbiddenPatterns| ::
      && (check.requiredPatterns + check.forbiddenPatterns)[i] == p
      && forall q | q in (check.requiredPatterns + check.forbiddenPatterns)[..i] :: q != "" && scan.compiles(q)
  }
}
