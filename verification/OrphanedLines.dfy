/** Which line of the transcript each finding points at. */
module OrphanedLines {
  import opened Collections
  import opened OrphanedSessions

  /** The record stems from line `p`: an anonymous creation, or the first line that names the record's session as
      created. */
  ghost predicate StemsFrom(r: Record, lines: seq<Line>, p: nat) {
    && p < |lines| && lines[p].Create?
    && r.lineNumber == lines[p].lineNumber && r.matchedText == lines[p].text
    && (lines[p].ids != [] ==> r.id.Some? && r.id.value in lines[p].ids && r.id.value !in Created(lines[..p]))
  }

  ghost predicate InOrderOfLines(at: seq<nat>) {
    forall i, j | 0 <= i < j < |at| :: at[i] <= at[j]
  }

  /** `at` holds the line of each record; records come in the order of their lines. */
  ghost predicate Traces(records: seq<Record>, lines: seq<Line>, at: seq<nat>) {
    && |at| == |records| && InOrderOfLines(at)
    && forall i | 0 <= i < |records| :: StemsFrom(records[i], lines, at[i])
  }

  lemma StemsLater(r: Record, lines: seq<Line>, line: Line, p: nat)
    requires StemsFrom(r, lines, p)
    ensures StemsFrom(r, lines + [line], p)
  {
    assert (lines + [line])[..p] == lines[..p];
  }

  lemma TracesLater(records: seq<Record>, lines: seq<Line>, line: Line, at: seq<nat>)
    requires Traces(records, lines, at)
    ensures Traces(records, lines + [line], at)
  {
    forall i | 0 <= i < |records|
      ensures StemsFrom(records[i], lines + [line], at[i])
    {
      StemsLater(records[i], lines, line, at[i]);
    }
  }

  /** A record whose line and text stay, and whose name only appears, stems from the same line. */
  lemma TracesUpdate(records: seq<Record>, lines: seq<Line>, at: seq<nat>, i: nat, r: Record)
    requires Traces(records, lines, at) && i < |records|
    requires r.lineNumber == records[i].lineNumber && r.matchedText == records[i].matchedText
    requires records[i].id.Some? ==> r.id == records[i].id
    ensures Traces(records[i := r], lines, at)
  {
    assert StemsFrom(records[i], lines, at[i]);
    assert StemsFrom(r, lines, at[i]);
  }

  lemma TracesAppend(records: seq<Record>, lines: seq<Line>, at: seq<nat>, r: Record)
    requires Traces(records, lines, at) && |lines| > 0 && StemsFrom(r, lines, |lines| - 1)
    ensures Traces(records + [r], lines, at + [|lines| - 1])
  {
    forall i | 0 <= i < |records|
      ensures at[i] <= |lines| - 1
    {
      assert StemsFrom(records[i], lines, at[i]);
    }
  }

  // ---------- Creations ----------

  /** The line being read names `id`, and the matcher knows every session created before it. */
  ghost predicate Reading(s: State, lines: seq<Line>, id: Id) {
    && Inv(s) && |lines| > 0 && lines[|lines| - 1].Create? && id in lines[|lines| - 1].ids
    && Created(lines[..|lines| - 1]) <= s.createdById.Keys
  }

  lemma RegisterOneTraces(s: State, lines: seq<Line>, id: Id, at: seq<nat>) returns (at': seq<nat>)
    requires Reading(s, lines, id) && Traces(s.records, lines, at)
    ensures
      var line := lines[|lines| - 1];
      Traces(RegisterOne(s, id, line.lineNumber, line.text).records, lines, at')
  {
    var line := lines[|lines| - 1];
    var t := RegisterOne(s, id, line.lineNumber, line.text);
    at' := at;
    if id in s.createdById {
      TracesUpdate(s.records, lines, at, s.createdById[id], t.records[s.createdById[id]]);
    } else if |s.pendingAnonymous| > 0 {
      TracesUpdate(s.records, lines, at, s.pendingAnonymous[0], t.records[s.pendingAnonymous[0]]);
    } else {
      at' := at + [|lines| - 1];
      TracesAppend(s.records, lines, at, t.records[|s.records|]);
    }
  }

  lemma {:induction false} RegisterAllTraces(s: State, lines: seq<Line>, ids: seq<Id>, at: seq<nat>)
    returns (at': seq<nat>)
    requires Inv(s) && Traces(s.records, lines, at) && forall id | id in ids :: Reading(s, lines, id)
    requires |lines| > 0 && lines[|lines| - 1].Create?
    ensures
      var line := lines[|lines| - 1];
      Traces(RegisterAll(s, ids, line.lineNumber, line.text).records, lines, at')
    decreases ids
  {
    at' := at;
    if ids != [] {
      var line := lines[|lines| - 1];
      var t := RegisterOne(s, ids[0], line.lineNumber, line.text);
      assert Reading(s, lines, ids[0]);
      RegisterOneInv(s, ids[0], line.lineNumber, line.text);
      RegisterOneGrows(s, ids[0], line.lineNumber, line.text);
      var at'' := RegisterOneTraces(s, lines, ids[0], at);
      forall id | id in ids[1..]
        ensures Reading(t, lines, id)
      {
        assert Reading(s, lines, id);
      }
      at' := RegisterAllTraces(t, lines, ids[1..], at'');
    }
  }

  lemma RegisterOneGrows(s: State, id: Id, n: nat, text: string)
    requires Inv(s)
    ensures s.createdById.Keys <= RegisterOne(s, id, n, text).createdById.Keys
  {
  }

  // ---------- Cleanups ----------

  /** The records differ in nothing but what is cleaned. */
  ghost predicate SameButCleaned(a: seq<Record>, b: seq<Record>) {
    |a| == |b| && forall i | 0 <= i < |a| :: b[i] == a[i].(cleaned := b[i].cleaned)
  }

  lemma SameTraces(a: seq<Record>, b: seq<Record>, lines: seq<Line>, at: seq<nat>)
    requires SameButCleaned(a, b) && Traces(a, lines, at)
    ensures Traces(b, lines, at)
  {
    forall i | 0 <= i < |b|
      ensures StemsFrom(b[i], lines, at[i])
    {
      assert StemsFrom(a[i], lines, at[i]);
    }
  }

  lemma SameTwice(a: seq<Record>, b: seq<Record>, c: seq<Record>)
    requires SameButCleaned(a, b) && SameButCleaned(b, c)
    ensures SameButCleaned(a, c)
  {
  }

  lemma {:induction false} CleanAllKeeps(s: State, ids: seq<Id>)
    requires Inv(s)
    ensures SameButCleaned(s.records, CleanAll(s, ids).records)
    decreases ids
  {
    if ids != [] {
      CleanOneInv(s, ids[0]);
      CleanAllKeeps(CleanOne(s, ids[0]), ids[1..]);
      SameTwice(s.records, CleanOne(s, ids[0]).records, CleanAll(s, ids).records);
    }
  }

  lemma CleanKeeps(s: State, ids: seq<Id>)
    requires Inv(s)
    ensures SameButCleaned(s.records, Clean(s, ids).records)
  {
    if ids != [] {
      CleanAllKeeps(s, ids);
    }
  }

  lemma {:induction false} ReconcileKeeps(records: seq<Record>, anonymous: seq<nat>, pending: seq<Id>)
    requires forall k | 0 <= k < |anonymous| :: anonymous[k] < |records|
    ensures SameButCleaned(records, ReconcileFrom(records, anonymous, pending).0)
    decreases anonymous
  {
    if anonymous != [] && pending != [] {
      var i := anonymous[0];
      if records[i].cleaned || records[i].id.Some? {
        ReconcileKeeps(records, anonymous[1..], pending);
      } else {
        var after := records[i := records[i].(cleaned := true)];
        ReconcileKeeps(after, anonymous[1..], pending[1..]);
        SameTwice(records, after, ReconcileFrom(records, anonymous, pending).0);
      }
    }
  }

  // ---------- The whole transcript ----------

  lemma StepTraces(s: State, before: seq<Line>, line: Line, at: seq<nat>) returns (at': seq<nat>)
    requires Inv(s) && Traces(s.records, before, at) && s.createdById.Keys == Created(before)
    ensures Traces(Step(s, line).records, before + [line], at')
  {
    var lines := before + [line];
    assert lines[..|lines| - 1] == before;
    TracesLater(s.records, before, line, at);
    match line
    case Create(ids, n, text) =>
      if ids == [] {
        at' := at + [|before|];
        TracesAppend(s.records, lines, at, Record(None, n, text, false));
      } else {
        at' := RegisterAllTraces(s, lines, ids, at);
      }
    case Destroy(ids) =>
      at' := at;
      CleanKeeps(s, ids);
      SameTraces(s.records, Step(s, line).records, lines, at);
  }

  lemma {:induction false} ScanTraces(lines: seq<Line>) returns (at: seq<nat>)
    ensures Traces(Scan(lines).records, lines, at)
    decreases |lines|
  {
    at := [];
    if lines != [] {
      var before, line := lines[..|lines| - 1], lines[|lines| - 1];
      assert lines == before + [line];
      var at' := ScanTraces(before);
      ScanKnows(before);
      ScanSnoc(before, line);
      at := StepTraces(Scan(before), before, line, at');
    }
  }

  lemma {:induction false} UncleanedTraces(records: seq<Record>, lines: seq<Line>, at: seq<nat>)
    returns (at': seq<nat>)
    requires Traces(records, lines, at)
    ensures Traces(Uncleaned(records), lines, at')
    ensures at != [] && at' != [] ==> at[0] <= at'[0]
  {
    at' := [];
    if records != [] {
      var rest := UncleanedTraces(records[1..], lines, at[1..]);
      if records[0].cleaned {
        at' := rest;
      } else {
        at' := [at[0]] + rest;
        HeadTraces(records[0], Uncleaned(records[1..]), lines, at[0], rest);
      }
    }
  }

  lemma HeadTraces(r: Record, rest: seq<Record>, lines: seq<Line>, p: nat, at: seq<nat>)
    requires Traces(rest, lines, at) && StemsFrom(r, lines, p) && (at != [] ==> p <= at[0])
    ensures Traces([r] + rest, lines, [p] + at)
  {
    forall j | 0 <= j < |at|
      ensures p <= at[j]
    {
    }
  }

  /** The findings come in the order of their lines, and each carries number and text of its line: an anonymous
      creation, or the first line that names the session as created. */
  lemma FindingsPointAtLines(lines: seq<Line>) returns (at: seq<nat>)
    ensures Traces(Orphans(lines), lines, at)
  {
    var s := Scan(lines);
    var all := ScanTraces(lines);
    ReconcileKeeps(s.records, s.pendingAnonymous, s.pendingCleanup);
    SameTraces(s.records, Reconcile(s).records, lines, all);
    at := UncleanedTraces(Reconcile(s).records, lines, all);
  }
}
