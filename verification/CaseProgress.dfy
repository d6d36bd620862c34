/** Planned cases and the tracker that turns trial starts and finishes into case events. */
module CaseProgress {
  import opened Collections
  import opened Scheduler

  /** A case under one skill condition. */
  datatype Identity = Identity(caseId: string, condition: string)

  datatype CaseState = CaseState(plannedTrials: nat, startedAt: Option<int>, completedTrials: nat, passed: nat,
                                 failed: nat, errored: nat, scoreSum: real, scoreCount: nat, finished: bool)

  datatype CaseEvent =
    | CaseStart(identity: Identity, plannedTrials: nat, startedAt: int)
    | CaseFinish(identity: Identity, startedAt: int, completedAt: int, durationMs: int,
                 passed: nat, failed: nat, errored: nat, meanScore: Option<real>)

  datatype Fault = UnknownCase | StartAfterFinish | FinishBeforeStart | FinishAfterFinish | TooManyTrials
                 | ClockWentBack | MissingTrialStart

  type Cases = map<Identity, CaseState>

  ghost function TrialsOf(items: seq<Identity>, id: Identity): set<nat> {
    set i: nat | i < |items| && items[i] == id
  }

  predicate ValidIdentity(id: Identity) {
    id.caseId != "" && id.condition != ""
  }

  lemma TrialsOfSnoc(items: seq<Identity>, i: nat, id: Identity)
    requires i < |items|
    ensures |TrialsOf(items[..i + 1], id)| == |TrialsOf(items[..i], id)| + if items[i] == id then 1 else 0
    ensures id in items[..i + 1] <==> |TrialsOf(items[..i + 1], id)| > 0
  {
    if items[i] == id {
      assert TrialsOf(items[..i + 1], id) == TrialsOf(items[..i], id) + {i};
    } else {
      assert TrialsOf(items[..i + 1], id) == TrialsOf(items[..i], id);
    }
    if id in items[..i + 1] {
      var j :| 0 <= j < i + 1 && items[j] == id;
      assert j in TrialsOf(items[..i + 1], id);
    }
    var trials := TrialsOf(items[..i + 1], id);
    if trials != {} {
      var k :| k in trials;
      assert items[..i + 1][k] == id;
    }
  }

  /** One entry per distinct identity, holding the number of its items. `None`: an identity with an empty part. */
  method ComputePlannedCases(items: seq<Identity>) returns (planned: Option<map<Identity, nat>>)
    ensures planned.Some? <==> forall id | id in items :: id.caseId != "" && id.condition != ""
    ensures planned.Some? ==> planned.value.Keys == SetOf(items)
    ensures planned.Some? ==> forall id | id in items :: planned.value[id] == |TrialsOf(items, id)| > 0
  {
    var cases: map<Identity, nat> := map[];
    for i := 0 to |items|
      invariant forall id | id in items[..i] :: ValidIdentity(id)
      invariant cases.Keys == SetOf(items[..i])
      invariant forall id | id in cases :: cases[id] == |TrialsOf(items[..i], id)| > 0
    {
      var item := items[i];
      assert items[..i + 1] == items[..i] + [item];
      if !ValidIdentity(item) {
        return None;
      }
      forall id
        ensures |TrialsOf(items[..i + 1], id)| == |TrialsOf(items[..i], id)| + (if item == id then 1 else 0)
      {
        TrialsOfSnoc(items, i, id);
      }
      if item !in cases {
        assert TrialsOf(items[..i], item) == {};
        cases := cases[item := 1];
      } else {
        cases := cases[item := cases[item] + 1];
      }
    }
    assert items[..|items|] == items;
    planned := Some(cases);
  }

  function FreshCase(plannedTrials: nat): CaseState {
    CaseState(plannedTrials, None, 0, 0, 0, 0, 0.0, 0, false)
  }

  // ---------- Synchronous segments of the tracker ----------

  datatype Reply = Quiet | Emit(event: CaseEvent) | Fail(fault: Fault)

  function TrialStart(cases: Cases, id: Identity, now: int): (Cases, Reply) {
    if id !in cases then (cases, Fail(UnknownCase))
    else if cases[id].finished then (cases, Fail(StartAfterFinish))
    else if cases[id].startedAt.Some? then (cases, Quiet)
    else (cases[id := cases[id].(startedAt := Some(now))], Emit(CaseStart(id, cases[id].plannedTrials, now)))
  }

  /** The counters after one more settlement. */
  function Tally(c: CaseState, settled: Settlement): CaseState {
    var counted :=
      match settled
      case Rejected(_) => c.(errored := c.errored + 1)
      case Fulfilled(v) =>
        var graded := if v.ok then c.(passed := c.passed + 1) else c.(failed := c.failed + 1);
        if v.score.None? then graded
        else graded.(scoreSum := graded.scoreSum + v.score.value, scoreCount := graded.scoreCount + 1);
    counted.(completedTrials := counted.completedTrials + 1)
  }

  function MeanScore(c: CaseState): Option<real> {
    if c.scoreCount == 0 then None else Some(c.scoreSum / c.scoreCount as real)
  }

  function TrialFinish(cases: Cases, id: Identity, settled: Settlement, now: int): (Cases, Reply) {
    if id !in cases then (cases, Fail(UnknownCase))
    else if cases[id].startedAt.None? then (cases, Fail(FinishBeforeStart))
    else if cases[id].finished then (cases, Fail(FinishAfterFinish))
    else
      var c := Tally(cases[id], settled);
      var counted := cases[id := c];
      if c.completedTrials > c.plannedTrials then (counted, Fail(TooManyTrials))
      else if c.completedTrials != c.plannedTrials then (counted, Quiet)
      else if now < c.startedAt.value then (counted, Fail(ClockWentBack))
      else (cases[id := c.(finished := true)],
            Emit(CaseFinish(id, c.startedAt.value, now, now - c.startedAt.value, c.passed, c.failed, c.errored,
                            MeanScore(c))))
  }

  /** A case after one more settlement that it has room for. */
  function Counted(c: CaseState, settled: Settlement): CaseState {
    var t := Tally(c, settled);
    t.(finished := t.completedTrials == t.plannedTrials)
  }

  function FinishReport(id: Identity, c: CaseState, now: int): CaseEvent
    requires c.startedAt.Some?
  {
    CaseFinish(id, c.startedAt.value, now, now - c.startedAt.value, c.passed, c.failed, c.errored, MeanScore(c))
  }

  /** The finish segment on a started, unfinished case: count, and report exactly when the last trial is in. */
  lemma TrialFinishCounts(cases: Cases, id: Identity, settled: Settlement, now: int)
    requires id in cases && cases[id].startedAt.Some? && !cases[id].finished
    requires cases[id].completedTrials < cases[id].plannedTrials && cases[id].startedAt.value <= now
    ensures
      var c := Counted(cases[id], settled);
      && c.startedAt == cases[id].startedAt && c.plannedTrials == cases[id].plannedTrials
      && c.completedTrials == cases[id].completedTrials + 1 <= c.plannedTrials
      && TrialFinish(cases, id, settled, now).0 == cases[id := c]
      && TrialFinish(cases, id, settled, now).1 == if c.finished then Emit(FinishReport(id, c, now)) else Quiet
  {
  }

  // ---------- The whole life of a case ----------

  /** A finish as the tracker sees it: what settled, and what its clock then says. */
  datatype Finish = Finish(settled: Settlement, now: int)

  /** Finishes of one case, one after the other, each with its own reading of the clock. */
  function FinishAll(cases: Cases, id: Identity, finishes: seq<Finish>): Cases {
    if finishes == [] then cases
    else
      var last := finishes[|finishes| - 1];
      TrialFinish(FinishAll(cases, id, finishes[..|finishes| - 1]), id, last.settled, last.now).0
  }

  function PassedIn(finishes: seq<Finish>): nat {
    if finishes == [] then 0
    else
      var last := finishes[|finishes| - 1].settled;
      PassedIn(finishes[..|finishes| - 1]) + if last.Fulfilled? && last.value.ok then 1 else 0
  }

  function FailedIn(finishes: seq<Finish>): nat {
    if finishes == [] then 0
    else
      var last := finishes[|finishes| - 1].settled;
      FailedIn(finishes[..|finishes| - 1]) + if last.Fulfilled? && !last.value.ok then 1 else 0
  }

  function ErroredIn(finishes: seq<Finish>): nat {
    if finishes == [] then 0
    else ErroredIn(finishes[..|finishes| - 1]) + if finishes[|finishes| - 1].settled.Rejected? then 1 else 0
  }

  /** The scores that were reported, in order. */
  function ScoresIn(finishes: seq<Finish>): seq<real> {
    if finishes == [] then []
    else
      var last := finishes[|finishes| - 1].settled;
      ScoresIn(finishes[..|finishes| - 1]) +
        if last.Fulfilled? && last.value.score.Some? then [last.value.score.value] else []
  }

  function Sum(scores: seq<real>): real {
    if scores == [] then 0.0 else Sum(scores[..|scores| - 1]) + scores[|scores| - 1]
  }

  lemma SumSnoc(scores: seq<real>, x: real)
    ensures Sum(scores + [x]) == Sum(scores) + x
  {
    assert (scores + [x])[..|scores|] == scores;
  }

  function MeanIn(finishes: seq<Finish>): Option<real> {
    var scores := ScoresIn(finishes);
    if scores == [] then None else Some(Sum(scores) / |scores| as real)
  }

  /** All planned finishes are in, and the last did not read a time before the case's start. */
  ghost predicate Complete(c: CaseState, finishes: seq<Finish>) {
    && 0 < |finishes| == c.plannedTrials
    && c.startedAt.Some? && c.startedAt.value <= finishes[|finishes| - 1].now
  }

  /** The counters are those of the finishes so far. */
  ghost predicate Counts(c: CaseState, before: CaseState, finishes: seq<Finish>) {
    && c.passed == PassedIn(finishes) && c.failed == FailedIn(finishes) && c.errored == ErroredIn(finishes)
    && c.completedTrials == |finishes| == c.passed + c.failed + c.errored
    && c.scoreCount == |ScoresIn(finishes)| && c.scoreSum == Sum(ScoresIn(finishes))
    && c.plannedTrials == before.plannedTrials && c.startedAt == before.startedAt
    && (c.finished <==> Complete(before, finishes))
  }

  lemma TallyCounts(c: CaseState, before: CaseState, init: seq<Finish>, last: Finish, finished: bool)
    requires Counts(c, before, init) && (finished <==> Complete(before, init + [last]))
    ensures Counts(Tally(c, last.settled).(finished := finished), before, init + [last])
  {
    assert (init + [last])[..|init|] == init;
    if HasScore(last.settled) {
      SumSnoc(ScoresIn(init), last.settled.value.score.value);
    } else {
      assert ScoresIn(init) + [] == ScoresIn(init);
    }
  }

  predicate HasScore(settled: Settlement) {
    settled.Fulfilled? && settled.value.score.Some?
  }

  ghost predicate JustStarted(cases: Cases, id: Identity) {
    && id in cases && cases[id].plannedTrials > 0 && cases[id].startedAt.Some?
    && cases[id] == FreshCase(cases[id].plannedTrials).(startedAt := cases[id].startedAt)
  }

  /** The finish segment on a started case with room for one more trial, whatever its clock says. */
  lemma OneMoreFinish(cases: Cases, id: Identity, settled: Settlement, now: int)
    requires id in cases && cases[id].startedAt.Some? && !cases[id].finished
    requires cases[id].completedTrials < cases[id].plannedTrials
    ensures
      var c := Tally(cases[id], settled);
      var (after, reply) := TrialFinish(cases, id, settled, now);
      && after == cases[id := c.(finished := c.completedTrials == c.plannedTrials && c.startedAt.value <= now)]
      && reply == if c.completedTrials != c.plannedTrials then Quiet
                  else if now < c.startedAt.value then Fail(ClockWentBack)
                  else Emit(FinishReport(id, c, now))
  {
  }

  /** A started case that receives at most its planned number of finishes, whatever they settled and whenever they were
      read, counts each of them in exactly one of passed, failed and errored, and each reported score in the mean. It
      leaves the other cases alone and is finished by the last planned one and none before. */
  lemma {:induction false} EachTrialCountedOnce(cases: Cases, id: Identity, finishes: seq<Finish>)
    requires JustStarted(cases, id) && |finishes| <= cases[id].plannedTrials
    ensures
      var after := FinishAll(cases, id, finishes);
      && after.Keys == cases.Keys && (forall other | other in cases && other != id :: after[other] == cases[other])
      && Counts(after[id], cases[id], finishes)
  {
    if finishes != [] {
      var init, last := finishes[..|finishes| - 1], finishes[|finishes| - 1];
      assert finishes == init + [last];
      EachTrialCountedOnce(cases, id, init);
      var before := FinishAll(cases, id, init);
      OneMoreFinish(before, id, last.settled, last.now);
      TallyCounts(before[id], cases[id], init, last, Complete(cases[id], finishes));
    }
  }

  /** Only the last planned finish of a case is answered with its report, which carries the counts of all, the mean of
      their scores, the case's start and the last reading; a last reading from before the start, and any further
      finish, is refused. */
  lemma ReportedByTheLast(cases: Cases, id: Identity, finishes: seq<Finish>, next: Finish)
    requires JustStarted(cases, id) && |finishes| <= cases[id].plannedTrials
    ensures
      var reply := TrialFinish(FinishAll(cases, id, finishes), id, next.settled, next.now).1;
      var all, start := finishes + [next], cases[id].startedAt.value;
      if |all| > cases[id].plannedTrials then
        reply == Fail(if Complete(cases[id], finishes) then FinishAfterFinish else TooManyTrials)
      else if |all| < cases[id].plannedTrials then reply == Quiet
      else if next.now < start then reply == Fail(ClockWentBack)
      else reply == Emit(CaseFinish(id, start, next.now, next.now - start, PassedIn(all), FailedIn(all), ErroredIn(all),
                                    MeanIn(all)))
  {
    EachTrialCountedOnce(cases, id, finishes);
    var before, all := FinishAll(cases, id, finishes), finishes + [next];
    if |all| <= cases[id].plannedTrials {
      OneMoreFinish(before, id, next.settled, next.now);
      TallyCounts(before[id], cases[id], finishes, next, Complete(cases[id], all));
    }
  }

  /** The tracker. `now` is what its clock callback answers when, and only when, it is asked. */
  class CaseProgressTracker {
    var caseStates: Cases

    constructor (planned: map<Identity, nat>)
      ensures caseStates == map id | id in planned :: FreshCase(planned[id])
    {
      caseStates := map id | id in planned :: FreshCase(planned[id]);
    }

    method OnTrialStart(id: Identity, now: int) returns (reply: Reply)
      modifies this
      ensures caseStates == TrialStart(old(caseStates), id, now).0 && reply == TrialStart(old(caseStates), id, now).1
    {
      if id !in caseStates {
        return Fail(UnknownCase);
      }
      var c := caseStates[id];
      if c.finished {
        return Fail(StartAfterFinish);
      }
      if c.startedAt != None {
        return Quiet;
      }
      caseStates := caseStates[id := c.(startedAt := Some(now))];
      reply := Emit(CaseStart(id, c.plannedTrials, now));
    }

    method OnTrialFinish(id: Identity, settled: Settlement, now: int) returns (reply: Reply)
      modifies this
      ensures caseStates == TrialFinish(old(caseStates), id, settled, now).0 &&
              reply == TrialFinish(old(caseStates), id, settled, now).1
    {
      if id !in caseStates {
        return Fail(UnknownCase);
      }
      var c := caseStates[id];
      if c.startedAt == None {
        return Fail(FinishBeforeStart);
      }
      if c.finished {
        return Fail(FinishAfterFinish);
      }
      if settled.Fulfilled? {
        if settled.value.ok {
          c := c.(passed := c.passed + 1);
        } else {
          c := c.(failed := c.failed + 1);
        }
        if settled.value.score.Some? {
          c := c.(scoreSum := c.scoreSum + settled.value.score.value, scoreCount := c.scoreCount + 1);
        }
      } else {
        c := c.(errored := c.errored + 1);
      }
      c := c.(completedTrials := c.completedTrials + 1);
      caseStates := caseStates[id := c];
      if c.completedTrials > c.plannedTrials {
        return Fail(TooManyTrials);
      }
      if c.completedTrials != c.plannedTrials {
        return Quiet;
      }
      if now < c.startedAt.value {
        return Fail(ClockWentBack);
      }
      caseStates := caseStates[id := c.(finished := true)];
      reply := Emit(CaseFinish(id, c.startedAt.value, now, now - c.startedAt.value, c.passed, c.failed, c.errored,
                               MeanScore(c)));
    }
  }
}
