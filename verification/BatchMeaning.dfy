/** What the records of a batch say about the driver's answers, record by record. */
module BatchMeaning {
  import opened Collections
  import opened Batch

  /** Step `i` of the batch was attempted. */
  ghost predicate Attempted(plan: seq<Step>, driver: Driver, keepGoing: bool, i: nat) {
    i < |plan| && Records(plan, driver, keepGoing, |plan|)[i].status != NotRun
  }

  lemma AttemptedRecord(plan: seq<Step>, driver: Driver, keepGoing: bool, i: nat)
    requires Attempted(plan, driver, keepGoing, i)
    ensures
      var records := Records(plan, driver, keepGoing, |plan|);
      records[i] == AttemptStep(plan[i], i, driver, LatestSeq(records[..i]))
  {
    RecordAt(plan, driver, keepGoing, i);
    var before := Records(plan, driver, keepGoing, i);
    assert (before + [Records(plan, driver, keepGoing, |plan|)[i]])[..i] == before;
    assert Records(plan, driver, keepGoing, |plan|)[..i + 1][..i] == Records(plan, driver, keepGoing, |plan|)[..i];
  }

  /** The code a rejection leaves on a record. */
  ghost predicate Refused(r: StepRecord, e: Thrown) {
    && r.status == Failed
    && (e.CliError? ==> r.error == Some(e.code))
    && (e.Unexpected? ==> r.error == Some("INTERNAL_ERROR"))
    && r.seqNo == None && r.mouse == None && r.run == None && r.runOutcome == None && r.wait == None
  }

  // ---------- Runs ----------

  /** A run that was answered has failed exactly if it was to be waited for and did not complete. */
  ghost predicate RunSays(r: StepRecord, noWait: bool, answer: RunResult) {
    && r.seqNo == Some(answer.seqNo) && r.run == Some(answer)
    && (r.status == Failed <==> !noWait && answer.completed != Some(true))
    && (r.status == Completed <==> noWait || answer.completed == Some(true))
    && (r.error == None <==> r.status == Completed)
    && (r.error == Some("WAIT_TIMEOUT") <==> r.status == Failed && answer.timedOut == Some(true))
    && (r.error == Some("SESSION_NOT_RUNNING") <==> r.status == Failed && answer.timedOut != Some(true))
  }

  /** How it went: started without waiting, completed, timed out, or ended by the session's exit. */
  ghost predicate OutcomeSays(r: StepRecord, noWait: bool, answer: RunResult) {
    && r.runOutcome.Some?
    && (r.runOutcome.value == RunStarted <==> noWait)
    && (r.runOutcome.value == RunCompleted <==> !noWait && answer.completed == Some(true))
    && (r.runOutcome.value == RunTimedOut <==>
          !noWait && answer.completed != Some(true) && answer.timedOut == Some(true))
    && (r.runOutcome.value == SessionExited <==>
          !noWait && answer.completed != Some(true) && answer.timedOut != Some(true))
  }

  /** The record of an attempted run, in either mode. */
  lemma RunVerdict(plan: seq<Step>, driver: Driver, keepGoing: bool, i: nat)
    requires Attempted(plan, driver, keepGoing, i) && plan[i].RunCommand?
    ensures
      var r := Records(plan, driver, keepGoing, |plan|)[i];
      match driver.run(i, plan[i].noWait)
      case Err(e) => Refused(r, e)
      case Ok(answer) => RunSays(r, plan[i].noWait, answer) && OutcomeSays(r, plan[i].noWait, answer)
  {
    AttemptedRecord(plan, driver, keepGoing, i);
  }

  // ---------- Input ----------

  /** The record of an attempted input step: it completes exactly if the driver took it, with the seq it answered. */
  lemma InputVerdict(plan: seq<Step>, driver: Driver, keepGoing: bool, i: nat)
    requires Attempted(plan, driver, keepGoing, i)
    ensures
      var r := Records(plan, driver, keepGoing, |plan|)[i];
      match plan[i]
      case Mouse(_) =>
        (match driver.mouse(i)
         case Err(e) => Refused(r, e)
         case Ok(m) => r.status == Completed && r.error == None && r.seqNo == Some(m.seqNo) && r.mouse == Some(m))
      case RunCommand(_, _) => true
      case WaitFor(_) => true
      case _ =>
        match driver.input(i, plan[i])
        case Err(e) => Refused(r, e)
        case Ok(seqNo) => r.status == Completed && r.error == None && r.seqNo == Some(seqNo)
  {
    AttemptedRecord(plan, driver, keepGoing, i);
  }

  // ---------- Waits ----------

  /** `baseline` is the seq of the latest record before `i` that is no wait and has one. */
  ghost predicate LatestBefore(records: seq<StepRecord>, i: nat, baseline: Option<nat>)
    requires i <= |records|
  {
    match baseline
    case None => forall j | 0 <= j < i :: records[j].kind == WaitKind || records[j].seqNo == None
    case Some(s) => exists j | 0 <= j < i ::
      && records[j].kind != WaitKind && records[j].seqNo == Some(s)
      && forall k | j < k < i :: records[k].kind == WaitKind || records[k].seqNo == None
  }

  lemma {:induction false} LatestSeqReads(records: seq<StepRecord>, i: nat)
    requires i <= |records|
    ensures LatestBefore(records, i, LatestSeq(records[..i]))
    decreases i
  {
    if i > 0 {
      LatestSeqReads(records, i - 1);
      assert records[..i][..i - 1] == records[..i - 1];
      assert records[..i][i - 1] == records[i - 1];
    }
  }

  /** The record of an attempted wait: what the three answers were decides status, code, and what is kept. */
  ghost predicate WaitSays(r: StepRecord, first: Option<Thrown>, answer: Result<WaitResult, Thrown>,
                           second: Option<Thrown>, baseline: Option<nat>)
  {
    if first.Some? then Refused(r, first.value)
    else if answer.Err? then Refused(r, answer.error)
    else if answer.value.timedOut || !answer.value.matched then
      r.status == Failed && r.error == Some("WAIT_TIMEOUT") && Observed(r, answer.value, baseline)
    else if second == Some(Unexpected) then Refused(r, Unexpected)
    else if second.Some? then
      r.status == Failed && r.error == Some(second.value.code) && Observed(r, answer.value, baseline)
    else r.status == Completed && r.error == None && Observed(r, answer.value, baseline)
  }

  ghost predicate Observed(r: StepRecord, answer: WaitResult, baseline: Option<nat>) {
    r.wait == Some(answer) && r.waitBaseline == baseline && r.seqNo == None
  }

  lemma WaitRecordVerdict(plan: seq<Step>, driver: Driver, keepGoing: bool, i: nat) returns (baseline: Option<nat>)
    requires Attempted(plan, driver, keepGoing, i) && plan[i].WaitFor?
    ensures LatestBefore(Records(plan, driver, keepGoing, |plan|), i, baseline)
    ensures WaitSays(Records(plan, driver, keepGoing, |plan|)[i], driver.commandable(i, false),
                     driver.wait(i, baseline), driver.commandable(i, true), baseline)
  {
    var records := Records(plan, driver, keepGoing, |plan|);
    AttemptedRecord(plan, driver, keepGoing, i);
    LatestSeqReads(records, i);
    baseline := LatestSeq(records[..i]);
  }

  // ---------- What was not attempted, and the counts ----------

  /** A record is of the kind of its step, and one of a step not attempted holds nothing else. */
  lemma KindsRead(plan: seq<Step>, driver: Driver, keepGoing: bool, i: nat)
    requires i < |plan|
    ensures
      var r := Records(plan, driver, keepGoing, |plan|)[i];
      && (r.kind == TypeKind <==> plan[i].TypeText?) && (r.kind == PasteKind <==> plan[i].Paste?)
      && (r.kind == SendKeysKind <==> plan[i].SendKeys?) && (r.kind == MouseKind <==> plan[i].Mouse?)
      && (r.kind == RunKind <==> plan[i].RunCommand?) && (r.kind == WaitKind <==> plan[i].WaitFor?)
      && (plan[i].RunCommand? ==> r.noWait == Some(plan[i].noWait)) && (!plan[i].RunCommand? ==> r.noWait == None)
      && (r.status == NotRun ==> HoldsNothing(r))
  {
    RecordAt(plan, driver, keepGoing, i);
    AttemptShape(plan[i], i, driver, LatestSeq(Records(plan, driver, keepGoing, i)));
  }

  predicate IsCompleted(r: StepRecord) { r.status == Completed }

  lemma {:induction false} CompletedCounted(records: seq<StepRecord>)
    ensures CompletedIn(records) == |Places(records, IsCompleted)|
  {
    if records == [] {
      NoPlaces(IsCompleted);
    } else {
      var init, last := records[..|records| - 1], records[|records| - 1];
      assert records == init + [last];
      CompletedCounted(init);
      PlacesSnoc(init, last, IsCompleted);
    }
  }

  lemma {:induction false} FailedListed(records: seq<StepRecord>)
    requires forall i | 0 <= i < |records| :: records[i].index == i
    ensures Ascending(FailedIn(records)) && (forall k | k in FailedIn(records) :: k < |records|)
    ensures forall i: nat | i < |records| :: i in FailedIn(records) <==> records[i].status == Failed
  {
    if records != [] {
      var n := |records| - 1;
      FailedListed(records[..n]);
      FailedAppend(records, n);
    }
  }

  lemma FailedAppend(records: seq<StepRecord>, n: nat)
    requires |records| == n + 1 && records[n].index == n
    requires Ascending(FailedIn(records[..n])) && forall k | k in FailedIn(records[..n]) :: k < n
    ensures Ascending(FailedIn(records))
    ensures forall k :: k in FailedIn(records) <==>
              k in FailedIn(records[..n]) || (k == n && records[n].status == Failed)
  {
    AscendingSnoc(FailedIn(records[..n]), n);
    if records[n].status == Failed {
      assert FailedIn(records) == FailedIn(records[..n]) + [n];
    } else {
      assert FailedIn(records) == FailedIn(records[..n]);
    }
  }

  /** The counter is the number of completed records, and the list has the indices of the failed ones, ascending. */
  lemma ResultReads(plan: seq<Step>, driver: Driver, keepGoing: bool)
    ensures
      var result := Recount(Records(plan, driver, keepGoing, |plan|));
      && result.completedCount == |Places(result.steps, IsCompleted)|
      && Ascending(result.failedIndices) && (forall k | k in result.failedIndices :: k < |plan|)
      && forall i: nat | i < |plan| :: i in result.failedIndices <==> result.steps[i].status == Failed
  {
    var records := Records(plan, driver, keepGoing, |plan|);
    forall i | 0 <= i < |records|
      ensures records[i].index == i
    {
      OneRecordPerStep(plan, driver, keepGoing, i);
    }
    CompletedCounted(records);
    FailedListed(records);
  }
}
