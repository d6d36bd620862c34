/** The batch executor: an ordered plan run through a step driver, and the result flushed from any prefix of it. */
module Batch {
  import opened Collections

  datatype Step =
    | TypeText(text: string)
    | Paste(text: string)
    | SendKeys(keys: seq<string>)
    | Mouse(input: string)
    | RunCommand(command: string, noWait: bool)
    | WaitFor(condition: string)

  datatype Kind = TypeKind | PasteKind | SendKeysKind | MouseKind | RunKind | WaitKind

  function KindOf(step: Step): Kind {
    match step
    case TypeText(_) => TypeKind
    case Paste(_) => PasteKind
    case SendKeys(_) => SendKeysKind
    case Mouse(_) => MouseKind
    case RunCommand(_, _) => RunKind
    case WaitFor(_) => WaitKind
  }

  datatype Status = Completed | Failed | NotRun | Interrupted

  datatype RunOutcome = RunCompleted | RunTimedOut | SessionExited | RunStarted

  /** A rejection of the driver: one of the tool's own errors, or anything else. */
  datatype Thrown = CliError(code: string) | Unexpected

  datatype MouseResult = MouseResult(seqNo: nat, reported: bool, bytesWritten: nat)
  datatype RunResult = RunResult(seqNo: nat, completed: Option<bool>, timedOut: Option<bool>)
  datatype WaitResult = WaitResult(matched: bool, timedOut: bool, capturedAtSeq: nat)

  datatype StepRecord = StepRecord(index: nat, kind: Kind, status: Status, seqNo: Option<nat>,
                                   mouse: Option<MouseResult>,
                                   noWait: Option<bool>, run: Option<RunResult>, runOutcome: Option<RunOutcome>,
                                   waitBaseline: Option<nat>, wait: Option<WaitResult>, error: Option<string>)

  /** How the driver and the session answer at each step. Every call of a run happens at an index of its own, so
      these functions stand for any behaviour, however it depends on what went before. `commandable` answers the
      check before a wait (`false`) and after its match (`true`). */
  datatype Driver = Driver(input: (nat, Step) -> Result<nat, Thrown>,
                           mouse: nat -> Result<MouseResult, Thrown>,
                           run: (nat, bool) -> Result<RunResult, Thrown>,
                           wait: (nat, Option<nat>) -> Result<WaitResult, Thrown>,
                           commandable: (nat, bool) -> Option<Thrown>)

  datatype BatchResult = BatchResult(steps: seq<StepRecord>, completedCount: nat, failedIndices: seq<nat>)

  const WAIT_TIMEOUT := "WAIT_TIMEOUT"
  const SESSION_NOT_RUNNING := "SESSION_NOT_RUNNING"
  const INTERNAL_ERROR := "INTERNAL_ERROR"

  // ---------- Records ----------

  function NoWaitOf(step: Step): Option<bool> {
    if step.RunCommand? then Some(step.noWait) else None
  }

  function Blank(step: Step, index: nat, status: Status): StepRecord {
    StepRecord(index, KindOf(step), status, None, None, NoWaitOf(step), None, None, None, None, None)
  }

  function UnreachedStepRecord(step: Step, index: nat, status: Status): StepRecord
    requires status.NotRun? || status.Interrupted?
  {
    Blank(step, index, status)
  }

  function CodeOf(error: Thrown): string {
    match error
    case CliError(code) => code
    case Unexpected => INTERNAL_ERROR
  }

  function FailedRecord(step: Step, index: nat, error: Thrown): StepRecord {
    Blank(step, index, Failed).(error := Some(CodeOf(error)))
  }

  function ClassifyRunOutcome(noWait: bool, run: RunResult): RunOutcome {
    if noWait then RunStarted
    else if run.completed == Some(true) then RunCompleted
    else if run.timedOut == Some(true) then RunTimedOut
    else SessionExited
  }

  function RunRunStep(step: Step, index: nat, driver: Driver): Result<StepRecord, Thrown>
    requires step.RunCommand?
  {
    match driver.run(index, step.noWait)
    case Err(e) => Err(e)
    case Ok(run) =>
      var outcome := ClassifyRunOutcome(step.noWait, run);
      var failed := !step.noWait && run.completed != Some(true);
      var base := Blank(step, index, if failed then Failed else Completed)
                  .(seqNo := Some(run.seqNo), run := Some(run), runOutcome := Some(outcome));
      Ok(if !failed then base
         else base.(error := Some(if outcome == RunTimedOut then WAIT_TIMEOUT else SESSION_NOT_RUNNING)))
  }

  function RunWaitStep(step: Step, index: nat, driver: Driver, lastInputSeq: Option<nat>): Result<StepRecord, Thrown>
    requires step.WaitFor?
  {
    match driver.commandable(index, false)
    case Some(e) => Err(e)
    case None =>
      match driver.wait(index, lastInputSeq)
      case Err(e) => Err(e)
      case Ok(w) =>
        var observed := Blank(step, index, Completed).(waitBaseline := lastInputSeq, wait := Some(w));
        if w.timedOut || !w.matched then Ok(observed.(status := Failed, error := Some(WAIT_TIMEOUT)))
        else
          match driver.commandable(index, true)
          case None => Ok(observed)
          case Some(CliError(code)) => Ok(observed.(status := Failed, error := Some(code)))
          case Some(Unexpected) => Err(Unexpected)
  }

  function RunStep(step: Step, index: nat, driver: Driver, lastInputSeq: Option<nat>): Result<StepRecord, Thrown> {
    match step
    case Mouse(_) =>
      (match driver.mouse(index)
       case Err(e) => Err(e)
       case Ok(m) => Ok(Blank(step, index, Completed).(seqNo := Some(m.seqNo), mouse := Some(m))))
    case RunCommand(_, _) => RunRunStep(step, index, driver)
    case WaitFor(_) => RunWaitStep(step, index, driver, lastInputSeq)
    case _ =>
      match driver.input(index, step)
      case Err(e) => Err(e)
      case Ok(n) => Ok(Blank(step, index, Completed).(seqNo := Some(n)))
  }

  function AttemptStep(step: Step, index: nat, driver: Driver, lastInputSeq: Option<nat>): StepRecord {
    match RunStep(step, index, driver, lastInputSeq)
    case Ok(record) => record
    case Err(e) => FailedRecord(step, index, e)
  }

  lemma AttemptShape(step: Step, index: nat, driver: Driver, lastInputSeq: Option<nat>)
    ensures
      var r := AttemptStep(step, index, driver, lastInputSeq);
      && r.index == index && r.kind == KindOf(step) && r.noWait == NoWaitOf(step)
      && (r.status == Completed || r.status == Failed)
      && (r.status == Failed <==> r.error.Some?)
      && (r.kind == WaitKind ==> r.seqNo.None?)
      && (r.status == Completed && r.kind != WaitKind ==> r.seqNo.Some?)
      && (r.waitBaseline.Some? ==> r.kind == WaitKind && r.waitBaseline == lastInputSeq)
  {
  }

  /** What ends a wait without an observation: the first session check, the driver, or the second check breaking. */
  function WaitThrown(index: nat, driver: Driver, baseline: Option<nat>): Thrown {
    match driver.commandable(index, false)
    case Some(e) => e
    case None =>
      match driver.wait(index, baseline)
      case Err(e) => e
      case Ok(_) => Unexpected
  }

  /** A wait completes exactly when both session checks pass and the condition matched in time; once the driver has
      answered, its observation and baseline stay on the record unless the second check breaks unexpectedly. Each
      failure carries the code of what failed. */
  lemma WaitVerdict(step: Step, index: nat, driver: Driver, baseline: Option<nat>)
    requires step.WaitFor?
    ensures
      var r, answer := AttemptStep(step, index, driver, baseline), driver.wait(index, baseline);
      var matched := answer.Ok? && answer.value.matched && !answer.value.timedOut;
      && (r.status == Completed <==>
            driver.commandable(index, false).None? && matched && driver.commandable(index, true).None?)
      && (r.wait.Some? <==>
            driver.commandable(index, false).None? && answer.Ok? &&
            !(matched && driver.commandable(index, true) == Some(Unexpected)))
      && (r.wait.Some? ==> r.wait == Some(answer.value) && r.waitBaseline == baseline)
      && (r.wait.Some? && !matched ==> r.error == Some(WAIT_TIMEOUT))
      && (r.wait.Some? && matched && driver.commandable(index, true).Some? ==>
            r.error == Some(driver.commandable(index, true).value.code))
      && (r.wait.None? ==> r.waitBaseline.None? && r.error == Some(CodeOf(WaitThrown(index, driver, baseline))))
  {
  }

  // ---------- Counting ----------

  function CompletedIn(records: seq<StepRecord>): nat {
    if records == [] then 0
    else CompletedIn(records[..|records| - 1]) + if records[|records| - 1].status == Completed then 1 else 0
  }

  function FailedIn(records: seq<StepRecord>): seq<nat> {
    if records == [] then []
    else FailedIn(records[..|records| - 1]) +
         if records[|records| - 1].status == Failed then [records[|records| - 1].index] else []
  }

  function Recount(records: seq<StepRecord>): BatchResult {
    BatchResult(records, CompletedIn(records), FailedIn(records))
  }

  // ---------- What a batch does, step by step ----------

  /** The seq of the latest earlier non-wait record that has one. */
  function LatestSeq(records: seq<StepRecord>): Option<nat> {
    if records == [] then None
    else
      var last := records[|records| - 1];
      if last.kind != WaitKind && last.seqNo.Some? then last.seqNo else LatestSeq(records[..|records| - 1])
  }

  predicate AnyFailed(records: seq<StepRecord>) {
    exists r | r in records :: r.status == Failed
  }

  /** The first `n` records, each one from the records before it. */
  function Records(plan: seq<Step>, driver: Driver, keepGoing: bool, n: nat): (records: seq<StepRecord>)
    requires n <= |plan|
    ensures |records| == n
  {
    if n == 0 then []
    else
      var before := Records(plan, driver, keepGoing, n - 1);
      before + [NextRecord(plan[n - 1], n - 1, driver, keepGoing, before)]
  }

  function NextRecord(step: Step, index: nat, driver: Driver, keepGoing: bool, before: seq<StepRecord>): StepRecord {
    if !keepGoing && AnyFailed(before) then UnreachedStepRecord(step, index, NotRun)
    else AttemptStep(step, index, driver, LatestSeq(before))
  }

  /** A wait the driver was asked for, with the baseline it got. */
  datatype WaitCall = WaitCall(index: nat, afterSeq: Option<nat>)

  /** Counters and baseline after one more record. */
  lemma OneMoreRecord(records: seq<StepRecord>, r: StepRecord)
    ensures CompletedIn(records + [r]) == CompletedIn(records) + if r.status == Completed then 1 else 0
    ensures FailedIn(records + [r]) == FailedIn(records) + if r.status == Failed then [r.index] else []
    ensures LatestSeq(records + [r]) == if r.kind != WaitKind && r.seqNo.Some? then r.seqNo else LatestSeq(records)
    ensures AnyFailed(records + [r]) <==> AnyFailed(records) || r.status == Failed
  {
    assert (records + [r])[..|records|] == records;
    assert r in records + [r];
  }

  /** An attempted wait asks the driver exactly when the session check before it passes, whatever comes of it. */
  predicate Asks(step: Step, index: nat, driver: Driver) {
    step.WaitFor? && driver.commandable(index, false).None?
  }

  /** One step that is not skipped: its record, and the call of `driver.wait` it made, if any. */
  method AttemptLogged(step: Step, index: nat, driver: Driver, lastInputSeq: Option<nat>)
    returns (record: StepRecord, calls: seq<WaitCall>)
    ensures record == AttemptStep(step, index, driver, lastInputSeq)
    ensures calls == if Asks(step, index, driver) then [WaitCall(index, lastInputSeq)] else []
  {
    calls := if Asks(step, index, driver) then [WaitCall(index, lastInputSeq)] else [];
    record := AttemptStep(step, index, driver, lastInputSeq);
  }

  /** The loop's variables. */
  datatype Progress = Progress(
    steps: seq<StepRecord>, failedIndices: seq<nat>, completedCount: nat, lastInputSeq: Option<nat>, stopped: bool)

  ghost predicate InStep(p: Progress, plan: seq<Step>, driver: Driver, keepGoing: bool, n: nat) {
    && n <= |plan|
    && p.steps == Records(plan, driver, keepGoing, n)
    && p.completedCount == CompletedIn(p.steps) && p.failedIndices == FailedIn(p.steps)
    && p.lastInputSeq == LatestSeq(p.steps)
    && (p.stopped <==> !keepGoing && AnyFailed(p.steps))
  }

  method NothingRun(ghost plan: seq<Step>, ghost driver: Driver, ghost keepGoing: bool) returns (p: Progress)
    ensures InStep(p, plan, driver, keepGoing, 0) && p.steps == []
  {
    p := Progress([], [], 0, None, false);
  }

  /** The next step: skipped after a stop, attempted otherwise. */
  method TakeStep(p: Progress, plan: seq<Step>, driver: Driver, ghost keepGoing: bool)
    returns (record: StepRecord, calls: seq<WaitCall>)
    requires |p.steps| < |plan| && InStep(p, plan, driver, keepGoing, |p.steps|)
    ensures record == NextRecord(plan[|p.steps|], |p.steps|, driver, keepGoing, p.steps)
    ensures calls == if record.status != NotRun && Asks(plan[|p.steps|], |p.steps|, driver)
                     then [WaitCall(|p.steps|, LatestSeq(p.steps))] else []
  {
    var index := |p.steps|;
    record, calls := UnreachedStepRecord(plan[index], index, NotRun), [];
    if !p.stopped {
      record, calls := AttemptLogged(plan[index], index, driver, p.lastInputSeq);
    }
  }

  /** Bookkeeping after a step: each variable keeps its meaning. */
  method Advance(p: Progress, record: StepRecord, ghost plan: seq<Step>, ghost driver: Driver, keepGoing: bool)
    returns (q: Progress)
    requires |p.steps| < |plan| && InStep(p, plan, driver, keepGoing, |p.steps|)
    requires record == NextRecord(plan[|p.steps|], |p.steps|, driver, keepGoing, p.steps)
    ensures InStep(q, plan, driver, keepGoing, |p.steps| + 1) && q.steps == p.steps + [record]
  {
    OneMoreRecord(p.steps, record);
    var lastInputSeq := if record.kind != WaitKind && record.seqNo.Some? then record.seqNo else p.lastInputSeq;
    var completedCount, failedIndices := p.completedCount, p.failedIndices;
    if record.status == Completed {
      completedCount := completedCount + 1;
    } else if record.status == Failed {
      failedIndices := failedIndices + [record.index];
    }
    var stopped := p.stopped || (record.status == Failed && !keepGoing);
    q := Progress(p.steps + [record], failedIndices, completedCount, lastInputSeq, stopped);
  }

  /** Running the whole plan. `emitted` is what `onStep` received; `waits` the calls of `driver.wait`. */
  method ExecuteBatch(plan: seq<Step>, driver: Driver, keepGoing: bool)
    returns (result: BatchResult, emitted: seq<StepRecord>, waits: seq<WaitCall>)
    ensures result == Recount(Records(plan, driver, keepGoing, |plan|))
    ensures emitted == result.steps
    ensures waits == WaitsOf(plan, driver, result.steps)
  {
    var p := NothingRun(plan, driver, keepGoing);
    emitted, waits := [], [];
    for index := 0 to |plan|
      invariant InStep(p, plan, driver, keepGoing, index) && emitted == p.steps
      invariant waits == WaitsOf(plan, driver, p.steps)
    {
      var record, calls := TakeStep(p, plan, driver, keepGoing);
      WaitsStep(plan, driver, p.steps, record);
      p := Advance(p, record, plan, driver, keepGoing);
      waits, emitted := waits + calls, emitted + [record];
    }
    assert plan[..|plan|] == plan;
    result := BatchResult(p.steps, p.completedCount, p.failedIndices);
  }

  /** The calls of `driver.wait` behind some records. */
  function WaitsOf(plan: seq<Step>, driver: Driver, steps: seq<StepRecord>): seq<WaitCall>
    requires |steps| <= |plan|
  {
    if steps == [] then []
    else
      var n := |steps| - 1;
      WaitsOf(plan, driver, steps[..n]) +
        if steps[n].status != NotRun && Asks(plan[n], n, driver) then [WaitCall(n, LatestSeq(steps[..n]))] else []
  }

  lemma WaitsStep(plan: seq<Step>, driver: Driver, steps: seq<StepRecord>, record: StepRecord)
    requires |steps| < |plan|
    ensures WaitsOf(plan, driver, steps + [record]) ==
            WaitsOf(plan, driver, steps) +
              if record.status != NotRun && Asks(plan[|steps|], |steps|, driver)
              then [WaitCall(|steps|, LatestSeq(steps))] else []
  {
    assert (steps + [record])[..|steps|] == steps;
  }

  /** Step `i` is an attempted wait whose first session check passed. */
  ghost predicate Asked(plan: seq<Step>, driver: Driver, steps: seq<StepRecord>, i: nat)
    requires |steps| <= |plan|
  {
    i < |steps| && steps[i].status != NotRun && plan[i].WaitFor? && driver.commandable(i, false).None?
  }

  lemma {:induction false} WaitsInOrder(plan: seq<Step>, driver: Driver, steps: seq<StepRecord>)
    requires |steps| <= |plan|
    ensures forall c | c in WaitsOf(plan, driver, steps) :: c.index < |steps|
    ensures forall i, j | 0 <= i < j < |WaitsOf(plan, driver, steps)| ::
              WaitsOf(plan, driver, steps)[i].index < WaitsOf(plan, driver, steps)[j].index
  {
    if steps != [] {
      WaitsInOrder(plan, driver, steps[..|steps| - 1]);
    }
  }

  lemma {:induction false} WaitsMembers(plan: seq<Step>, driver: Driver, steps: seq<StepRecord>, c: WaitCall)
    requires |steps| <= |plan|
    ensures c in WaitsOf(plan, driver, steps) <==>
            Asked(plan, driver, steps, c.index) && c.afterSeq == LatestSeq(steps[..c.index])
  {
    if steps != [] {
      var n := |steps| - 1;
      WaitsMembers(plan, driver, steps[..n], c);
      if c.index < n {
        assert steps[..n][..c.index] == steps[..c.index];
      }
    }
  }

  /** The log, in order and once each, is exactly the attempted waits whose first session check passed, each with the
      latest seq recorded before it. */
  lemma WaitsExact(plan: seq<Step>, driver: Driver, steps: seq<StepRecord>)
    requires |steps| <= |plan|
    ensures
      var waits := WaitsOf(plan, driver, steps);
      && (forall i, j | 0 <= i < j < |waits| :: waits[i].index < waits[j].index)
      && (forall c :: c in waits <==> Asked(plan, driver, steps, c.index) && c.afterSeq == LatestSeq(steps[..c.index]))
  {
    WaitsInOrder(plan, driver, steps);
    forall c
      ensures c in WaitsOf(plan, driver, steps) <==>
              Asked(plan, driver, steps, c.index) && c.afterSeq == LatestSeq(steps[..c.index])
    {
      WaitsMembers(plan, driver, steps, c);
    }
  }

  lemma {:induction false} RecordsPrefix(plan: seq<Step>, driver: Driver, keepGoing: bool, m: nat, n: nat)
    requires m <= n <= |plan|
    ensures Records(plan, driver, keepGoing, m) <= Records(plan, driver, keepGoing, n)
    decreases n
  {
    if m < n {
      RecordsPrefix(plan, driver, keepGoing, m, n - 1);
    }
  }

  // ---------- Theorems ----------

  /** One record per step, carrying its index and kind. */
  lemma OneRecordPerStep(plan: seq<Step>, driver: Driver, keepGoing: bool, i: nat)
    requires i < |plan|
    ensures
      var r := Records(plan, driver, keepGoing, |plan|)[i];
      && r.index == i && r.kind == KindOf(plan[i]) && r.noWait == NoWaitOf(plan[i])
      && r.status != Interrupted
      && (keepGoing ==> r.status == Completed || r.status == Failed)
  {
    RecordsPrefix(plan, driver, keepGoing, i + 1, |plan|);
    AttemptShape(plan[i], i, driver, LatestSeq(Records(plan, driver, keepGoing, i)));
  }

  /** Fail-fast statuses read completed ... completed, failed, not-run ... not-run. */
  lemma FailFastShape(plan: seq<Step>, driver: Driver) returns (k: nat)
    ensures k <= |plan|
    ensures forall i | 0 <= i < |plan| ::
              Records(plan, driver, false, |plan|)[i].status ==
              if i < k then Completed else if i == k then Failed else NotRun
  {
    var records := Records(plan, driver, false, |plan|);
    k := 0;
    while k < |plan| && records[k].status == Completed
      invariant k <= |plan| && forall i | 0 <= i < k :: records[i].status == Completed
    {
      k := k + 1;
    }
    forall i | k <= i < |plan|
      ensures records[i].status == if i == k then Failed else NotRun
    {
      RecordsPrefix(plan, driver, false, i + 1, |plan|);
      RecordsPrefix(plan, driver, false, i, |plan|);
      var before := Records(plan, driver, false, i);
      AttemptShape(plan[i], i, driver, LatestSeq(before));
      assert forall j | 0 <= j < i :: before[j] == records[j];
      if i > k {
        FirstFailure(plan, driver, k);
        assert before[k] in before;
      }
    }
  }

  /** Fail-fast does what keep-going does until the first failure, that one included: so one mode has no failure iff
      the other has none, and what fails under fail-fast is the first thing that fails under keep-going. */
  lemma ModesAgree(plan: seq<Step>, driver: Driver)
    ensures
      var fast, all := Records(plan, driver, false, |plan|), Records(plan, driver, true, |plan|);
      && FailedIn(fast) == (if FailedIn(all) == [] then [] else [FailedIn(all)[0]])
      && (FailedIn(all) == [] ==> fast == all)
      && CompletedIn(fast) <= CompletedIn(all)
  {
    ModesAgreeUpTo(plan, driver, |plan|);
  }

  ghost predicate Agree(fast: seq<StepRecord>, all: seq<StepRecord>) {
    && FailedIn(fast) == (if FailedIn(all) == [] then [] else [FailedIn(all)[0]])
    && (FailedIn(all) == [] ==> fast == all)
    && (AnyFailed(fast) <==> FailedIn(all) != [])
    && CompletedIn(fast) <= CompletedIn(all)
  }

  lemma AgreeStep(fast: seq<StepRecord>, all: seq<StepRecord>, r: StepRecord, s: StepRecord)
    requires Agree(fast, all)
    requires if AnyFailed(fast) then r.status == NotRun else r == s
    ensures Agree(fast + [r], all + [s])
  {
    OneMoreRecord(fast, r);
    OneMoreRecord(all, s);
  }

  lemma {:induction false} ModesAgreeUpTo(plan: seq<Step>, driver: Driver, n: nat)
    requires n <= |plan|
    ensures Agree(Records(plan, driver, false, n), Records(plan, driver, true, n))
    decreases n
  {
    if n > 0 {
      ModesAgreeUpTo(plan, driver, n - 1);
      var fast, all := Records(plan, driver, false, n - 1), Records(plan, driver, true, n - 1);
      AgreeStep(fast, all, NextRecord(plan[n - 1], n - 1, driver, false, fast),
                NextRecord(plan[n - 1], n - 1, driver, true, all));
    }
  }

  /** The first record that is not completed is a failed one. */
  lemma FirstFailure(plan: seq<Step>, driver: Driver, k: nat)
    requires k < |plan|
    requires forall i | 0 <= i < k :: Records(plan, driver, false, |plan|)[i].status == Completed
    requires Records(plan, driver, false, |plan|)[k].status != Completed
    ensures Records(plan, driver, false, |plan|)[k].status == Failed
  {
    RecordsPrefix(plan, driver, false, k, |plan|);
    RecordsPrefix(plan, driver, false, k + 1, |plan|);
    var before := Records(plan, driver, false, k);
    assert forall j | 0 <= j < k :: before[j] == Records(plan, driver, false, |plan|)[j];
    AttemptShape(plan[k], k, driver, LatestSeq(before));
  }

  /** Whatever comes of a run whose driver answered, failed or not, the wait that follows it, if it is asked at all, is
      asked from that run's own seq on. */
  lemma FailedRunAdvancesBaseline(plan: seq<Step>, driver: Driver, keepGoing: bool, i: nat)
    requires i + 1 < |plan| && plan[i].RunCommand? && driver.run(i, plan[i].noWait).Ok?
    requires Records(plan, driver, keepGoing, |plan|)[i].status != NotRun
    requires Asked(plan, driver, Records(plan, driver, keepGoing, |plan|), i + 1)
    ensures WaitCall(i + 1, Some(driver.run(i, plan[i].noWait).value.seqNo)) in
            WaitsOf(plan, driver, Records(plan, driver, keepGoing, |plan|))
  {
    RunAdvances(plan, driver, keepGoing, i);
    WaitAsked(plan, driver, Records(plan, driver, keepGoing, |plan|), i + 1);
  }

  lemma WaitAsked(plan: seq<Step>, driver: Driver, steps: seq<StepRecord>, i: nat)
    requires |steps| <= |plan| && Asked(plan, driver, steps, i)
    ensures WaitCall(i, LatestSeq(steps[..i])) in WaitsOf(plan, driver, steps)
  {
    WaitsMembers(plan, driver, steps, WaitCall(i, LatestSeq(steps[..i])));
  }

  lemma RunAdvances(plan: seq<Step>, driver: Driver, keepGoing: bool, i: nat)
    requires i < |plan| && plan[i].RunCommand? && driver.run(i, plan[i].noWait).Ok?
    requires Records(plan, driver, keepGoing, |plan|)[i].status != NotRun
    ensures LatestSeq(Records(plan, driver, keepGoing, |plan|)[..i + 1]) ==
            Some(driver.run(i, plan[i].noWait).value.seqNo)
  {
    var before := Records(plan, driver, keepGoing, i);
    RecordAt(plan, driver, keepGoing, i);
    RunSeq(plan[i], i, driver, LatestSeq(before));
    OneMoreRecord(before, AttemptStep(plan[i], i, driver, LatestSeq(before)));
  }

  lemma RecordAt(plan: seq<Step>, driver: Driver, keepGoing: bool, i: nat)
    requires i < |plan|
    ensures
      var records, before := Records(plan, driver, keepGoing, |plan|), Records(plan, driver, keepGoing, i);
      && records[i] == NextRecord(plan[i], i, driver, keepGoing, before)
      && records[..i + 1] == before + [records[i]]
  {
    RecordsPrefix(plan, driver, keepGoing, i + 1, |plan|);
  }

  lemma RunSeq(step: Step, index: nat, driver: Driver, lastInputSeq: Option<nat>)
    requires step.RunCommand? && driver.run(index, step.noWait).Ok?
    ensures
      var r := AttemptStep(step, index, driver, lastInputSeq);
      r.kind != WaitKind && r.seqNo == Some(driver.run(index, step.noWait).value.seqNo)
  {
  }

  // ---------- The partial result ----------

  function Unreached(plan: seq<Step>, from: nat, index: nat): (r: seq<StepRecord>)
    requires from <= index <= |plan|
    ensures |r| == |plan| - index
    ensures forall k | 0 <= k < |r| :: r[k] == UnreachedStepRecord(plan[index + k], index + k,
                                                                  if index + k == from then Interrupted else NotRun)
    decreases |plan| - index
  {
    if index == |plan| then []
    else [UnreachedStepRecord(plan[index], index, if index == from then Interrupted else NotRun)] +
         Unreached(plan, from, index + 1)
  }

  /** The flush of a signal handler: the finalized records, then one interrupted step, then steps not run. */
  method BuildPartialBatchResult(plan: seq<Step>, recorded: seq<StepRecord>) returns (result: BatchResult)
    requires |recorded| <= |plan|
    ensures result == Recount(recorded + Unreached(plan, |recorded|, |recorded|))
  {
    var steps := recorded;
    for index := |recorded| to |plan|
      invariant steps + Unreached(plan, |recorded|, index) == recorded + Unreached(plan, |recorded|, |recorded|)
    {
      var record := UnreachedStepRecord(plan[index], index, if index == |recorded| then Interrupted else NotRun);
      assert steps + Unreached(plan, |recorded|, index) == (steps + [record]) + Unreached(plan, |recorded|, index + 1);
      steps := steps + [record];
    }
    assert steps + [] == steps;
    result := Recount(steps);
  }

  lemma {:induction false} UnreachedCountsNothing(records: seq<StepRecord>, tail: seq<StepRecord>)
    requires forall r | r in tail :: r.status == NotRun || r.status == Interrupted
    ensures CompletedIn(records + tail) == CompletedIn(records) && FailedIn(records + tail) == FailedIn(records)
    decreases tail
  {
    if tail == [] {
      assert records + tail == records;
    } else {
      var shorter := tail[..|tail| - 1];
      assert (records + tail)[..|records + tail| - 1] == records + shorter;
      assert tail[|tail| - 1] in tail;
      UnreachedCountsNothing(records, shorter);
    }
  }

  lemma {:induction false} CountsGrow(records: seq<StepRecord>, n: nat)
    requires n <= |records|
    ensures CompletedIn(records[..n]) <= CompletedIn(records) && FailedIn(records[..n]) <= FailedIn(records)
    decreases |records| - n
  {
    if n == |records| {
      assert records[..n] == records;
    } else {
      CountsGrow(records, n + 1);
      assert records[..n + 1][..n] == records[..n];
    }
  }

  /** At every prefix of the emitted records the flushed result covers the plan, marks exactly the next step as
      interrupted, and agrees with the final result as far as it goes. */
  lemma PartialAgreesWithFinal(plan: seq<Step>, driver: Driver, keepGoing: bool, n: nat)
    requires n <= |plan|
    ensures
      var final := Recount(Records(plan, driver, keepGoing, |plan|));
      var partial := Recount(final.steps[..n] + Unreached(plan, n, n));
      && |partial.steps| == |plan|
      && (forall i | 0 <= i < |plan| :: PartialAt(plan, partial.steps, n, i))
      && (forall i | 0 <= i < n :: partial.steps[i] == final.steps[i])
      && partial.completedCount <= final.completedCount
      && partial.failedIndices <= final.failedIndices
      && (n == |plan| ==> partial == final)
  {
    var final := Records(plan, driver, keepGoing, |plan|);
    PartialSteps(plan, driver, keepGoing, n);
    UnreachedCountsNothing(final[..n], Unreached(plan, n, n));
    CountsGrow(final, n);
    if n == |plan| {
      assert final[..n] + Unreached(plan, n, n) == final;
    }
  }

  /** A record without a result of any kind. */
  ghost predicate HoldsNothing(r: StepRecord) {
    && r.seqNo == None && r.error == None && r.mouse == None && r.run == None && r.runOutcome == None
    && r.wait == None && r.waitBaseline == None
  }

  /** Entry `i` describes step `i`, and is the interrupted one exactly when `i` is the first unrecorded step. */
  ghost predicate PartialAt(plan: seq<Step>, steps: seq<StepRecord>, n: nat, i: nat) {
    && i < |plan| == |steps|
    && steps[i].index == i && steps[i].kind == KindOf(plan[i])
    && (steps[i].status == Interrupted <==> i == n)
    && (i > n ==> steps[i].status == NotRun)
    && (i >= n ==> HoldsNothing(steps[i]))
  }

  lemma PartialStepAt(plan: seq<Step>, driver: Driver, keepGoing: bool, n: nat, i: nat)
    requires n <= |plan| && i < |plan|
    ensures PartialAt(plan, Records(plan, driver, keepGoing, |plan|)[..n] + Unreached(plan, n, n), n, i)
  {
    if i < n {
      OneRecordPerStep(plan, driver, keepGoing, i);
    } else {
      assert (Records(plan, driver, keepGoing, |plan|)[..n] + Unreached(plan, n, n))[i] == Unreached(plan, n, n)[i - n];
    }
  }

  lemma PartialSteps(plan: seq<Step>, driver: Driver, keepGoing: bool, n: nat)
    requires n <= |plan|
    ensures
      var final := Records(plan, driver, keepGoing, |plan|);
      var steps := final[..n] + Unreached(plan, n, n);
      && (forall i | 0 <= i < |plan| :: PartialAt(plan, steps, n, i))
      && (forall i | 0 <= i < n :: steps[i] == final[i])
      && (forall r | r in Unreached(plan, n, n) :: r.status == NotRun || r.status == Interrupted)
  {
    forall i | 0 <= i < |plan| {
      PartialStepAt(plan, driver, keepGoing, n, i);
    }
  }
}
