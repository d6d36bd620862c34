/**
 One eval lane with a reporter: the worker pool, the start and finish hooks the lane gives it, and the case
 tracker, interleaved in any order. Event dispatches complete without throwing and the clock never goes back;
 preparing a workspace may still fail. A tracker fault would stop the machine: `fault` records it.
 */
module Lane {
  import opened Collections
  import opened Scheduler
  import opened CaseProgress

  /** Where a worker is inside a hook; in the two `Calling` states it is not suspended but running. */
  datatype Hook =
    | NoHook
    | Preparing(started: int)        // onItemStart: workspace preparation
    | StartCalling(started: int)     // onItemStart: timestamp set, about to call tracker.onTrialStart
    | CaseStarting                   // onItemStart: inside tracker.onTrialStart
    | TrialStarting                  // onItemStart: trialStart dispatch
    | TrialFinishing(completed: int) // onItemFinish: trialFinish dispatch
    | FinishCalling(completed: int)  // onItemFinish: timestamp set, about to call tracker.onTrialFinish
    | CaseFinishing                  // onItemFinish: inside tracker.onTrialFinish

  /** Calls of `dispatch`, and the completions that later events depend on. */
  datatype Event =
    | CaseEmitted(trial: nat, event: CaseEvent)
    | TrialStartSent(index: nat)
    | TrialFinishSent(index: nat)
    | TrialFinishDelivered(index: nat)

  /** `running` is the worker whose synchronous segment is cut in two by the model; only an `await` releases it.
      `stamped`, `completed`, `begun` and `counted` are history: each trial's own clock readings, and the trials
      whose tracker segments have run. */
  datatype LaneState = LaneState(
    items: seq<Identity>, pool: State, hooks: seq<Hook>, clock: int, trialStarts: map<nat, int>,
    trackerTimestamp: Option<int>, running: Option<nat>, cases: Cases, trace: seq<Event>, fault: Option<Fault>,
    stamped: map<nat, int>, completed: map<nat, int>, begun: set<nat>, counted: set<nat>)

  ghost function Planned(items: seq<Identity>): Cases {
    map id | id in SetOf(items) :: FreshCase(|TrialsOf(items, id)|)
  }

  ghost function Start(items: seq<Identity>, concurrency: nat, now: int): LaneState
    requires concurrency > 0
  {
    var pool := Scheduler.Init(|items|, concurrency);
    LaneState(items, pool, seq(|pool.workers|, _ => NoHook), now, map[], None, None, Planned(items), [], None,
              map[], map[], {}, {})
  }

  datatype Move =
    | ClaimItem(worker: nat, now: int)
    | Prepared(worker: nat, now: int, failure: Option<int>)
    | StartCalled(worker: nat, now: int)
    | CaseStartReturned(worker: nat, now: int)
    | TrialStartReturned(worker: nat, now: int)
    | Executed(worker: nat, now: int, result: Settlement)
    | TrialFinishReturned(worker: nat, now: int)
    | FinishCalled(worker: nat, now: int)
    | CaseFinishReturned(worker: nat, now: int)

  /** The pool action a move performs, if it completes one of the pool's awaits. */
  function PoolAction(m: Move): Option<Action> {
    match m
    case ClaimItem(w, _) => Some(Claim(w, None))
    case Prepared(w, _, failure) => if failure.Some? then Some(StartSettled(w, failure)) else None
    case TrialStartReturned(w, _) => Some(StartSettled(w, None))
    case Executed(w, _, result) => Some(ExecutorSettled(w, result))
    case CaseFinishReturned(w, _) => Some(FinishSettled(w, None))
    case _ => None
  }

  /** The moves that go on with a segment already running. */
  predicate TrackerCall(m: Move) {
    m.StartCalled? || m.FinishCalled?
  }

  ghost predicate CanMove(l: LaneState, m: Move) {
    && l.fault.None?
    && m.now >= l.clock
    && |l.hooks| == |l.pool.workers|
    && |l.items| == |l.pool.items|
    && Shape(l.pool)
    && m.worker < |l.hooks|
    && (if l.running.Some? then l.running == Some(m.worker) && TrackerCall(m) else !TrackerCall(m))
    && (PoolAction(m).Some? ==> Enabled(l.pool, PoolAction(m).value))
    && var h := l.hooks[m.worker];
       match m
       case ClaimItem(_, _) => h.NoHook?
       case Prepared(_, _, _) => h.Preparing? && Holds(l.pool.workers[m.worker])
       case StartCalled(_, _) => h.StartCalling? && Holds(l.pool.workers[m.worker])
       case CaseStartReturned(_, _) => h.CaseStarting? && Holds(l.pool.workers[m.worker])
       case TrialStartReturned(_, _) => h.TrialStarting?
       case Executed(_, _, _) => h.NoHook?
       case TrialFinishReturned(_, _) => h.TrialFinishing? && Holds(l.pool.workers[m.worker])
       case FinishCalled(_, _) =>
         h.FinishCalling? && Holds(l.pool.workers[m.worker]) &&
         l.pool.settlements[l.pool.workers[m.worker].index].Some?
       case CaseFinishReturned(_, _) => h.CaseFinishing?
  }

  /** The tracker's clock callback. */
  function TrackerNow(trackerTimestamp: Option<int>, now: int): int {
    if trackerTimestamp.Some? then trackerTimestamp.value else now
  }

  function Emitted(trial: nat, reply: Reply): seq<Event> {
    if reply.Emit? then [CaseEmitted(trial, reply.event)] else []
  }

  /** The tracker's synchronous start segment, which reads the shared timestamp. */
  ghost function StartReply(l: LaneState, m: Move): (Cases, Reply)
    requires CanMove(l, m) && m.StartCalled?
  {
    TrialStart(l.cases, l.items[l.pool.workers[m.worker].index], TrackerNow(l.trackerTimestamp, m.now))
  }

  /** The tracker's synchronous finish segment, likewise. */
  ghost function FinishReply(l: LaneState, m: Move): (Cases, Reply)
    requires CanMove(l, m) && m.FinishCalled?
  {
    var i := l.pool.workers[m.worker].index;
    TrialFinish(l.cases, l.items[i], l.pool.settlements[i].value, TrackerNow(l.trackerTimestamp, m.now))
  }

  ghost function Advance(l: LaneState, m: Move): LaneState
    requires CanMove(l, m)
  {
    var w := m.worker;
    var at := l.(clock := m.now, pool := if PoolAction(m).Some? then Next(l.pool, PoolAction(m).value) else l.pool);
    match m
    case ClaimItem(_, now) =>
      if l.pool.nextIndex >= |l.items| then at
      else
        var i := l.pool.nextIndex;
        at.(hooks := l.hooks[w := Preparing(now)], trialStarts := l.trialStarts[i := now],
            stamped := l.stamped[i := now])
    case Prepared(_, now, failure) =>
      if failure.Some? then at.(hooks := l.hooks[w := NoHook])
      else at.(trackerTimestamp := Some(l.hooks[w].started), running := Some(w),
               hooks := l.hooks[w := StartCalling(l.hooks[w].started)])
    case StartCalled(_, _) =>
      var i := l.pool.workers[w].index;
      var (cases, reply) := StartReply(l, m);
      if reply.Fail? then
        at.(trackerTimestamp := None, running := None, hooks := l.hooks[w := NoHook], fault := Some(reply.fault))
      else at.(running := None, cases := cases, begun := l.begun + {i}, hooks := l.hooks[w := CaseStarting],
               trace := l.trace + Emitted(i, reply))
    case CaseStartReturned(_, now) =>
      at.(trackerTimestamp := None, hooks := l.hooks[w := TrialStarting],
          trace := l.trace + [TrialStartSent(l.pool.workers[w].index)])
    case TrialStartReturned(_, _) =>
      at.(hooks := l.hooks[w := NoHook])
    case Executed(_, now, result) =>
      var i := l.pool.workers[w].index;
      if i !in l.trialStarts then at.(fault := Some(MissingTrialStart))
      else at.(hooks := l.hooks[w := TrialFinishing(now)], completed := l.completed[i := now],
               trace := l.trace + [TrialFinishSent(i)])
    case TrialFinishReturned(_, _) =>
      at.(trackerTimestamp := Some(l.hooks[w].completed), running := Some(w),
          hooks := l.hooks[w := FinishCalling(l.hooks[w].completed)],
          trace := l.trace + [TrialFinishDelivered(l.pool.workers[w].index)])
    case FinishCalled(_, _) =>
      var i := l.pool.workers[w].index;
      var (cases, reply) := FinishReply(l, m);
      if reply.Fail? then
        at.(trackerTimestamp := None, running := None, cases := cases, hooks := l.hooks[w := NoHook],
            fault := Some(reply.fault))
      else at.(running := None, cases := cases, counted := l.counted + {i}, hooks := l.hooks[w := CaseFinishing],
               trace := l.trace + Emitted(i, reply))
    case CaseFinishReturned(_, _) =>
      at.(trackerTimestamp := None, trialStarts := l.trialStarts - {l.pool.workers[w].index},
          hooks := l.hooks[w := NoHook])
  }

  ghost predicate Run(l: LaneState, moves: seq<Move>, k: LaneState)
    decreases |moves|
  {
    if moves == [] then l == k
    else CanMove(l, moves[0]) && Run(Advance(l, moves[0]), moves[1..], k)
  }

  // ---------- Invariant: pool, hooks and stamps ----------

  /** The case of trial `i` has started, no later than `limit`. */
  ghost predicate StartedBy(l: LaneState, i: nat, limit: int) {
    && i < |l.items|
    && l.items[i] in l.cases
    && l.cases[l.items[i]].startedAt.Some?
    && l.cases[l.items[i]].startedAt.value <= limit
  }

  ghost predicate Stamps(l: LaneState, i: nat) {
    i in l.stamped && i in l.trialStarts && l.trialStarts[i] == l.stamped[i] <= l.clock
  }

  ghost predicate WorkerLinked(l: LaneState, w: nat) {
    && w < |l.pool.workers| == |l.hooks|
    && HookLinked(l, l.pool.workers[w], l.hooks[w])
  }

  ghost predicate HookLinked(l: LaneState, worker: Worker, h: Hook) {
    match worker
    case Starting(i) =>
      && Stamps(l, i)
      && i !in l.counted
      && (h.Preparing? || h.StartCalling? || h.CaseStarting? || h.TrialStarting?)
      && (if h.Preparing? || h.StartCalling? then i !in l.begun && h.started == l.stamped[i] else i in l.begun)
    case Executing(i) => h.NoHook? && Stamps(l, i) && i in l.begun && i !in l.counted
    case FinishingOk(i, _) => FinishLinked(l, i, h)
    case FinishingErr(i, _) => FinishLinked(l, i, h)
    case Crashed(i) => h.NoHook? && i !in l.begun && i !in l.counted
    case _ => h.NoHook?
  }

  ghost predicate FinishLinked(l: LaneState, i: nat, h: Hook) {
    && Stamps(l, i)
    && i in l.begun
    && (h.TrialFinishing? || h.FinishCalling? || h.CaseFinishing?)
    && (if h.CaseFinishing? then i in l.counted
        else i !in l.counted && i in l.completed && h.completed == l.completed[i] && StartedBy(l, i, h.completed))
  }

  ghost predicate IndexLinked(l: LaneState, i: nat) {
    && i < |l.items| == |l.pool.items| == |l.pool.settlements|
    && l.pool.items[i].lateFailure.None?
    && (i >= l.pool.nextIndex ==> i !in l.begun && i !in l.stamped)
    && (l.pool.items[i].done ==> i in l.counted)
    && (i in l.counted ==> i in l.begun && l.pool.settlements[i].Some?)
    && (i in l.begun ==> i in l.stamped && StartedBy(l, i, l.clock))
  }

  predicate Calling(h: Hook) {
    h.StartCalling? || h.FinishCalling?
  }

  function Reading(h: Hook): int
    requires Calling(h)
  {
    if h.StartCalling? then h.started else h.completed
  }

  /** The shared timestamp belongs to whoever runs: exactly the running worker is about to call the tracker, and then
      the variable holds its own reading. */
  ghost predicate ClockHeld(l: LaneState) {
    && (l.running.Some? ==> l.running.value < |l.hooks| && Calling(l.hooks[l.running.value]))
    && forall w | 0 <= w < |l.hooks| && Calling(l.hooks[w]) ::
         l.running == Some(w) && l.trackerTimestamp == Some(Reading(l.hooks[w]))
  }

  ghost predicate Linked(l: LaneState) {
    && Scheduler.Inv(l.pool)
    && |l.items| == |l.pool.items|
    && |l.hooks| == |l.pool.workers|
    && l.fault.None?
    && ClockHeld(l)
    && (forall i | i in l.counted :: i < |l.items|)
    && (forall i | 0 <= i < |l.items| :: IndexLinked(l, i))
    && (forall w | 0 <= w < |l.hooks| :: WorkerLinked(l, w))
  }

  // ---------- Invariant: case counters ----------

  datatype Grade = Passed | Failed | Errored

  function GradeOf(settled: Settlement): Grade {
    match settled
    case Fulfilled(v) => if v.ok then Passed else Failed
    case Rejected(_) => Errored
  }

  ghost function Tallied(l: LaneState, id: Identity): set<nat> {
    TrialsOf(l.items, id) * l.counted
  }

  ghost function Graded(l: LaneState, id: Identity, g: Grade): set<nat> {
    WithGrade(Tallied(l, id), l.pool.settlements, g)
  }

  ghost function WithGrade(trials: set<nat>, settlements: seq<Option<Settlement>>, g: Grade): set<nat> {
    set i | i in trials && i < |settlements| && settlements[i].Some? && GradeOf(settlements[i].value) == g
  }

  lemma OneMoreTrial(trials: set<nat>, settlements: seq<Option<Settlement>>, i: nat, settled: Settlement, g: Grade)
    requires i !in trials && i < |settlements| && settlements[i] == Some(settled)
    ensures |WithGrade(trials + {i}, settlements, g)| ==
            |WithGrade(trials, settlements, g)| + if g == GradeOf(settled) then 1 else 0
  {
    var before, after := WithGrade(trials, settlements, g), WithGrade(trials + {i}, settlements, g);
    if g == GradeOf(settled) {
      assert after == before + {i};
    } else {
      assert after == before;
    }
  }

  /** The trials whose settlement carries a score. */
  ghost function WithScore(trials: set<nat>, settlements: seq<Option<Settlement>>): set<nat> {
    set i | i in trials && i < |settlements| && settlements[i].Some? && HasScore(settlements[i].value)
  }

  ghost function ScoreOf(trials: set<nat>, settlements: seq<Option<Settlement>>, i: nat): real {
    if i in WithScore(trials, settlements) then settlements[i].value.value.score.value else 0.0
  }

  /** The sum of the scores of `trials`, below index `n`. */
  ghost function ScoreTotal(trials: set<nat>, settlements: seq<Option<Settlement>>, n: nat): real {
    if n == 0 then 0.0 else ScoreTotal(trials, settlements, n - 1) + ScoreOf(trials, settlements, n - 1)
  }

  /** The mean over the scored settlements of a case, if there is one. */
  ghost function MeanOf(items: seq<Identity>, settlements: seq<Option<Settlement>>, id: Identity): Option<real> {
    var scored := WithScore(TrialsOf(items, id), settlements);
    if scored == {} then None
    else Some(ScoreTotal(TrialsOf(items, id), settlements, |items|) / |scored| as real)
  }

  lemma {:induction false} OneMoreScore(trials: set<nat>, settlements: seq<Option<Settlement>>, i: nat,
                                        settled: Settlement,
                                        n: nat)
    requires i !in trials && i < |settlements| && settlements[i] == Some(settled)
    ensures ScoreTotal(trials + {i}, settlements, n) ==
            ScoreTotal(trials, settlements, n) + if i < n && HasScore(settled) then settled.value.score.value else 0.0
    decreases n
  {
    if n > 0 {
      OneMoreScore(trials, settlements, i, settled, n - 1);
    }
  }

  lemma OneMoreScored(trials: set<nat>, settlements: seq<Option<Settlement>>, i: nat, settled: Settlement)
    requires i !in trials && i < |settlements| && settlements[i] == Some(settled)
    ensures |WithScore(trials + {i}, settlements)| ==
            |WithScore(trials, settlements)| + if HasScore(settled) then 1 else 0
  {
    var before, after := WithScore(trials, settlements), WithScore(trials + {i}, settlements);
    assert after == if HasScore(settled) then before + {i} else before;
  }

  lemma {:induction false} ScoresStay(trials: set<nat>, s: seq<Option<Settlement>>, t: seq<Option<Settlement>>, n: nat)
    requires |s| == |t| && forall j | j in trials && j < |s| :: s[j] == t[j]
    ensures WithScore(trials, s) == WithScore(trials, t)
    ensures ScoreTotal(trials, s, n) == ScoreTotal(trials, t, n)
    decreases n
  {
    assert WithScore(trials, s) == WithScore(trials, t);
    if n > 0 {
      ScoresStay(trials, s, t, n - 1);
    }
  }

  /** The score sums of the tracker's counters. */
  ghost predicate ScoresLinked(l: LaneState, id: Identity, c: CaseState) {
    && c.scoreCount == |WithScore(Tallied(l, id), l.pool.settlements)|
    && c.scoreSum == ScoreTotal(Tallied(l, id), l.pool.settlements, |l.items|)
  }

  ghost predicate CaseLinked(l: LaneState, id: Identity) {
    && id in l.cases
    && var c := l.cases[id];
    && c.plannedTrials == |TrialsOf(l.items, id)|
    && c.plannedTrials > 0
    && c.completedTrials == |Tallied(l, id)|
    && c.passed == |Graded(l, id, Passed)|
    && c.failed == |Graded(l, id, Failed)|
    && c.errored == |Graded(l, id, Errored)|
    && c.passed + c.failed + c.errored == c.completedTrials
    && ScoresLinked(l, id, c)
    && (c.finished <==> c.completedTrials == c.plannedTrials)
    && (c.startedAt.None? ==> TrialsOf(l.items, id) !! l.begun)
    && (c.startedAt.Some? ==> c.startedAt.value <= l.clock)
  }

  ghost predicate CasesLinked(l: LaneState) {
    && l.cases.Keys == SetOf(l.items)
    && forall id | id in l.cases :: CaseLinked(l, id)
  }

  // ---------- Invariant: the trace ----------

  predicate IsCaseStart(e: Event, id: Identity) {
    e.CaseEmitted? && e.event.CaseStart? && e.event.identity == id
  }

  predicate IsCaseFinish(e: Event, id: Identity) {
    e.CaseEmitted? && e.event.CaseFinish? && e.event.identity == id
  }

  ghost function Starts(trace: seq<Event>, id: Identity): nat {
    if trace == [] then 0
    else Starts(trace[..|trace| - 1], id) + if IsCaseStart(trace[|trace| - 1], id) then 1 else 0
  }

  ghost function Finishes(trace: seq<Event>, id: Identity): nat {
    if trace == [] then 0
    else Finishes(trace[..|trace| - 1], id) + if IsCaseFinish(trace[|trace| - 1], id) then 1 else 0
  }

  /** What must have happened before `e`, and what `e` must say. */
  ghost predicate Justified(l: LaneState, before: seq<Event>, e: Event) {
    match e
    case CaseEmitted(trial, CaseStart(id, planned, at)) =>
      && trial in l.begun && trial < |l.items| && l.items[trial] == id
      && trial in l.stamped && at == l.stamped[trial]
      && planned == |TrialsOf(l.items, id)|
    case CaseEmitted(trial, CaseFinish(id, startedAt, completedAt, duration, passed, failed, errored, mean)) =>
      && trial in l.counted && trial < |l.items| && l.items[trial] == id
      && trial in l.completed && completedAt == l.completed[trial]
      && duration == completedAt - startedAt >= 0
      && id in l.cases && l.cases[id].finished && l.cases[id].startedAt == Some(startedAt)
      && passed == l.cases[id].passed && failed == l.cases[id].failed && errored == l.cases[id].errored
      && mean == MeanScore(l.cases[id])
      && (forall i | i in TrialsOf(l.items, id) :: TrialFinishDelivered(i) in before)
    case TrialStartSent(i) => i < |l.items| && Starts(before, l.items[i]) > 0
    case TrialFinishSent(i) => TrialStartSent(i) in before
    case TrialFinishDelivered(i) => TrialFinishSent(i) in before
  }

  ghost predicate HookTraced(worker: Worker, h: Hook, trace: seq<Event>) {
    Holds(worker) ==>
      && (h.TrialStarting? ==> TrialStartSent(worker.index) in trace)
      && (worker.Executing? ==> TrialStartSent(worker.index) in trace)
      && (h.TrialFinishing? ==> TrialFinishSent(worker.index) in trace)
      && (h.FinishCalling? ==> TrialFinishDelivered(worker.index) in trace)
  }

  ghost predicate WorkersTraced(l: LaneState, trace: seq<Event>) {
    && |l.hooks| == |l.pool.workers|
    && forall w | 0 <= w < |l.hooks| :: HookTraced(l.pool.workers[w], l.hooks[w], trace)
  }

  ghost predicate AllDelivered(trials: set<nat>, trace: seq<Event>) {
    forall i | i in trials :: TrialFinishDelivered(i) in trace
  }

  ghost predicate AllJustified(l: LaneState, trace: seq<Event>) {
    forall p | 0 <= p < |trace| :: Justified(l, trace[..p], trace[p])
  }

  ghost predicate Tracked(cases: Cases, trace: seq<Event>) {
    forall id | id in cases ::
      && Starts(trace, id) == (if cases[id].startedAt.Some? then 1 else 0)
      && Finishes(trace, id) == (if cases[id].finished then 1 else 0)
  }

  ghost predicate Traced(l: LaneState) {
    && WorkersTraced(l, l.trace)
    && AllDelivered(l.counted, l.trace)
    && AllJustified(l, l.trace)
    && Tracked(l.cases, l.trace)
  }

  ghost predicate Inv(l: LaneState) {
    Linked(l) && CasesLinked(l) && Traced(l)
  }

  // ---------- Steps keep the counters ----------

  lemma UncountedLeavesRoom(l: LaneState, i: nat)
    requires CasesLinked(l) && i < |l.items| && i !in l.counted
    ensures |Tallied(l, l.items[i])| < |TrialsOf(l.items, l.items[i])|
  {
    var id := l.items[i];
    assert i in TrialsOf(l.items, id) && i !in Tallied(l, id);
    SubsetSize(Tallied(l, id), TrialsOf(l.items, id));
  }

  /** At the moment of a tracker call the shared timestamp is the calling trial's own reading. */
  lemma ReadsOwn(l: LaneState, m: Move)
    requires Linked(l) && CanMove(l, m) && TrackerCall(m)
    ensures TrackerNow(l.trackerTimestamp, m.now) == Reading(l.hooks[m.worker])
  {
    assert Calling(l.hooks[m.worker]);
  }

  /** Every move keeps the timestamp with its owner: what others write into it is gone before it is read. */
  lemma ClockStaysHeld(l: LaneState, m: Move)
    requires ClockHeld(l) && CanMove(l, m)
    ensures ClockHeld(Advance(l, m))
  {
    if TrackerCall(m) {
      CallReleases(l, m);
    } else {
      AwaitKeepsClock(l, m);
    }
  }

  lemma CallReleases(l: LaneState, m: Move)
    requires ClockHeld(l) && CanMove(l, m) && TrackerCall(m)
    ensures ClockHeld(Advance(l, m))
  {
  }

  lemma AwaitKeepsClock(l: LaneState, m: Move)
    requires ClockHeld(l) && CanMove(l, m) && !TrackerCall(m)
    ensures ClockHeld(Advance(l, m))
  {
  }

  lemma StartSucceeds(l: LaneState, m: Move)
    requires Linked(l) && CasesLinked(l) && CanMove(l, m) && m.StartCalled?
    ensures
      var i := l.pool.workers[m.worker].index;
      && l.pool.workers[m.worker].Starting? && i < |l.items| && l.items[i] in l.cases && !l.cases[l.items[i]].finished
      && StartReply(l, m) == TrialStart(l.cases, l.items[i], l.hooks[m.worker].started)
      && !StartReply(l, m).1.Fail?
  {
    assert WorkerLinked(l, m.worker);
    ReadsOwn(l, m);
    var i := l.pool.workers[m.worker].index;
    assert l.items[i] in SetOf(l.items);
    assert CaseLinked(l, l.items[i]);
    UncountedLeavesRoom(l, i);
  }

  /** What a finish call finds: a counted start, room for one more trial, its own reading. */
  lemma FinishStanding(l: LaneState, m: Move)
    requires Linked(l) && CasesLinked(l) && CanMove(l, m) && m.FinishCalled?
    ensures
      var i := l.pool.workers[m.worker].index;
      && (l.pool.workers[m.worker].FinishingOk? || l.pool.workers[m.worker].FinishingErr?)
      && i < |l.items| && l.items[i] in l.cases && i !in l.counted && i in l.begun
      && i in l.completed && l.hooks[m.worker].completed == l.completed[i]
      && var c := l.cases[l.items[i]];
         && c.startedAt.Some? && !c.finished && c.completedTrials < c.plannedTrials
         && c.startedAt.value <= l.hooks[m.worker].completed
  {
    assert WorkerLinked(l, m.worker);
    var i := l.pool.workers[m.worker].index;
    assert CaseLinked(l, l.items[i]);
    UncountedLeavesRoom(l, i);
  }

  lemma FinishSucceeds(l: LaneState, m: Move)
    requires Linked(l) && CasesLinked(l) && CanMove(l, m) && m.FinishCalled?
    ensures
      var i := l.pool.workers[m.worker].index;
      && (l.pool.workers[m.worker].FinishingOk? || l.pool.workers[m.worker].FinishingErr?)
      && i < |l.items| && l.items[i] in l.cases && i !in l.counted && i in l.begun
      && i in l.completed && l.hooks[m.worker].completed == l.completed[i]
      && FinishReply(l, m) ==
         TrialFinish(l.cases, l.items[i], l.pool.settlements[i].value, l.hooks[m.worker].completed)
      && !FinishReply(l, m).1.Fail?
      && var c := l.cases[l.items[i]];
         && c.startedAt.Some? && !c.finished && c.completedTrials < c.plannedTrials
         && c.startedAt.value <= l.hooks[m.worker].completed
  {
    FinishStanding(l, m);
    ReadsOwn(l, m);
    var i := l.pool.workers[m.worker].index;
    TrialFinishCounts(l.cases, l.items[i], l.pool.settlements[i].value, l.hooks[m.worker].completed);
  }

  // ---------- Steps keep the links ----------

  ghost function MovedIndex(l: LaneState, m: Move): nat {
    if m.ClaimItem? then l.pool.nextIndex
    else if m.worker < |l.pool.workers| && Holds(l.pool.workers[m.worker]) then l.pool.workers[m.worker].index
    else 0
  }

  lemma MoverHolds(l: LaneState, m: Move)
    requires Linked(l) && CanMove(l, m)
    ensures m.ClaimItem? || (Holds(l.pool.workers[m.worker]) && MovedIndex(l, m) < l.pool.nextIndex)
    ensures m.Prepared? || m.StartCalled? || m.CaseStartReturned? || m.TrialStartReturned? ==>
            l.pool.workers[m.worker].Starting?
    ensures m.TrialFinishReturned? || m.FinishCalled? || m.CaseFinishReturned? ==>
              l.pool.workers[m.worker].FinishingOk? || l.pool.workers[m.worker].FinishingErr?
  {
    assert WorkerLinked(l, m.worker);
  }

  lemma NoFault(l: LaneState, m: Move)
    requires Linked(l) && CasesLinked(l) && CanMove(l, m)
    ensures Advance(l, m).fault.None?
  {
    if m.StartCalled? {
      StartSucceeds(l, m);
    } else if m.FinishCalled? {
      FinishSucceeds(l, m);
    } else if m.Executed? {
      assert WorkerLinked(l, m.worker);
    }
  }

  lemma PoolKeepsInv(l: LaneState, m: Move)
    requires Linked(l) && CanMove(l, m)
    ensures Scheduler.Inv(Advance(l, m).pool)
  {
    if PoolAction(m).Some? {
      Scheduler.StepKeepsInv(l.pool, PoolAction(m).value);
    }
  }

  /** Two pools differ at most at worker `w` and index `i`. */
  ghost predicate SamePoolElsewhere(p: State, q: State, w: nat, i: nat) {
    && |q.workers| == |p.workers| && |q.items| == |p.items| && |q.settlements| == |p.settlements|
    && (q.nextIndex == p.nextIndex || (i == p.nextIndex && q.nextIndex == i + 1))
    && (forall v | 0 <= v < |p.workers| && v != w :: q.workers[v] == p.workers[v])
    && (forall j | 0 <= j < |p.items| && j != i :: q.items[j] == p.items[j])
    && (forall j | 0 <= j < |p.settlements| && j != i :: q.settlements[j] == p.settlements[j])
  }

  ghost predicate SameEntry<V>(a: map<nat, V>, b: map<nat, V>, i: nat) {
    && (i in a <==> i in b)
    && (i in a ==> a[i] == b[i])
  }

  /** A case entry keeps its start once it has one. */
  predicate Later(before: Cases, after: Cases) {
    && after.Keys == before.Keys
    && forall id | id in before :: before[id].startedAt.Some? ==> after[id].startedAt == before[id].startedAt
  }

  /** Two lane states differ at most at worker `w`, trial `i`, the cases and the trace. */
  ghost predicate SameElsewhere(l: LaneState, k: LaneState, w: nat, i: nat) {
    && SameHooks(l, k, w)
    && SamePoolElsewhere(l.pool, k.pool, w, i)
    && SameTrials(l, k, i)
    && Later(l.cases, k.cases)
  }

  ghost predicate SameHooks(l: LaneState, k: LaneState, w: nat) {
    && k.items == l.items && k.clock >= l.clock
    && |k.hooks| == |l.hooks|
    && forall v | 0 <= v < |l.hooks| && v != w :: k.hooks[v] == l.hooks[v]
  }

  ghost predicate SameTrials(l: LaneState, k: LaneState, i: nat) {
    forall j: nat | j != i :: SameTrial(l, k, j)
  }

  ghost predicate SameTrial(l: LaneState, k: LaneState, j: nat) {
    && (j in k.begun <==> j in l.begun)
    && (j in k.counted <==> j in l.counted)
    && SameEntry(l.stamped, k.stamped, j)
    && SameEntry(l.completed, k.completed, j)
    && SameEntry(l.trialStarts, k.trialStarts, j)
  }

  lemma NextMovesAlone(p: State, a: Action, i: nat)
    requires Enabled(p, a) && i == ActsOn(p, a)
    ensures SamePoolElsewhere(p, Next(p, a), a.worker, i)
  {
  }

  lemma PoolMovesAlone(l: LaneState, m: Move)
    requires Linked(l) && CanMove(l, m)
    ensures SamePoolElsewhere(l.pool, Advance(l, m).pool, m.worker, MovedIndex(l, m))
  {
    MoverHolds(l, m);
    if PoolAction(m).Some? {
      NextMovesAlone(l.pool, PoolAction(m).value, MovedIndex(l, m));
    }
    AdvancePool(l, m);
  }

  lemma AdvancePool(l: LaneState, m: Move)
    requires CanMove(l, m)
    ensures Advance(l, m).pool == if PoolAction(m).Some? then Next(l.pool, PoolAction(m).value) else l.pool
  {
  }

  lemma TrialsMoveAlone(l: LaneState, m: Move, j: nat)
    requires Linked(l) && CanMove(l, m) && j != MovedIndex(l, m)
    ensures SameTrial(l, Advance(l, m), j)
  {
    MoverHolds(l, m);
    OtherBegunStay(l, m, j);
    OtherCountedStay(l, m, j);
    OtherStampsStay(l, m, j);
    OtherCompletedStay(l, m, j);
    OtherStartsStay(l, m, j);
  }

  lemma OtherBegunStay(l: LaneState, m: Move, j: nat)
    requires CanMove(l, m) && j != MovedIndex(l, m)
    requires m.ClaimItem? || Holds(l.pool.workers[m.worker])
    ensures j in Advance(l, m).begun <==> j in l.begun
  {
    if m.StartCalled? {
      StartCallBegins(l, m);
    } else {
      NothingBegins(l, m);
    }
  }

  lemma StartCallBegins(l: LaneState, m: Move)
    requires CanMove(l, m) && m.StartCalled?
    ensures l.begun <= Advance(l, m).begun <= l.begun + {l.pool.workers[m.worker].index}
  {
  }

  lemma NothingBegins(l: LaneState, m: Move)
    requires CanMove(l, m) && !m.StartCalled?
    ensures Advance(l, m).begun == l.begun
  {
  }

  lemma OtherCountedStay(l: LaneState, m: Move, j: nat)
    requires CanMove(l, m) && j != MovedIndex(l, m)
    requires m.ClaimItem? || Holds(l.pool.workers[m.worker])
    ensures j in Advance(l, m).counted <==> j in l.counted
  {
    if m.FinishCalled? {
      FinishCallCounts(l, m);
    } else {
      NothingCounts(l, m);
    }
  }

  lemma FinishCallCounts(l: LaneState, m: Move)
    requires CanMove(l, m) && m.FinishCalled?
    ensures l.counted <= Advance(l, m).counted <= l.counted + {l.pool.workers[m.worker].index}
  {
  }

  lemma NothingCounts(l: LaneState, m: Move)
    requires CanMove(l, m) && !m.FinishCalled?
    ensures Advance(l, m).counted == l.counted
  {
  }

  lemma OtherStampsStay(l: LaneState, m: Move, j: nat)
    requires CanMove(l, m) && j != MovedIndex(l, m)
    requires m.ClaimItem? || Holds(l.pool.workers[m.worker])
    ensures SameEntry(l.stamped, Advance(l, m).stamped, j)
  {
  }

  lemma OtherCompletedStay(l: LaneState, m: Move, j: nat)
    requires CanMove(l, m) && j != MovedIndex(l, m)
    requires m.ClaimItem? || Holds(l.pool.workers[m.worker])
    ensures SameEntry(l.completed, Advance(l, m).completed, j)
  {
  }

  lemma OtherStartsStay(l: LaneState, m: Move, j: nat)
    requires CanMove(l, m) && j != MovedIndex(l, m)
    requires m.ClaimItem? || Holds(l.pool.workers[m.worker])
    ensures SameEntry(l.trialStarts, Advance(l, m).trialStarts, j)
  {
  }

  lemma StartMovesOn(cases: Cases, id: Identity, now: int)
    ensures Later(cases, TrialStart(cases, id, now).0)
  {
  }

  lemma FinishMovesOn(cases: Cases, id: Identity, settled: Settlement, now: int)
    ensures Later(cases, TrialFinish(cases, id, settled, now).0)
  {
  }

  lemma CasesMoveOn(l: LaneState, m: Move)
    requires CanMove(l, m)
    ensures Later(l.cases, Advance(l, m).cases)
  {
    if m.StartCalled? {
      var i := l.pool.workers[m.worker].index;
      StartMovesOn(l.cases, l.items[i], TrackerNow(l.trackerTimestamp, m.now));
    } else if m.FinishCalled? {
      var i := l.pool.workers[m.worker].index;
      FinishMovesOn(l.cases, l.items[i], l.pool.settlements[i].value, TrackerNow(l.trackerTimestamp, m.now));
    }
  }

  lemma HooksMoveAlone(l: LaneState, m: Move)
    requires CanMove(l, m)
    ensures SameHooks(l, Advance(l, m), m.worker)
  {
  }

  lemma AllTrialsMoveAlone(l: LaneState, m: Move)
    requires Linked(l) && CanMove(l, m)
    ensures SameTrials(l, Advance(l, m), MovedIndex(l, m))
  {
    var k, i := Advance(l, m), MovedIndex(l, m);
    forall j: nat | j != i
      ensures SameTrial(l, k, j)
    {
      TrialsMoveAlone(l, m, j);
    }
  }

  lemma MovesAlone(l: LaneState, m: Move)
    requires Linked(l) && CanMove(l, m)
    ensures SameElsewhere(l, Advance(l, m), m.worker, MovedIndex(l, m))
  {
    HooksMoveAlone(l, m);
    PoolMovesAlone(l, m);
    AllTrialsMoveAlone(l, m);
    CasesMoveOn(l, m);
  }

  lemma OtherIndexStays(l: LaneState, k: LaneState, w: nat, i: nat, j: nat)
    requires SameElsewhere(l, k, w, i) && IndexLinked(l, j) && j != i
    ensures IndexLinked(k, j)
  {
    assert SameTrial(l, k, j);
  }

  lemma OtherWorkerStays(l: LaneState, k: LaneState, w: nat, i: nat, v: nat)
    requires SameElsewhere(l, k, w, i) && WorkerLinked(l, v) && v != w
    requires Holds(l.pool.workers[v]) ==> l.pool.workers[v].index != i
    ensures WorkerLinked(k, v)
  {
    if Holds(l.pool.workers[v]) {
      assert SameTrial(l, k, l.pool.workers[v].index);
    }
  }

  lemma OtherWorkerIndex(l: LaneState, m: Move, v: nat)
    requires Linked(l) && CanMove(l, m) && v < |l.hooks| && v != m.worker && Holds(l.pool.workers[v])
    ensures l.pool.workers[v].index != MovedIndex(l, m)
  {
    MoverHolds(l, m);
    assert Scheduler.WorkerOk(l.pool, v) && Scheduler.WorkerOk(l.pool, m.worker);
  }

  // The moved worker and its index, one move at a time.

  lemma ClaimKeepsOwn(l: LaneState, m: Move)
    requires Linked(l) && CanMove(l, m) && m.ClaimItem?
    ensures WorkerLinked(Advance(l, m), m.worker)
    ensures l.pool.nextIndex < |l.items| ==> IndexLinked(Advance(l, m), l.pool.nextIndex)
  {
    if l.pool.nextIndex < |l.items| {
      assert IndexLinked(l, l.pool.nextIndex);
      assert Scheduler.IndexOk(l.pool, l.pool.nextIndex);
    }
  }

  lemma PreparedKeepsOwn(l: LaneState, m: Move)
    requires Linked(l) && CanMove(l, m) && m.Prepared?
    ensures WorkerLinked(Advance(l, m), m.worker) && IndexLinked(Advance(l, m), MovedIndex(l, m))
  {
    MoverHolds(l, m);
    assert WorkerLinked(l, m.worker) && IndexLinked(l, MovedIndex(l, m));
  }

  lemma StartCalledKeepsOwn(l: LaneState, m: Move)
    requires Linked(l) && CasesLinked(l) && CanMove(l, m) && m.StartCalled?
    ensures WorkerLinked(Advance(l, m), m.worker) && IndexLinked(Advance(l, m), MovedIndex(l, m))
  {
    MoverHolds(l, m);
    var i := MovedIndex(l, m);
    assert WorkerLinked(l, m.worker) && IndexLinked(l, i);
    StartSucceeds(l, m);
    assert CaseLinked(l, l.items[i]);
  }

  lemma DeliveredKeepsOwn(l: LaneState, m: Move)
    requires Linked(l) && CanMove(l, m) && m.TrialFinishReturned?
    ensures WorkerLinked(Advance(l, m), m.worker) && IndexLinked(Advance(l, m), MovedIndex(l, m))
  {
    MoverHolds(l, m);
    assert WorkerLinked(l, m.worker) && IndexLinked(l, MovedIndex(l, m));
  }

  lemma StartKeepsOwn(l: LaneState, m: Move)
    requires Linked(l) && CanMove(l, m) && (m.CaseStartReturned? || m.TrialStartReturned?)
    ensures WorkerLinked(Advance(l, m), m.worker) && IndexLinked(Advance(l, m), MovedIndex(l, m))
  {
    MoverHolds(l, m);
    assert WorkerLinked(l, m.worker) && IndexLinked(l, MovedIndex(l, m));
  }

  lemma ExecutedKeepsOwn(l: LaneState, m: Move)
    requires Linked(l) && CanMove(l, m) && m.Executed?
    ensures WorkerLinked(Advance(l, m), m.worker) && IndexLinked(Advance(l, m), MovedIndex(l, m))
  {
    MoverHolds(l, m);
    assert WorkerLinked(l, m.worker) && IndexLinked(l, MovedIndex(l, m));
  }

  lemma FinishKeepsOwn(l: LaneState, m: Move)
    requires Linked(l) && CasesLinked(l) && CanMove(l, m) && m.FinishCalled?
    ensures WorkerLinked(Advance(l, m), m.worker) && IndexLinked(Advance(l, m), MovedIndex(l, m))
  {
    var i := MovedIndex(l, m);
    assert WorkerLinked(l, m.worker) && IndexLinked(l, i);
    FinishSucceeds(l, m);
    CasesMoveOn(l, m);
    FinishKeepsOwnFrom(l, Advance(l, m), m.worker, i);
  }

  lemma FinishKeepsOwnFrom(l: LaneState, k: LaneState, w: nat, i: nat)
    requires WorkerLinked(l, w) && IndexLinked(l, i) && Later(l.cases, k.cases)
    requires (l.pool.workers[w].FinishingOk? || l.pool.workers[w].FinishingErr?) && l.pool.workers[w].index == i
    requires k.pool == l.pool && k.items == l.items && k.clock >= l.clock && k.begun == l.begun
    requires k.counted == l.counted + {i} && k.hooks == l.hooks[w := CaseFinishing] && l.pool.settlements[i].Some?
    requires k.stamped == l.stamped && k.trialStarts == l.trialStarts
    ensures WorkerLinked(k, w) && IndexLinked(k, i)
  {
  }

  lemma CaseFinishKeepsOwn(l: LaneState, m: Move)
    requires Linked(l) && CanMove(l, m) && m.CaseFinishReturned?
    ensures WorkerLinked(Advance(l, m), m.worker) && IndexLinked(Advance(l, m), MovedIndex(l, m))
  {
    MoverHolds(l, m);
    assert WorkerLinked(l, m.worker) && IndexLinked(l, MovedIndex(l, m));
  }

  lemma MoveKeepsOwn(l: LaneState, m: Move)
    requires Linked(l) && CasesLinked(l) && CanMove(l, m)
    ensures WorkerLinked(Advance(l, m), m.worker)
    ensures MovedIndex(l, m) < |l.items| ==> IndexLinked(Advance(l, m), MovedIndex(l, m))
  {
    match m
    case ClaimItem(_, _) => ClaimKeepsOwn(l, m);
    case Prepared(_, _, _) => PreparedKeepsOwn(l, m);
    case Executed(_, _, _) => ExecutedKeepsOwn(l, m);
    case StartCalled(_, _) => StartCalledKeepsOwn(l, m);
    case TrialFinishReturned(_, _) => DeliveredKeepsOwn(l, m);
    case FinishCalled(_, _) => FinishKeepsOwn(l, m);
    case CaseFinishReturned(_, _) => CaseFinishKeepsOwn(l, m);
    case _ => StartKeepsOwn(l, m);
  }

  lemma CountedStaysBounded(l: LaneState, m: Move)
    requires Linked(l) && CasesLinked(l) && CanMove(l, m)
    ensures forall i | i in Advance(l, m).counted :: i < |l.items|
  {
    if m.FinishCalled? {
      FinishEffect(l, m);
    } else if m.StartCalled? {
      StartSucceeds(l, m);
      StartCalledEffect(l, m);
    } else {
      PlainEffect(l, m);
    }
  }

  lemma AllLinked(l: LaneState, k: LaneState, w: nat, i: nat)
    requires Linked(l) && SameElsewhere(l, k, w, i)
    requires Scheduler.Inv(k.pool) && k.fault.None? && ClockHeld(k) && forall j | j in k.counted :: j < |k.items|
    requires WorkerLinked(k, w) && (i < |k.items| ==> IndexLinked(k, i))
    requires forall v | 0 <= v < |l.hooks| && v != w && Holds(l.pool.workers[v]) :: l.pool.workers[v].index != i
    ensures Linked(k)
  {
    forall j | 0 <= j < |k.items|
      ensures IndexLinked(k, j)
    {
      if j != i {
        OtherIndexStays(l, k, w, i, j);
      }
    }
    forall v | 0 <= v < |k.hooks|
      ensures WorkerLinked(k, v)
    {
      if v != w {
        OtherWorkerStays(l, k, w, i, v);
      }
    }
  }

  lemma StepKeepsLinked(l: LaneState, m: Move)
    requires Linked(l) && CasesLinked(l) && CanMove(l, m)
    ensures Linked(Advance(l, m))
  {
    NoFault(l, m);
    PoolKeepsInv(l, m);
    MovesAlone(l, m);
    MoveKeepsOwn(l, m);
    CountedStaysBounded(l, m);
    ClockStaysHeld(l, m);
    forall v | 0 <= v < |l.hooks| && v != m.worker && Holds(l.pool.workers[v])
      ensures l.pool.workers[v].index != MovedIndex(l, m)
    {
      OtherWorkerIndex(l, m, v);
    }
    AllLinked(l, Advance(l, m), m.worker, MovedIndex(l, m));
  }

  // ---------- Steps keep the case counters ----------

  /** Nothing that `id`'s counters look at differs. */
  ghost predicate SameTally(l: LaneState, k: LaneState, i: nat, id: Identity) {
    i < |l.items| && i < |l.pool.settlements| && i < |k.pool.settlements| && l.items[i] == id ==>
      && (i in k.counted <==> i in l.counted)
      && (i in l.counted ==> k.pool.settlements[i] == l.pool.settlements[i])
  }

  lemma TalliesStay(l: LaneState, k: LaneState, w: nat, i: nat, id: Identity)
    requires SameElsewhere(l, k, w, i) && SameTally(l, k, i, id)
    requires |l.items| == |l.pool.settlements|
    ensures Tallied(k, id) == Tallied(l, id)
    ensures forall g :: Graded(k, id, g) == Graded(l, id, g)
    ensures WithScore(Tallied(k, id), k.pool.settlements) == WithScore(Tallied(l, id), l.pool.settlements)
    ensures ScoreTotal(Tallied(k, id), k.pool.settlements, |k.items|) ==
            ScoreTotal(Tallied(l, id), l.pool.settlements, |l.items|)
  {
    forall j | j in TrialsOf(l.items, id)
      ensures j in k.counted <==> j in l.counted
      ensures j in l.counted ==> k.pool.settlements[j] == l.pool.settlements[j]
    {
      assert j != i ==> SameTrial(l, k, j);
    }
    assert Tallied(k, id) == Tallied(l, id);
    ScoresStay(Tallied(l, id), k.pool.settlements, l.pool.settlements, |l.items|);
    forall g
      ensures Graded(k, id, g) == Graded(l, id, g)
    {
    }
  }

  lemma CaseStays(l: LaneState, k: LaneState, w: nat, i: nat, id: Identity)
    requires SameElsewhere(l, k, w, i) && SameTally(l, k, i, id)
    requires |l.items| == |l.pool.settlements| && CaseLinked(l, id)
    requires k.cases[id] == l.cases[id]
    requires l.cases[id].startedAt.None? && i < |l.items| && l.items[i] == id ==> i !in k.begun
    ensures CaseLinked(k, id)
  {
    TalliesStay(l, k, w, i, id);
    if l.cases[id].startedAt.None? {
      forall j | j in TrialsOf(l.items, id)
        ensures j !in k.begun
      {
        assert j != i ==> SameTrial(l, k, j);
      }
    }
  }

  lemma CaseStarts(l: LaneState, k: LaneState, w: nat, i: nat, at: int)
    requires SameElsewhere(l, k, w, i) && i < |l.items| == |l.pool.settlements| && CaseLinked(l, l.items[i])
    requires SameTally(l, k, i, l.items[i]) && at <= k.clock
    requires k.cases[l.items[i]] == l.cases[l.items[i]].(startedAt := Some(at))
    ensures CaseLinked(k, l.items[i])
  {
    TalliesStay(l, k, w, i, l.items[i]);
  }

  lemma CaseCounts(l: LaneState, k: LaneState, i: nat, settled: Settlement)
    requires i < |l.items| == |l.pool.settlements| && CaseLinked(l, l.items[i])
    requires k.items == l.items && k.pool == l.pool && k.counted == l.counted + {i} && i !in l.counted
    requires k.begun == l.begun && k.clock >= l.clock
    requires l.pool.settlements[i] == Some(settled)
    requires l.cases[l.items[i]].startedAt.Some? && !l.cases[l.items[i]].finished
    requires k.cases == l.cases[l.items[i] := Counted(l.cases[l.items[i]], settled)]
    ensures CaseLinked(k, l.items[i])
  {
    GradesGrow(l, k, i, settled);
    assert Tallied(k, l.items[i]) == Tallied(l, l.items[i]) + {i};
    OneMoreScore(Tallied(l, l.items[i]), l.pool.settlements, i, settled, |l.items|);
    OneMoreScored(Tallied(l, l.items[i]), l.pool.settlements, i, settled);
  }

  lemma GradesGrow(l: LaneState, k: LaneState, i: nat, settled: Settlement)
    requires i < |l.items| == |l.pool.settlements|
    requires k.items == l.items && k.pool == l.pool && k.counted == l.counted + {i} && i !in l.counted
    requires l.pool.settlements[i] == Some(settled)
    ensures |Tallied(k, l.items[i])| == |Tallied(l, l.items[i])| + 1
    ensures forall g :: |Graded(k, l.items[i], g)| ==
                        |Graded(l, l.items[i], g)| + if g == GradeOf(settled) then 1 else 0
  {
    assert Tallied(k, l.items[i]) == Tallied(l, l.items[i]) + {i};
    forall g
      ensures |Graded(k, l.items[i], g)| == |Graded(l, l.items[i], g)| + if g == GradeOf(settled) then 1 else 0
    {
      OneMoreTrial(Tallied(l, l.items[i]), l.pool.settlements, i, settled, g);
    }
  }

  lemma CountedSlotStays(l: LaneState, m: Move)
    requires Linked(l) && CanMove(l, m) && !TrackerCall(m)
    ensures
      var i := MovedIndex(l, m);
      i in l.counted ==> Advance(l, m).pool.settlements[i] == l.pool.settlements[i]
  {
    var i := MovedIndex(l, m);
    MoverHolds(l, m);
    AdvancePool(l, m);
    PoolMovesAlone(l, m);
    assert WorkerLinked(l, m.worker);
    if m.ClaimItem? && i < |l.items| {
      assert IndexLinked(l, i);
    }
  }

  lemma QuietMoveKeepsCases(l: LaneState, m: Move)
    requires Linked(l) && CasesLinked(l) && CanMove(l, m)
    requires !TrackerCall(m)
    ensures CasesLinked(Advance(l, m))
  {
    MovesAlone(l, m);
    MoverHolds(l, m);
    PlainEffect(l, m);
    CountedSlotStays(l, m);
    var k, i := Advance(l, m), MovedIndex(l, m);
    forall id | id in k.cases
      ensures CaseLinked(k, id)
    {
      assert CaseLinked(l, id);
      assert i < |l.items| && l.items[i] == id ==> i in TrialsOf(l.items, id);
      CaseStays(l, k, m.worker, i, id);
    }
  }

  lemma StartCalledEffect(l: LaneState, m: Move)
    requires Linked(l) && CasesLinked(l) && CanMove(l, m) && m.StartCalled?
    ensures
      var k, i, started := Advance(l, m), l.pool.workers[m.worker].index, l.hooks[m.worker].started;
      && k.cases == TrialStart(l.cases, l.items[i], started).0
      && k.begun == l.begun + {i} && k.counted == l.counted && k.pool == l.pool
      && k.stamped == l.stamped && k.completed == l.completed
      && k.trace == l.trace + Emitted(i, TrialStart(l.cases, l.items[i], started).1)
      && k.hooks == l.hooks[m.worker := CaseStarting]
  {
    StartSucceeds(l, m);
  }

  lemma FinishEffect(l: LaneState, m: Move)
    requires Linked(l) && CasesLinked(l) && CanMove(l, m) && m.FinishCalled?
    ensures
      var k, i, at := Advance(l, m), l.pool.workers[m.worker].index, l.hooks[m.worker].completed;
      && i < |l.items| && l.items[i] in l.cases && l.pool.settlements[i].Some?
      && k.begun == l.begun && k.counted == l.counted + {i} && k.pool == l.pool
      && k.stamped == l.stamped && k.completed == l.completed
      && k.hooks == l.hooks[m.worker := CaseFinishing]
      && var c := Counted(l.cases[l.items[i]], l.pool.settlements[i].value);
         && c.startedAt == l.cases[l.items[i]].startedAt && c.startedAt.Some? && c.startedAt.value <= at
         && k.cases == l.cases[l.items[i] := c]
         && k.trace == l.trace + FinishEvents(i, l.items[i], c, at)
  {
    FinishSucceeds(l, m);
    FinishFields(l, m);
    var i := l.pool.workers[m.worker].index;
    TrialFinishCounts(l.cases, l.items[i], l.pool.settlements[i].value, l.hooks[m.worker].completed);
  }

  lemma FinishFields(l: LaneState, m: Move)
    requires CanMove(l, m) && m.FinishCalled? && !FinishReply(l, m).1.Fail?
    ensures
      var k, i := Advance(l, m), l.pool.workers[m.worker].index;
      && k.begun == l.begun && k.counted == l.counted + {i} && k.pool == l.pool
      && k.stamped == l.stamped && k.completed == l.completed
      && k.hooks == l.hooks[m.worker := CaseFinishing]
      && k.cases == FinishReply(l, m).0 && k.trace == l.trace + Emitted(i, FinishReply(l, m).1)
  {
  }

  ghost function FinishEvents(i: nat, id: Identity, c: CaseState, at: int): seq<Event>
    requires c.startedAt.Some?
  {
    if c.finished then [CaseEmitted(i, FinishReport(id, c, at))] else []
  }

  lemma CasesAfterStart(l: LaneState, k: LaneState, w: nat, i: nat, at: int)
    requires SameElsewhere(l, k, w, i) && i < |l.items| == |l.pool.settlements| && CasesLinked(l)
    requires l.items[i] in l.cases && !l.cases[l.items[i]].finished && at <= k.clock
    requires k.cases == TrialStart(l.cases, l.items[i], at).0 && k.counted == l.counted && k.pool == l.pool
    ensures CasesLinked(k)
  {
    forall id | id in k.cases
      ensures CaseLinked(k, id)
    {
      assert CaseLinked(l, id);
      if id == l.items[i] && l.cases[id].startedAt.None? {
        CaseStarts(l, k, w, i, at);
      } else {
        CaseStays(l, k, w, i, id);
      }
    }
  }

  lemma StartCalledKeepsCases(l: LaneState, m: Move)
    requires Linked(l) && CasesLinked(l) && CanMove(l, m) && m.StartCalled?
    ensures CasesLinked(Advance(l, m))
  {
    MovesAlone(l, m);
    StartSucceeds(l, m);
    StartCalledEffect(l, m);
    assert WorkerLinked(l, m.worker);
    CasesAfterStart(l, Advance(l, m), m.worker, l.pool.workers[m.worker].index, l.hooks[m.worker].started);
  }

  lemma CasesAfterCount(l: LaneState, k: LaneState, w: nat, i: nat, settled: Settlement)
    requires SameElsewhere(l, k, w, i) && i < |l.items| == |l.pool.settlements| && CasesLinked(l)
    requires l.items[i] in l.cases && k.pool == l.pool && k.begun == l.begun && k.counted == l.counted + {i}
    requires i !in l.counted && l.pool.settlements[i] == Some(settled)
    requires l.cases[l.items[i]].startedAt.Some? && !l.cases[l.items[i]].finished
    requires k.cases == l.cases[l.items[i] := Counted(l.cases[l.items[i]], settled)]
    ensures CasesLinked(k)
  {
    forall id | id in k.cases
      ensures CaseLinked(k, id)
    {
      assert CaseLinked(l, id);
      if id == l.items[i] {
        CaseCounts(l, k, i, settled);
      } else {
        CaseStays(l, k, w, i, id);
      }
    }
  }

  lemma FinishKeepsCases(l: LaneState, m: Move)
    requires Linked(l) && CasesLinked(l) && CanMove(l, m) && m.FinishCalled?
    ensures CasesLinked(Advance(l, m))
  {
    MovesAlone(l, m);
    FinishSucceeds(l, m);
    FinishEffect(l, m);
    var i := l.pool.workers[m.worker].index;
    CasesAfterCount(l, Advance(l, m), m.worker, i, l.pool.settlements[i].value);
  }

  lemma StepKeepsCases(l: LaneState, m: Move)
    requires Linked(l) && CasesLinked(l) && CanMove(l, m)
    ensures CasesLinked(Advance(l, m))
  {
    if m.FinishCalled? {
      FinishKeepsCases(l, m);
    } else if m.StartCalled? {
      StartCalledKeepsCases(l, m);
    } else {
      QuietMoveKeepsCases(l, m);
    }
  }

  // ---------- Steps keep the trace ----------

  /** What justified events rely on is never taken back. */
  ghost predicate Persists(l: LaneState, k: LaneState) {
    && k.items == l.items
    && l.begun <= k.begun && l.counted <= k.counted
    && (forall i | i in l.begun && i in l.stamped :: i in k.stamped && k.stamped[i] == l.stamped[i])
    && (forall i | i in l.counted && i in l.completed :: i in k.completed && k.completed[i] == l.completed[i])
    && (forall id | id in l.cases && l.cases[id].finished :: id in k.cases && k.cases[id] == l.cases[id])
  }

  lemma FinishedStays(l: LaneState, m: Move)
    requires Linked(l) && CasesLinked(l) && CanMove(l, m)
    ensures forall id | id in l.cases && l.cases[id].finished ::
              id in Advance(l, m).cases && Advance(l, m).cases[id] == l.cases[id]
  {
    if m.FinishCalled? {
      FinishSucceeds(l, m);
      FinishEffect(l, m);
    } else if m.StartCalled? {
      StartSucceeds(l, m);
      StartCalledEffect(l, m);
    } else {
      PlainEffect(l, m);
    }
  }

  lemma HistoryStays(l: LaneState, m: Move)
    requires Linked(l) && CasesLinked(l) && CanMove(l, m)
    ensures Advance(l, m).items == l.items && l.begun <= Advance(l, m).begun && l.counted <= Advance(l, m).counted
  {
    HooksMoveAlone(l, m);
    if m.FinishCalled? {
      FinishEffect(l, m);
    } else if m.StartCalled? {
      StartSucceeds(l, m);
      StartCalledEffect(l, m);
    } else {
      PlainEffect(l, m);
    }
  }

  lemma OwnStampsStay(l: LaneState, m: Move, i: nat)
    requires Linked(l) && CanMove(l, m) && i == MovedIndex(l, m)
    ensures i in l.begun && i in l.stamped ==> i in Advance(l, m).stamped && Advance(l, m).stamped[i] == l.stamped[i]
    ensures i in l.counted && i in l.completed ==>
              i in Advance(l, m).completed && Advance(l, m).completed[i] == l.completed[i]
  {
    if m.ClaimItem? && i < |l.items| {
      assert IndexLinked(l, i);
    } else if m.Executed? {
      assert WorkerLinked(l, m.worker);
    }
  }

  lemma MovePersists(l: LaneState, m: Move)
    requires Linked(l) && CasesLinked(l) && CanMove(l, m)
    ensures Persists(l, Advance(l, m))
  {
    HistoryStays(l, m);
    MovesAlone(l, m);
    OwnStampsStay(l, m, MovedIndex(l, m));
    FinishedStays(l, m);
    PersistsFrom(l, Advance(l, m), m.worker, MovedIndex(l, m));
  }

  lemma PersistsFrom(l: LaneState, k: LaneState, w: nat, i: nat)
    requires SameElsewhere(l, k, w, i) && k.items == l.items && l.begun <= k.begun && l.counted <= k.counted
    requires i in l.begun && i in l.stamped ==> i in k.stamped && k.stamped[i] == l.stamped[i]
    requires i in l.counted && i in l.completed ==> i in k.completed && k.completed[i] == l.completed[i]
    requires forall id | id in l.cases && l.cases[id].finished :: id in k.cases && k.cases[id] == l.cases[id]
    ensures Persists(l, k)
  {
    forall j | j in l.begun && j in l.stamped
      ensures j in k.stamped && k.stamped[j] == l.stamped[j]
    {
      assert j != i ==> SameTrial(l, k, j);
    }
    forall j | j in l.counted && j in l.completed
      ensures j in k.completed && k.completed[j] == l.completed[j]
    {
      assert j != i ==> SameTrial(l, k, j);
    }
  }

  lemma JustificationPersists(l: LaneState, k: LaneState, trace: seq<Event>)
    requires Persists(l, k) && AllJustified(l, trace)
    ensures AllJustified(k, trace)
  {
    forall p | 0 <= p < |trace|
      ensures Justified(k, trace[..p], trace[p])
    {
      assert Justified(l, trace[..p], trace[p]);
    }
  }

  lemma JustifyOne(k: LaneState, trace: seq<Event>, e: Event)
    requires AllJustified(k, trace) && Justified(k, trace, e)
    ensures AllJustified(k, trace + [e])
  {
    var longer := trace + [e];
    forall p | 0 <= p < |longer|
      ensures Justified(k, longer[..p], longer[p])
    {
      if p < |trace| {
        assert longer[..p] == trace[..p];
      } else {
        assert longer[..p] == trace;
      }
    }
  }

  lemma CountOne(trace: seq<Event>, e: Event, id: Identity)
    ensures Starts(trace + [e], id) == Starts(trace, id) + if IsCaseStart(e, id) then 1 else 0
    ensures Finishes(trace + [e], id) == Finishes(trace, id) + if IsCaseFinish(e, id) then 1 else 0
  {
    assert (trace + [e])[..|trace|] == trace;
  }

  lemma OtherHooksTraced(l: LaneState, k: LaneState, w: nat, i: nat, suffix: seq<Event>)
    requires SameElsewhere(l, k, w, i) && WorkersTraced(l, l.trace) && w < |l.hooks|
    requires |k.hooks| == |k.pool.workers| && HookTraced(k.pool.workers[w], k.hooks[w], l.trace + suffix)
    ensures WorkersTraced(k, l.trace + suffix)
  {
    forall v | 0 <= v < |k.hooks|
      ensures HookTraced(k.pool.workers[v], k.hooks[v], l.trace + suffix)
    {
      assert v != w ==> HookTraced(l.pool.workers[v], l.hooks[v], l.trace);
    }
  }

  /** A step that emits no case event: it appends at most one trial event. */
  lemma PlainStepTraced(l: LaneState, k: LaneState, w: nat, i: nat, suffix: seq<Event>)
    requires Traced(l) && SameElsewhere(l, k, w, i) && Persists(l, k) && w < |l.hooks|
    requires k.cases == l.cases && k.counted == l.counted && k.trace == l.trace + suffix
    requires |k.hooks| == |k.pool.workers| && HookTraced(k.pool.workers[w], k.hooks[w], k.trace)
    requires suffix == [] || (|suffix| == 1 && !suffix[0].CaseEmitted? && Justified(k, l.trace, suffix[0]))
    ensures Traced(k)
  {
    OtherHooksTraced(l, k, w, i, suffix);
    JustificationPersists(l, k, l.trace);
    if suffix == [] {
      assert k.trace == l.trace;
    } else {
      assert suffix == [suffix[0]];
      JustifyOne(k, l.trace, suffix[0]);
      forall id | id in k.cases
        ensures Starts(k.trace, id) == Starts(l.trace, id) && Finishes(k.trace, id) == Finishes(l.trace, id)
      {
        CountOne(l.trace, suffix[0], id);
      }
    }
  }

  predicate Quiet(m: Move) {
    m.ClaimItem? || m.TrialStartReturned? || m.CaseFinishReturned? || m.Prepared?
  }

  lemma PlainEffect(l: LaneState, m: Move)
    requires Linked(l) && CanMove(l, m) && !TrackerCall(m)
    ensures Advance(l, m).cases == l.cases && Advance(l, m).counted == l.counted && Advance(l, m).begun == l.begun
    ensures Quiet(m) ==> Advance(l, m).trace == l.trace
    ensures m.CaseStartReturned? ==> Advance(l, m).trace == l.trace + [TrialStartSent(MovedIndex(l, m))]
    ensures m.Executed? ==> Advance(l, m).trace == l.trace + [TrialFinishSent(MovedIndex(l, m))]
    ensures m.TrialFinishReturned? ==> Advance(l, m).trace == l.trace + [TrialFinishDelivered(MovedIndex(l, m))]
  {
    MoverHolds(l, m);
    assert WorkerLinked(l, m.worker);
  }

  lemma FinishHookTraced(l: LaneState, m: Move)
    requires Linked(l) && CasesLinked(l) && CanMove(l, m) && WorkersTraced(l, l.trace) && m.FinishCalled?
    ensures |Advance(l, m).hooks| == |Advance(l, m).pool.workers|
    ensures HookTraced(Advance(l, m).pool.workers[m.worker], Advance(l, m).hooks[m.worker], Advance(l, m).trace)
  {
    MoverHolds(l, m);
    assert HookTraced(l.pool.workers[m.worker], l.hooks[m.worker], l.trace);
    FinishSucceeds(l, m);
    FinishEffect(l, m);
  }

  lemma StartCalledHookTraced(l: LaneState, m: Move)
    requires Linked(l) && CasesLinked(l) && CanMove(l, m) && WorkersTraced(l, l.trace) && m.StartCalled?
    ensures |Advance(l, m).hooks| == |Advance(l, m).pool.workers|
    ensures HookTraced(Advance(l, m).pool.workers[m.worker], Advance(l, m).hooks[m.worker], Advance(l, m).trace)
  {
    MoverHolds(l, m);
    assert HookTraced(l.pool.workers[m.worker], l.hooks[m.worker], l.trace);
    StartSucceeds(l, m);
    StartCalledEffect(l, m);
  }

  lemma OwnHookTraced(l: LaneState, m: Move)
    requires Linked(l) && CasesLinked(l) && CanMove(l, m) && WorkersTraced(l, l.trace)
    ensures |Advance(l, m).hooks| == |Advance(l, m).pool.workers|
    ensures HookTraced(Advance(l, m).pool.workers[m.worker], Advance(l, m).hooks[m.worker], Advance(l, m).trace)
  {
    if m.FinishCalled? {
      FinishHookTraced(l, m);
    } else if m.StartCalled? {
      StartCalledHookTraced(l, m);
    } else {
      PlainHookTraced(l, m);
    }
  }

  lemma PlainHookTraced(l: LaneState, m: Move)
    requires Linked(l) && CanMove(l, m) && WorkersTraced(l, l.trace) && !TrackerCall(m)
    ensures |Advance(l, m).hooks| == |Advance(l, m).pool.workers|
    ensures HookTraced(Advance(l, m).pool.workers[m.worker], Advance(l, m).hooks[m.worker], Advance(l, m).trace)
  {
    MoverHolds(l, m);
    assert WorkerLinked(l, m.worker);
    assert HookTraced(l.pool.workers[m.worker], l.hooks[m.worker], l.trace);
    PlainEffect(l, m);
  }

  lemma QuietMoveTraced(l: LaneState, m: Move)
    requires Inv(l) && CanMove(l, m) && Quiet(m)
    ensures Traced(Advance(l, m))
  {
    MovesAlone(l, m);
    MovePersists(l, m);
    OwnHookTraced(l, m);
    PlainEffect(l, m);
    PlainStepTraced(l, Advance(l, m), m.worker, MovedIndex(l, m), []);
  }

  lemma StartedCaseTraced(l: LaneState, w: nat)
    requires Inv(l) && w < |l.hooks| && l.hooks[w].CaseStarting?
    ensures
      Holds(l.pool.workers[w]) && l.pool.workers[w].index < |l.items| &&
      Starts(l.trace, l.items[l.pool.workers[w].index]) > 0
  {
    assert WorkerLinked(l, w);
    assert IndexLinked(l, l.pool.workers[w].index);
  }

  lemma TrialStartTraced(l: LaneState, m: Move)
    requires Inv(l) && CanMove(l, m) && m.CaseStartReturned?
    ensures Traced(Advance(l, m))
  {
    MovesAlone(l, m);
    MovePersists(l, m);
    OwnHookTraced(l, m);
    PlainEffect(l, m);
    StartedCaseTraced(l, m.worker);
    PlainStepTraced(l, Advance(l, m), m.worker, MovedIndex(l, m), [TrialStartSent(MovedIndex(l, m))]);
  }

  lemma ExecutedTraced(l: LaneState, m: Move)
    requires Inv(l) && CanMove(l, m) && m.Executed?
    ensures Traced(Advance(l, m))
  {
    MovesAlone(l, m);
    MovePersists(l, m);
    OwnHookTraced(l, m);
    PlainEffect(l, m);
    assert HookTraced(l.pool.workers[m.worker], l.hooks[m.worker], l.trace);
    PlainStepTraced(l, Advance(l, m), m.worker, MovedIndex(l, m), [TrialFinishSent(MovedIndex(l, m))]);
  }

  lemma DeliveredTraced(l: LaneState, m: Move)
    requires Inv(l) && CanMove(l, m) && m.TrialFinishReturned?
    ensures Traced(Advance(l, m))
  {
    MovesAlone(l, m);
    MovePersists(l, m);
    OwnHookTraced(l, m);
    PlainEffect(l, m);
    assert HookTraced(l.pool.workers[m.worker], l.hooks[m.worker], l.trace);
    PlainStepTraced(l, Advance(l, m), m.worker, MovedIndex(l, m), [TrialFinishDelivered(MovedIndex(l, m))]);
  }

  /** One more event counts at its own case only. */
  lemma TrackOne(cases: Cases, after: Cases, trace: seq<Event>, e: Event, id: Identity)
    requires Tracked(cases, trace) && after.Keys == cases.Keys && id in cases
    requires forall other | other in cases && other != id :: after[other] == cases[other]
    requires forall other | other != id :: !IsCaseStart(e, other) && !IsCaseFinish(e, other)
    requires after[id].startedAt.Some? <==> cases[id].startedAt.Some? || IsCaseStart(e, id)
    requires after[id].finished <==> cases[id].finished || IsCaseFinish(e, id)
    requires IsCaseStart(e, id) ==> cases[id].startedAt.None?
    requires IsCaseFinish(e, id) ==> !cases[id].finished
    ensures Tracked(after, trace + [e])
  {
    forall other | other in after
      ensures Starts(trace + [e], other) == (if after[other].startedAt.Some? then 1 else 0)
      ensures Finishes(trace + [e], other) == (if after[other].finished then 1 else 0)
    {
      CountOne(trace, e, other);
    }
  }

  lemma StartEmitted(l: LaneState, k: LaneState, w: nat, i: nat, at: int)
    requires Traced(l) && SameElsewhere(l, k, w, i) && Persists(l, k) && w < |l.hooks| && i < |l.items|
    requires CaseLinked(l, l.items[i]) && l.cases[l.items[i]].startedAt.None?
    requires k.cases == l.cases[l.items[i] := l.cases[l.items[i]].(startedAt := Some(at))] && k.counted == l.counted
    requires i in k.begun && i in k.stamped && k.stamped[i] == at
    requires k.trace == l.trace + [CaseEmitted(i, CaseStart(l.items[i], l.cases[l.items[i]].plannedTrials, at))]
    requires |k.hooks| == |k.pool.workers| && HookTraced(k.pool.workers[w], k.hooks[w], k.trace)
    ensures Traced(k)
  {
    var e := CaseEmitted(i, CaseStart(l.items[i], l.cases[l.items[i]].plannedTrials, at));
    OtherHooksTraced(l, k, w, i, [e]);
    JustificationPersists(l, k, l.trace);
    JustifyOne(k, l.trace, e);
    TrackOne(l.cases, k.cases, l.trace, e, l.items[i]);
  }

  lemma StartTraced(l: LaneState, k: LaneState, w: nat, i: nat, at: int)
    requires Traced(l) && SameElsewhere(l, k, w, i) && Persists(l, k) && w < |l.hooks| && i < |l.items|
    requires CaseLinked(l, l.items[i]) && !l.cases[l.items[i]].finished
    requires k.cases == TrialStart(l.cases, l.items[i], at).0 && k.counted == l.counted && i in k.begun
    requires k.trace == l.trace + Emitted(i, TrialStart(l.cases, l.items[i], at).1)
    requires i in k.stamped && k.stamped[i] == at
    requires |k.hooks| == |k.pool.workers| && HookTraced(k.pool.workers[w], k.hooks[w], k.trace)
    ensures Traced(k)
  {
    if l.cases[l.items[i]].startedAt.Some? {
      PlainStepTraced(l, k, w, i, []);
    } else {
      StartEmitted(l, k, w, i, at);
    }
  }

  lemma StartCalledTraced(l: LaneState, m: Move)
    requires Inv(l) && CanMove(l, m) && m.StartCalled?
    ensures Traced(Advance(l, m))
  {
    MovesAlone(l, m);
    MovePersists(l, m);
    StartSucceeds(l, m);
    StartCalledEffect(l, m);
    OwnHookTraced(l, m);
    assert WorkerLinked(l, m.worker) && CaseLinked(l, l.items[l.pool.workers[m.worker].index]);
    StartTraced(l, Advance(l, m), m.worker, l.pool.workers[m.worker].index, l.hooks[m.worker].started);
  }

  /** When a case is complete, all its trials have been delivered. */
  lemma CompleteCaseDelivered(l: LaneState, id: Identity, trace: seq<Event>)
    requires CaseLinked(l, id) && l.cases[id].finished && AllDelivered(l.counted, trace)
    ensures AllDelivered(TrialsOf(l.items, id), trace)
  {
    SubsetSize(Tallied(l, id), TrialsOf(l.items, id));
  }

  /** The delivered trace, once the delivered trial `i` has been counted. */
  lemma CountingTraced(l: LaneState, k: LaneState, i: nat)
    requires Traced(l) && Persists(l, k) && TrialFinishDelivered(i) in l.trace && k.counted == l.counted + {i}
    ensures AllDelivered(k.counted, l.trace) && AllJustified(k, l.trace) && Tracked(l.cases, l.trace)
  {
    JustificationPersists(l, k, l.trace);
  }

  /** What a counted trial leaves: the case advanced by one, and its report if it is complete. */
  ghost predicate CountedAt(l: LaneState, k: LaneState, i: nat, c: CaseState, at: int) {
    && i < |l.items| && k.items == l.items && l.items[i] in l.cases && !l.cases[l.items[i]].finished
    && l.cases[l.items[i]].startedAt.Some? && c.startedAt == l.cases[l.items[i]].startedAt && c.startedAt.value <= at
    && k.cases == l.cases[l.items[i] := c]
    && k.counted == l.counted + {i} && i in k.completed && k.completed[i] == at
  }

  lemma FinishEmitted(l: LaneState, k: LaneState, i: nat, c: CaseState, at: int, delivered: seq<Event>)
    requires CountedAt(l, k, i, c, at) && c.finished && CaseLinked(k, l.items[i])
    requires AllDelivered(k.counted, delivered) && AllJustified(k, delivered) && Tracked(l.cases, delivered)
    ensures AllDelivered(k.counted, delivered + FinishEvents(i, l.items[i], c, at))
    ensures AllJustified(k, delivered + FinishEvents(i, l.items[i], c, at))
    ensures Tracked(k.cases, delivered + FinishEvents(i, l.items[i], c, at))
  {
    var e := CaseEmitted(i, FinishReport(l.items[i], c, at));
    CompleteCaseDelivered(k, l.items[i], delivered);
    JustifyOne(k, delivered, e);
    TrackOne(l.cases, k.cases, delivered, e, l.items[i]);
  }

  lemma CountedTracked(l: LaneState, k: LaneState, i: nat, c: CaseState, at: int, delivered: seq<Event>)
    requires CountedAt(l, k, i, c, at) && !c.finished && Tracked(l.cases, delivered)
    ensures Tracked(k.cases, delivered)
  {
  }

  lemma FinishTraced(l: LaneState, k: LaneState, i: nat, c: CaseState, at: int, delivered: seq<Event>)
    requires CountedAt(l, k, i, c, at) && CaseLinked(k, l.items[i])
    requires AllDelivered(k.counted, delivered) && AllJustified(k, delivered) && Tracked(l.cases, delivered)
    requires WorkersTraced(k, k.trace) && k.trace == delivered + FinishEvents(i, l.items[i], c, at)
    ensures Traced(k)
  {
    if c.finished {
      FinishEmitted(l, k, i, c, at, delivered);
    } else {
      assert k.trace == delivered;
      CountedTracked(l, k, i, c, at, delivered);
    }
  }

  lemma FinishWorkersTraced(l: LaneState, k: LaneState, w: nat, i: nat, trace: seq<Event>)
    requires SameElsewhere(l, k, w, i) && WorkersTraced(l, l.trace) && w < |l.hooks|
    requires l.trace <= trace
    requires |k.hooks| == |k.pool.workers| && HookTraced(k.pool.workers[w], k.hooks[w], trace)
    ensures WorkersTraced(k, trace)
  {
    OtherHooksTraced(l, k, w, i, trace[|l.trace|..]);
    assert trace == l.trace + trace[|l.trace|..];
  }

  lemma FinishCalledTraced(l: LaneState, m: Move)
    requires Inv(l) && CanMove(l, m) && m.FinishCalled?
    ensures Traced(Advance(l, m))
  {
    FinishSucceeds(l, m);
    FinishEffect(l, m);
    FinishKeepsCases(l, m);
    MovesAlone(l, m);
    MovePersists(l, m);
    OwnHookTraced(l, m);
    FinishCalledFrom(l, Advance(l, m), m.worker, l.pool.workers[m.worker].index, l.hooks[m.worker].completed);
  }

  lemma FinishCalledFrom(l: LaneState, k: LaneState, w: nat, i: nat, at: int)
    requires Traced(l) && SameElsewhere(l, k, w, i) && Persists(l, k) && w < |l.hooks| && CasesLinked(k)
    requires Holds(l.pool.workers[w]) && l.pool.workers[w].index == i && l.hooks[w].FinishCalling?
    requires i < |l.items| && l.items[i] in l.cases && i < |l.pool.settlements| && l.pool.settlements[i].Some?
    requires CountedAt(l, k, i, Counted(l.cases[l.items[i]], l.pool.settlements[i].value), at)
    requires |k.hooks| == |k.pool.workers| && HookTraced(k.pool.workers[w], k.hooks[w], k.trace)
    requires k.trace == l.trace +
                        FinishEvents(i, l.items[i], Counted(l.cases[l.items[i]], l.pool.settlements[i].value), at)
    ensures Traced(k)
  {
    assert HookTraced(l.pool.workers[w], l.hooks[w], l.trace);
    CountingTraced(l, k, i);
    FinishWorkersTraced(l, k, w, i, k.trace);
    assert CaseLinked(k, l.items[i]);
    FinishTraced(l, k, i, Counted(l.cases[l.items[i]], l.pool.settlements[i].value), at, l.trace);
  }

  lemma StepKeepsInv(l: LaneState, m: Move)
    requires Inv(l) && CanMove(l, m)
    ensures Inv(Advance(l, m))
  {
    StepKeepsLinked(l, m);
    StepKeepsCases(l, m);
    if m.FinishCalled? {
      FinishCalledTraced(l, m);
    } else if m.StartCalled? {
      StartCalledTraced(l, m);
    } else if m.CaseStartReturned? {
      TrialStartTraced(l, m);
    } else if m.Executed? {
      ExecutedTraced(l, m);
    } else if m.TrialFinishReturned? {
      DeliveredTraced(l, m);
    } else {
      QuietMoveTraced(l, m);
    }
  }
}
