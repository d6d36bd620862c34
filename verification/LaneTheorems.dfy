/** What holds in every interleaving of a lane. */
module LaneTheorems {
  import opened Collections
  import opened Scheduler
  import opened CaseProgress
  import opened Lane

  lemma StartInv(items: seq<Identity>, concurrency: nat, now: int)
    requires concurrency > 0
    ensures Lane.Inv(Start(items, concurrency, now))
  {
    var l := Start(items, concurrency, now);
    StartLinked(items, concurrency, now);
    forall id | id in l.cases
      ensures CaseLinked(l, id)
    {
      FreshCaseLinked(l, id);
    }
  }

  lemma StartLinked(items: seq<Identity>, concurrency: nat, now: int)
    requires concurrency > 0
    ensures Linked(Start(items, concurrency, now))
  {
  }

  lemma FreshCaseLinked(l: LaneState, id: Identity)
    requires id in SetOf(l.items) && id in l.cases && l.cases[id] == FreshCase(|TrialsOf(l.items, id)|)
    requires l.counted == {} && l.begun == {}
    ensures CaseLinked(l, id)
  {
    var i :| 0 <= i < |l.items| && l.items[i] == id;
    assert i in TrialsOf(l.items, id);
    assert Tallied(l, id) == {};
    assert forall g :: Graded(l, id, g) == {};
    NothingScored(l.pool.settlements, |l.items|);
    assert WithScore({}, l.pool.settlements) == {};
  }

  lemma {:induction false} NothingScored(settlements: seq<Option<Settlement>>, n: nat)
    ensures ScoreTotal({}, settlements, n) == 0.0
  {
    if n > 0 {
      NothingScored(settlements, n - 1);
    }
  }

  lemma {:induction false} RunKeepsInv(l: LaneState, moves: seq<Move>, k: LaneState)
    requires Lane.Inv(l) && Lane.Run(l, moves, k)
    ensures Lane.Inv(k) && k.items == l.items
    decreases |moves|
  {
    if moves != [] {
      Lane.StepKeepsInv(l, moves[0]);
      HistoryStays(l, moves[0]);
      RunKeepsInv(Advance(l, moves[0]), moves[1..], k);
    }
  }

  lemma Reachable(items: seq<Identity>, concurrency: nat, now: int, moves: seq<Move>, l: LaneState)
    requires concurrency > 0 && Lane.Run(Start(items, concurrency, now), moves, l)
    ensures Lane.Inv(l) && l.items == items
  {
    StartInv(items, concurrency, now);
    RunKeepsInv(Start(items, concurrency, now), moves, l);
  }

  /** Forgetting the hooks turns a lane run into a run of the bare pool, so the pool's theorems carry over. */
  lemma {:induction false} LaneRefinesPool(l: LaneState, moves: seq<Move>, k: LaneState) returns (actions: seq<Action>)
    requires Lane.Run(l, moves, k)
    ensures Scheduler.Run(l.pool, actions, k.pool)
    decreases |moves|
  {
    if moves == [] {
      actions := [];
    } else {
      AdvancePool(l, moves[0]);
      actions := LaneRefinesPool(Advance(l, moves[0]), moves[1..], k);
      if PoolAction(moves[0]).Some? {
        actions := [PoolAction(moves[0]).value] + actions;
      }
    }
  }

  /** No tracker invariant fires, and a case is started and finished at most once. */
  lemma NoTrackerFault(items: seq<Identity>, concurrency: nat, now: int, moves: seq<Move>, l: LaneState)
    requires concurrency > 0 && Lane.Run(Start(items, concurrency, now), moves, l)
    ensures l.fault.None?
    ensures forall id | id in SetOf(items) :: Starts(l.trace, id) <= 1 && Finishes(l.trace, id) <= Starts(l.trace, id)
  {
    Reachable(items, concurrency, now, moves, l);
    forall id | id in SetOf(items)
      ensures Starts(l.trace, id) <= 1 && Finishes(l.trace, id) <= Starts(l.trace, id)
    {
      AtMostOnce(l, id);
    }
  }

  lemma AtMostOnce(l: LaneState, id: Identity)
    requires Lane.Inv(l) && id in l.cases
    ensures Starts(l.trace, id) <= 1 && Finishes(l.trace, id) <= Starts(l.trace, id)
  {
    if l.cases[id].finished {
      FinishedCaseStarted(l, id);
    }
  }

  lemma FinishedCaseStarted(l: LaneState, id: Identity)
    requires Linked(l) && CasesLinked(l) && id in l.cases && l.cases[id].finished
    ensures l.cases[id].startedAt.Some?
  {
    assert CaseLinked(l, id);
    assert Tallied(l, id) != {};
    var i :| i in Tallied(l, id);
    assert IndexLinked(l, i);
  }

  /** A `caseFinish` is dispatched only after the `caseStart` and after every `trialFinish` of its case has
      completed; its totals and its mean score are those of the settlements, and its time, which the tracker read from
      the shared variable, is the emitting trial's own reading. */
  lemma CaseFinishIsLast(items: seq<Identity>, concurrency: nat, now: int, moves: seq<Move>, l: LaneState, p: nat)
    requires concurrency > 0 && Lane.Run(Start(items, concurrency, now), moves, l)
    requires p < |l.trace| && l.trace[p].CaseEmitted? && l.trace[p].event.CaseFinish?
    ensures
      var e, trial := l.trace[p].event, l.trace[p].trial;
      && trial < |items| && items[trial] == e.identity
      && (forall i | i in TrialsOf(items, e.identity) :: TrialFinishDelivered(i) in l.trace[..p])
      && e.passed == |Graded(l, e.identity, Passed)|
      && e.failed == |Graded(l, e.identity, Failed)|
      && e.errored == |Graded(l, e.identity, Errored)|
      && e.passed + e.failed + e.errored == |TrialsOf(items, e.identity)|
      && e.meanScore == MeanOf(items, l.pool.settlements, e.identity)
      && trial in l.completed && e.completedAt == l.completed[trial]
      && e.durationMs == e.completedAt - e.startedAt >= 0
  {
    Reachable(items, concurrency, now, moves, l);
    assert Justified(l, l.trace[..p], l.trace[p]);
    assert CaseLinked(l, l.trace[p].event.identity);
    WholeCaseTallied(l, l.trace[p].event.identity);
  }

  lemma WholeCaseTallied(l: LaneState, id: Identity)
    requires CaseLinked(l, id) && l.cases[id].finished
    ensures Tallied(l, id) == TrialsOf(l.items, id)
    ensures MeanScore(l.cases[id]) == MeanOf(l.items, l.pool.settlements, id)
  {
    SubsetSize(Tallied(l, id), TrialsOf(l.items, id));
    SubsetSize({}, WithScore(Tallied(l, id), l.pool.settlements));
  }

  /** `caseStart` carries the emitting trial's own start reading; every `trialStart` follows its case's start and
      every `trialFinish` its own start. */
  lemma EventOrder(items: seq<Identity>, concurrency: nat, now: int, moves: seq<Move>, l: LaneState, p: nat)
    requires concurrency > 0 && Lane.Run(Start(items, concurrency, now), moves, l) && p < |l.trace|
    ensures
      match l.trace[p]
      case CaseEmitted(trial, CaseStart(id, planned, at)) =>
        trial < |items| && items[trial] == id && planned == |TrialsOf(items, id)| &&
        trial in l.stamped && at == l.stamped[trial]
      case CaseEmitted(_, _) => true
      case TrialStartSent(i) => i < |items| && Starts(l.trace[..p], items[i]) > 0
      case TrialFinishSent(i) => TrialStartSent(i) in l.trace[..p]
      case TrialFinishDelivered(i) => TrialFinishSent(i) in l.trace[..p]
  {
    Reachable(items, concurrency, now, moves, l);
    assert Justified(l, l.trace[..p], l.trace[p]);
  }

  /** When no worker rejected and all have stopped, each planned case was reported exactly once, in full. */
  lemma EveryCaseReportedOnce(items: seq<Identity>, concurrency: nat, now: int, moves: seq<Move>, l: LaneState)
    requires concurrency > 0 && Lane.Run(Start(items, concurrency, now), moves, l)
    requires Terminal(l.pool) && l.pool.rejection.None?
    ensures forall id | id in SetOf(items) :: Starts(l.trace, id) == 1 && Finishes(l.trace, id) == 1
    ensures |l.pool.settlements| == |l.pool.items| == |items|
    ensures forall i | 0 <= i < |items| ::
              TrialFinishDelivered(i) in l.trace &&
              l.pool.settlements[i].Some? && l.pool.settlements[i] == l.pool.items[i].executed
  {
    Reachable(items, concurrency, now, moves, l);
    EndedTrialsCounted(l);
    EndedCasesReported(l);
  }

  lemma EndedTrialsCounted(l: LaneState)
    requires Linked(l) && Terminal(l.pool) && l.pool.rejection.None?
    ensures forall i | 0 <= i < |l.items| ::
              i in l.counted && l.pool.settlements[i].Some? && l.pool.settlements[i] == l.pool.items[i].executed
  {
    forall i | 0 <= i < |l.items|
      ensures i in l.counted && l.pool.settlements[i].Some? && l.pool.settlements[i] == l.pool.items[i].executed
    {
      EndedTrialCounted(l, i);
    }
  }

  lemma EndedCasesReported(l: LaneState)
    requires Lane.Inv(l) && forall i | 0 <= i < |l.items| :: i in l.counted
    ensures forall id | id in SetOf(l.items) :: Starts(l.trace, id) == 1 && Finishes(l.trace, id) == 1
  {
    forall id | id in SetOf(l.items)
      ensures Starts(l.trace, id) == 1 && Finishes(l.trace, id) == 1
    {
      assert CaseLinked(l, id);
      assert Tallied(l, id) == TrialsOf(l.items, id);
      FinishedCaseStarted(l, id);
    }
  }

  lemma EndedTrialCounted(l: LaneState, i: nat)
    requires Linked(l) && Terminal(l.pool) && l.pool.rejection.None? && i < |l.items|
    ensures i in l.counted && l.pool.settlements[i].Some? && l.pool.settlements[i] == l.pool.items[i].executed
  {
    assert Scheduler.WorkerOk(l.pool, 0) && Scheduler.IndexOk(l.pool, i) && IndexLinked(l, i);
  }

  /** Whenever the tracker is called, the shared timestamp holds the calling trial's own reading, whatever other trials
      wrote into it or cleared from it before. */
  lemma TrackerReadsOwnTime(items: seq<Identity>, concurrency: nat, now: int, moves: seq<Move>, l: LaneState, m: Move)
    requires concurrency > 0 && Lane.Run(Start(items, concurrency, now), moves, l)
    requires CanMove(l, m) && TrackerCall(m)
    ensures Holds(l.pool.workers[m.worker])
    ensures
      var i := l.pool.workers[m.worker].index;
      if m.StartCalled? then i in l.stamped && TrackerNow(l.trackerTimestamp, m.now) == l.stamped[i]
      else i in l.completed && TrackerNow(l.trackerTimestamp, m.now) == l.completed[i]
  {
    Reachable(items, concurrency, now, moves, l);
    CallReadsOwn(l, m);
  }

  lemma CallReadsOwn(l: LaneState, m: Move)
    requires Linked(l) && CanMove(l, m) && TrackerCall(m)
    ensures Holds(l.pool.workers[m.worker])
    ensures
      var i := l.pool.workers[m.worker].index;
      if m.StartCalled? then i in l.stamped && TrackerNow(l.trackerTimestamp, m.now) == l.stamped[i]
      else i in l.completed && TrackerNow(l.trackerTimestamp, m.now) == l.completed[i]
  {
    ReadsOwn(l, m);
    assert WorkerLinked(l, m.worker);
  }

  /** A lane never deadlocks: while a worker is unfinished, some segment can go on. */
  lemma LaneProgress(items: seq<Identity>, concurrency: nat, now: int, moves: seq<Move>, l: LaneState)
    requires concurrency > 0 && Lane.Run(Start(items, concurrency, now), moves, l) && !Terminal(l.pool)
    ensures exists m :: CanMove(l, m)
  {
    Reachable(items, concurrency, now, moves, l);
    var w: nat;
    if l.running.Some? {
      w := l.running.value;
    } else {
      w :| 0 <= w < |l.pool.workers| && !l.pool.workers[w].Done? && !l.pool.workers[w].Crashed?;
    }
    var m := MoveOf(l, w);
    assert CanMove(l, m);
  }

  lemma MoveOf(l: LaneState, w: nat) returns (m: Move)
    requires Lane.Inv(l) && w < |l.hooks|
    requires if l.running.Some? then l.running == Some(w) else !l.pool.workers[w].Done? && !l.pool.workers[w].Crashed?
    ensures CanMove(l, m)
  {
    if l.hooks[w].NoHook? {
      m := MoveOutside(l, w);
    } else {
      m := MoveInHook(l, w);
    }
  }

  lemma MoveOutside(l: LaneState, w: nat) returns (m: Move)
    requires Lane.Inv(l) && w < |l.hooks| && l.hooks[w].NoHook? && l.running.None?
    requires !l.pool.workers[w].Done? && !l.pool.workers[w].Crashed?
    ensures CanMove(l, m)
  {
    assert WorkerLinked(l, w);
    m := if l.pool.workers[w].Idle? then ClaimItem(w, l.clock) else Executed(w, l.clock, Rejected(0));
  }

  lemma MoveInHook(l: LaneState, w: nat) returns (m: Move)
    requires Lane.Inv(l) && w < |l.hooks| && !l.hooks[w].NoHook? && (l.running.Some? ==> l.running == Some(w))
    ensures CanMove(l, m)
  {
    if InStartHook(l.hooks[w]) {
      m := MoveInStartHook(l, w);
    } else {
      m := MoveInFinishHook(l, w);
    }
  }

  ghost predicate InStartHook(h: Hook) {
    h.Preparing? || h.StartCalling? || h.CaseStarting? || h.TrialStarting?
  }

  lemma MoveInStartHook(l: LaneState, w: nat) returns (m: Move)
    requires Linked(l) && w < |l.hooks| && InStartHook(l.hooks[w]) && (l.running.Some? ==> l.running == Some(w))
    ensures CanMove(l, m)
  {
    assert WorkerLinked(l, w);
    assert Scheduler.WorkerOk(l.pool, w);
    m :=
      match l.hooks[w]
      case Preparing(_) => Prepared(w, l.clock, None)
      case StartCalling(_) => StartCalled(w, l.clock)
      case CaseStarting => CaseStartReturned(w, l.clock)
      case _ => TrialStartReturned(w, l.clock);
  }

  lemma MoveInFinishHook(l: LaneState, w: nat) returns (m: Move)
    requires Linked(l) && w < |l.hooks| && !l.hooks[w].NoHook? && !InStartHook(l.hooks[w])
    requires l.running.Some? ==> l.running == Some(w)
    ensures CanMove(l, m)
  {
    assert WorkerLinked(l, w);
    assert Scheduler.WorkerOk(l.pool, w) && Scheduler.IndexOk(l.pool, l.pool.workers[w].index);
    m :=
      match l.hooks[w]
      case TrialFinishing(_) => TrialFinishReturned(w, l.clock)
      case FinishCalling(_) => FinishCalled(w, l.clock)
      case _ => CaseFinishReturned(w, l.clock);
  }

  // ---------- Termination ----------

  /** The moves a worker has left on its item, and one for the claim that finds none. */
  function Left(worker: Worker, h: Hook): nat {
    match h
    case Preparing(_) => 9
    case StartCalling(_) => 8
    case CaseStarting => 7
    case TrialStarting => 6
    case TrialFinishing(_) => 4
    case FinishCalling(_) => 3
    case CaseFinishing => 2
    case NoHook => if worker.Executing? then 5 else if worker.Idle? then 1 else 0
  }

  function LeftOver(workers: seq<Worker>, hooks: seq<Hook>): nat
    requires |workers| == |hooks|
  {
    if workers == [] then 0 else Left(workers[0], hooks[0]) + LeftOver(workers[1..], hooks[1..])
  }

  lemma {:induction false} LeftUpdate(workers: seq<Worker>, hooks: seq<Hook>, k: nat, w: Worker, h: Hook)
    requires |workers| == |hooks| && k < |workers|
    ensures LeftOver(workers[k := w], hooks[k := h]) ==
            LeftOver(workers, hooks) - Left(workers[k], hooks[k]) + Left(w, h)
  {
    if k > 0 {
      LeftUpdate(workers[1..], hooks[1..], k - 1, w, h);
      assert workers[k := w][1..] == workers[1..][k - 1 := w] && hooks[k := h][1..] == hooks[1..][k - 1 := h];
    } else {
      assert workers[0 := w][1..] == workers[1..] && hooks[0 := h][1..] == hooks[1..];
    }
  }

  lemma {:induction false} LeftAtStart(workers: seq<Worker>, hooks: seq<Hook>)
    requires |workers| == |hooks| && forall w | 0 <= w < |workers| :: workers[w].Idle? && hooks[w].NoHook?
    ensures LeftOver(workers, hooks) == |workers|
  {
    if workers != [] {
      LeftAtStart(workers[1..], hooks[1..]);
    }
  }

  ghost function LaneMeasure(l: LaneState): int
    requires |l.pool.workers| == |l.hooks|
  {
    9 * (|l.items| - l.pool.nextIndex) + LeftOver(l.pool.workers, l.hooks)
  }

  /** The moving worker gets one step closer to its end; a claim trades one item for its nine moves. */
  ghost predicate Spends(l: LaneState, k: LaneState, w: nat) {
    && w < |k.pool.workers| == |k.hooks| == |l.hooks| == |l.pool.workers|
    && k.items == l.items
    && Left(k.pool.workers[w], k.hooks[w]) <
       Left(l.pool.workers[w], l.hooks[w]) + 9 * (k.pool.nextIndex - l.pool.nextIndex)
  }

  lemma ClaimSpends(l: LaneState, m: Move)
    requires Linked(l) && CanMove(l, m) && m.ClaimItem?
    ensures Spends(l, Advance(l, m), m.worker)
  {
  }

  lemma StartCallSpends(l: LaneState, m: Move)
    requires Linked(l) && CasesLinked(l) && CanMove(l, m) && m.StartCalled?
    ensures Spends(l, Advance(l, m), m.worker)
  {
    HooksMoveAlone(l, m);
    StartCalledEffect(l, m);
    HookGoesOn(l, Advance(l, m), m.worker, CaseStarting);
  }

  lemma FinishCallSpends(l: LaneState, m: Move)
    requires Linked(l) && CasesLinked(l) && CanMove(l, m) && m.FinishCalled?
    ensures Spends(l, Advance(l, m), m.worker)
  {
    HooksMoveAlone(l, m);
    FinishEffect(l, m);
    HookGoesOn(l, Advance(l, m), m.worker, CaseFinishing);
  }

  lemma HookGoesOn(l: LaneState, k: LaneState, w: nat, h: Hook)
    requires w < |l.hooks| == |l.pool.workers| && k.items == l.items && k.pool == l.pool && k.hooks == l.hooks[w := h]
    requires (l.hooks[w].StartCalling? && h == CaseStarting) || (l.hooks[w].FinishCalling? && h == CaseFinishing)
    ensures Spends(l, k, w)
  {
  }

  lemma HookSpends(l: LaneState, m: Move)
    requires Linked(l) && CanMove(l, m) && (m.CaseStartReturned? || m.TrialFinishReturned? || m.Executed?)
    ensures Spends(l, Advance(l, m), m.worker)
  {
    assert WorkerLinked(l, m.worker);
  }

  lemma ReturnSpends(l: LaneState, m: Move)
    requires Linked(l) && CanMove(l, m) && (m.Prepared? || m.TrialStartReturned? || m.CaseFinishReturned?)
    ensures Spends(l, Advance(l, m), m.worker)
  {
    assert WorkerLinked(l, m.worker);
  }

  lemma MoveSpends(l: LaneState, m: Move)
    requires Lane.Inv(l) && CanMove(l, m)
    ensures Spends(l, Advance(l, m), m.worker)
  {
    if m.ClaimItem? {
      ClaimSpends(l, m);
    } else if m.StartCalled? {
      StartCallSpends(l, m);
    } else if m.FinishCalled? {
      FinishCallSpends(l, m);
    } else if m.CaseStartReturned? || m.TrialFinishReturned? || m.Executed? {
      HookSpends(l, m);
    } else {
      ReturnSpends(l, m);
    }
  }

  lemma MoveDecreases(l: LaneState, m: Move)
    requires Lane.Inv(l) && CanMove(l, m)
    ensures |Advance(l, m).pool.workers| == |Advance(l, m).hooks|
    ensures LaneMeasure(Advance(l, m)) < LaneMeasure(l)
  {
    MoveSpends(l, m);
    MovesAlone(l, m);
    MeasureDrops(l, Advance(l, m), m.worker, MovedIndex(l, m));
  }

  lemma MeasureDrops(l: LaneState, k: LaneState, w: nat, i: nat)
    requires SameElsewhere(l, k, w, i) && Spends(l, k, w)
    ensures LaneMeasure(k) < LaneMeasure(l)
  {
    assert k.pool.workers == l.pool.workers[w := k.pool.workers[w]];
    assert k.hooks == l.hooks[w := k.hooks[w]];
    LeftUpdate(l.pool.workers, l.hooks, w, k.pool.workers[w], k.hooks[w]);
  }

  lemma {:induction false} MovesSpendMeasure(l: LaneState, moves: seq<Move>, k: LaneState)
    requires Lane.Inv(l) && Lane.Run(l, moves, k)
    ensures Lane.Inv(k) && |moves| + LaneMeasure(k) <= LaneMeasure(l)
    decreases |moves|
  {
    if moves != [] {
      Lane.StepKeepsInv(l, moves[0]);
      MoveDecreases(l, moves[0]);
      MovesSpendMeasure(Advance(l, moves[0]), moves[1..], k);
    }
  }

  /** Every lane run ends: it has at most nine moves an item and one more a worker. */
  lemma EveryLaneRunIsBounded(items: seq<Identity>, concurrency: nat, now: int, moves: seq<Move>, l: LaneState)
    requires concurrency > 0 && Lane.Run(Start(items, concurrency, now), moves, l)
    ensures |moves| <= 9 * |items| + Min(concurrency, |items|)
  {
    var start := Start(items, concurrency, now);
    StartInv(items, concurrency, now);
    LeftAtStart(start.pool.workers, start.hooks);
    MovesSpendMeasure(start, moves, l);
  }
}
