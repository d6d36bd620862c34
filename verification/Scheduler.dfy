/**
 The bounded worker pool as a transition system. Workers share `nextIndex` and the `settlements` array; every
 `await` is a step boundary, every action below is one uninterrupted segment. Splitting a segment in two, as after
 a finished item, only adds interleavings. Hooks, log lines and the executor may fail in any way.
 */
module Scheduler {
  import opened Collections

  /** What the pool's users look at in an executor's value. */
  datatype TrialResult = TrialResult(ok: bool, score: Option<real>)

  datatype Settlement = Fulfilled(value: TrialResult) | Rejected(reason: int)

  datatype Worker =
    | Idle
    | Starting(index: nat)                      // awaiting onItemStart
    | Executing(index: nat)                     // awaiting the executor
    | FinishingOk(index: nat, value: TrialResult) // awaiting onItemFinish inside the try block
    | FinishingErr(index: nat, reason: int)     // awaiting onItemFinish inside the catch block
    | Done
    | Crashed(index: nat)                       // the worker's promise rejected

  /** What happened to one index so far. `lateFailure`: what the finish hook or the success log line threw after
      the executor had fulfilled. `done`: the worker went on to its next item. */
  datatype History = History(claims: nat, claimedBy: nat, executions: nat, executed: Option<Settlement>,
                             finishCalls: nat, lateFailure: Option<int>, done: bool)

  const UNTOUCHED := History(0, 0, 0, None, 0, None, false)

  datatype State = State(nextIndex: nat, workers: seq<Worker>, settlements: seq<Option<Settlement>>,
                         items: seq<History>, rejection: Option<int>)

  function Min(a: nat, b: nat): nat { if a <= b then a else b }

  function Init(n: nat, concurrency: nat): State
    requires concurrency > 0
  {
    State(0, seq(Min(concurrency, n), _ => Idle), seq(n, _ => None), seq(n, _ => UNTOUCHED), None)
  }

  datatype Action =
    | Claim(worker: nat, logFailure: Option<int>)
    | StartSettled(worker: nat, failure: Option<int>)
    | ExecutorSettled(worker: nat, result: Settlement)
    | FinishSettled(worker: nat, failure: Option<int>)

  ghost predicate Shape(s: State) {
    && |s.items| == |s.settlements|
    && s.nextIndex <= |s.items|
    && forall w | 0 <= w < |s.workers| && Holds(s.workers[w]) :: s.workers[w].index < s.nextIndex
  }

  /** The worker has claimed an index it has not finished. */
  predicate Holds(w: Worker) {
    !w.Idle? && !w.Done?
  }

  ghost predicate Enabled(s: State, a: Action) {
    && Shape(s)
    && a.worker < |s.workers|
    && var w := s.workers[a.worker];
       match a
       case Claim(_, _) => w.Idle?
       case StartSettled(_, _) => w.Starting?
       case ExecutorSettled(_, _) => w.Executing?
       case FinishSettled(_, _) => w.FinishingOk? || w.FinishingErr?
  }

  ghost function Crash(s: State, w: nat, index: nat, reason: int): State
    requires w < |s.workers|
  {
    s.(workers := s.workers[w := Crashed(index)], rejection := if s.rejection.None? then Some(reason) else s.rejection)
  }

  ghost function Next(s: State, a: Action): State
    requires Enabled(s, a)
  {
    var w := a.worker;
    match a
    case Claim(_, logFailure) =>
      if s.nextIndex >= |s.items| then
        s.(workers := s.workers[w := Done])
      else
        var i := s.nextIndex;
        var claimed := s.(nextIndex := i + 1,
                          items := s.items[i := s.items[i].(claims := s.items[i].claims + 1, claimedBy := w)]);
        if logFailure.Some? then Crash(claimed, w, i, logFailure.value)
        else claimed.(workers := s.workers[w := Starting(i)])
    case StartSettled(_, failure) =>
      var i := s.workers[w].index;
      if failure.Some? then Crash(s, w, i, failure.value)
      else s.(workers := s.workers[w := Executing(i)],
              items := s.items[i := s.items[i].(executions := s.items[i].executions + 1)])
    case ExecutorSettled(_, result) =>
      var i := s.workers[w].index;
      s.(workers := s.workers[w := match result
                                   case Fulfilled(value) => FinishingOk(i, value)
                                   case Rejected(reason) => FinishingErr(i, reason)],
         settlements := s.settlements[i := Some(result)],
         items := s.items[i := s.items[i].(executed := Some(result), finishCalls := s.items[i].finishCalls + 1)])
    case FinishSettled(_, failure) =>
      var i := s.workers[w].index;
      if failure.None? then
        s.(workers := s.workers[w := Idle], items := s.items[i := s.items[i].(done := true)])
      else if s.workers[w].FinishingErr? then
        Crash(s, w, i, failure.value)
      else
        s.(workers := s.workers[w := FinishingErr(i, failure.value)],
           settlements := s.settlements[i := Some(Rejected(failure.value))],
           items := s.items[i := s.items[i].(finishCalls := s.items[i].finishCalls + 1, lateFailure := failure)])
  }

  /** `actions` is an interleaving that leads from `s` to `t`. */
  ghost predicate Run(s: State, actions: seq<Action>, t: State)
    decreases |actions|
  {
    if actions == [] then s == t
    else Enabled(s, actions[0]) && Run(Next(s, actions[0]), actions[1..], t)
  }

  // ---------- The invariant ----------

  /** An index whose executor has settled: both sides of "fulfilled" and the number of finish-hook calls. */
  ghost predicate Settled(h: History, slot: Option<Settlement>) {
    && h.executions == 1
    && h.executed.Some?
    && slot.Some?
    && (h.lateFailure.Some? ==> h.executed.value.Fulfilled? && slot == Some(Rejected(h.lateFailure.value)))
    && (h.lateFailure.None? ==> slot == h.executed)
    && h.finishCalls == (if h.lateFailure.Some? then 2 else 1)
  }

  ghost predicate Unsettled(h: History, slot: Option<Settlement>, executions: nat) {
    && h.executions == executions
    && h.executed.None?
    && h.finishCalls == 0
    && h.lateFailure.None?
    && slot.None?
  }

  ghost predicate IndexOk(s: State, i: nat)
    requires Shape(s) && i < |s.items|
  {
    var h, slot := s.items[i], s.settlements[i];
    if i >= s.nextIndex then h == UNTOUCHED && slot.None?
    else
      && h.claims == 1
      && h.claimedBy < |s.workers|
      && if h.done then Settled(h, slot)
         else
           var w := s.workers[h.claimedBy];
           && Holds(w) && w.index == i
           && match w
              case Starting(_) => Unsettled(h, slot, 0)
              case Executing(_) => Unsettled(h, slot, 1)
              case FinishingOk(_, value) => Settled(h, slot) && h.lateFailure.None? && slot == Some(Fulfilled(value))
              case FinishingErr(_, reason) => Settled(h, slot) && slot == Some(Rejected(reason))
              case _ => s.rejection.Some? && (Unsettled(h, slot, 0) || Settled(h, slot))
  }

  ghost predicate WorkerOk(s: State, w: nat)
    requires Shape(s) && w < |s.workers|
  {
    && (Holds(s.workers[w]) ==> var h := s.items[s.workers[w].index]; h.claimedBy == w && !h.done)
    && (s.workers[w].Done? ==> s.nextIndex == |s.items|)
    && (s.workers[w].Crashed? ==> s.rejection.Some?)
  }

  ghost predicate Inv(s: State) {
    && Shape(s)
    && |s.workers| <= |s.items|
    && (|s.items| > 0 ==> |s.workers| > 0)
    && (forall i | 0 <= i < |s.items| :: IndexOk(s, i))
    && (forall w | 0 <= w < |s.workers| :: WorkerOk(s, w))
    && (s.rejection.Some? ==> exists w | 0 <= w < |s.workers| :: s.workers[w].Crashed?)
  }

  lemma StepKeepsShape(s: State, a: Action)
    requires Inv(s) && Enabled(s, a)
    ensures Shape(Next(s, a))
  {
    assert WorkerOk(s, a.worker);
  }

  /** The index a step works on; a claim on an exhausted list works on none. */
  ghost function ActsOn(s: State, a: Action): nat
    requires Enabled(s, a)
  {
    if a.Claim? then s.nextIndex else s.workers[a.worker].index
  }

  lemma StepKeepsOther(s: State, a: Action, i: nat)
    requires Inv(s) && Enabled(s, a) && Shape(Next(s, a)) && i < |s.items| && i != ActsOn(s, a)
    ensures IndexOk(Next(s, a), i)
  {
    assert IndexOk(s, i);
    var t := Next(s, a);
    assert t.items[i] == s.items[i] && t.settlements[i] == s.settlements[i];
    if i < s.nextIndex && !s.items[i].done {
      assert s.items[i].claimedBy != a.worker;
      assert t.workers[s.items[i].claimedBy] == s.workers[s.items[i].claimedBy];
    }
  }

  lemma ClaimKeepsOwn(s: State, a: Action)
    requires Inv(s) && Enabled(s, a) && Shape(Next(s, a)) && a.Claim? && s.nextIndex < |s.items|
    ensures IndexOk(Next(s, a), s.nextIndex)
  {
    assert IndexOk(s, s.nextIndex);
  }

  lemma HookKeepsOwn(s: State, a: Action)
    requires Inv(s) && Enabled(s, a) && Shape(Next(s, a)) && (a.StartSettled? || a.ExecutorSettled?)
    ensures IndexOk(Next(s, a), ActsOn(s, a))
  {
    assert WorkerOk(s, a.worker) && IndexOk(s, ActsOn(s, a));
  }

  lemma FinishKeepsOwn(s: State, a: Action)
    requires Inv(s) && Enabled(s, a) && Shape(Next(s, a)) && a.FinishSettled?
    ensures IndexOk(Next(s, a), ActsOn(s, a))
  {
    assert WorkerOk(s, a.worker) && IndexOk(s, ActsOn(s, a));
  }

  lemma StepKeepsIndex(s: State, a: Action, i: nat)
    requires Inv(s) && Enabled(s, a) && Shape(Next(s, a)) && i < |s.items|
    ensures IndexOk(Next(s, a), i)
  {
    if i != ActsOn(s, a) {
      StepKeepsOther(s, a, i);
    } else if a.Claim? {
      ClaimKeepsOwn(s, a);
    } else if a.FinishSettled? {
      FinishKeepsOwn(s, a);
    } else {
      HookKeepsOwn(s, a);
    }
  }

  lemma StepKeepsWorker(s: State, a: Action, w: nat)
    requires Inv(s) && Enabled(s, a) && Shape(Next(s, a)) && w < |s.workers|
    ensures WorkerOk(Next(s, a), w)
  {
    assert WorkerOk(s, w) && WorkerOk(s, a.worker);
    if s.nextIndex < |s.items| {
      assert IndexOk(s, s.nextIndex);
    }
  }

  lemma StepKeepsInv(s: State, a: Action)
    requires Inv(s) && Enabled(s, a)
    ensures Inv(Next(s, a))
  {
    StepKeepsShape(s, a);
    var t := Next(s, a);
    forall i | 0 <= i < |t.items|
      ensures IndexOk(t, i)
    {
      StepKeepsIndex(s, a, i);
    }
    forall w | 0 <= w < |t.workers|
      ensures WorkerOk(t, w)
    {
      StepKeepsWorker(s, a, w);
    }
    if s.rejection.Some? {
      var w :| 0 <= w < |s.workers| && s.workers[w].Crashed?;
      assert t.workers[w].Crashed?;
    } else if t.rejection.Some? {
      assert t.workers[a.worker].Crashed?;
    }
  }

  lemma {:induction false} RunKeepsInv(s: State, actions: seq<Action>, t: State)
    requires Inv(s) && Run(s, actions, t)
    ensures Inv(t) && |t.items| == |s.items| && |t.workers| == |s.workers|
    decreases |actions|
  {
    if actions != [] {
      StepKeepsInv(s, actions[0]);
      RunKeepsInv(Next(s, actions[0]), actions[1..], t);
    }
  }

  lemma ReachableInv(n: nat, concurrency: nat, actions: seq<Action>, t: State)
    requires concurrency > 0 && Run(Init(n, concurrency), actions, t)
    ensures Inv(t) && |t.items| == n && |t.workers| == Min(concurrency, n)
  {
    RunKeepsInv(Init(n, concurrency), actions, t);
  }

  // ---------- Theorems over every interleaving ----------

  /** Claims are handed out in order, each index once and to one worker. */
  lemma ClaimedExactlyBelowNext(n: nat, concurrency: nat, actions: seq<Action>, t: State)
    requires concurrency > 0 && Run(Init(n, concurrency), actions, t)
    ensures Inv(t) && |t.items| == n
    ensures forall i | 0 <= i < n :: t.items[i].claims == if i < t.nextIndex then 1 else 0
    ensures forall v, w | 0 <= v < w < |t.workers| && Holds(t.workers[v]) && Holds(t.workers[w]) ::
              t.workers[v].index != t.workers[w].index
  {
    ReachableInv(n, concurrency, actions, t);
    forall i | 0 <= i < n
      ensures t.items[i].claims == if i < t.nextIndex then 1 else 0
    {
      assert IndexOk(t, i);
    }
    forall v, w | 0 <= v < w < |t.workers| && Holds(t.workers[v]) && Holds(t.workers[w])
      ensures t.workers[v].index != t.workers[w].index
    {
      assert WorkerOk(t, v) && WorkerOk(t, w);
    }
  }

  ghost function Unfinished(s: State): set<nat> {
    set i: nat | i < Min(s.nextIndex, |s.items|) && !s.items[i].done
  }

  lemma {:induction false} AtMostOnePerWorker(s: State, pending: set<nat>, k: nat)
    requires Inv(s) && k <= |s.workers|
    requires forall i | i in pending :: i < s.nextIndex && !s.items[i].done && s.items[i].claimedBy < k
    ensures |pending| <= k
    decreases k
  {
    if k == 0 {
      if i :| i in pending {
        assert false;
      }
    } else {
      var held := if Holds(s.workers[k - 1]) then {s.workers[k - 1].index as nat} else {};
      forall i | i in pending - held
        ensures s.items[i].claimedBy < k - 1
      {
        assert IndexOk(s, i);
      }
      AtMostOnePerWorker(s, pending - held, k - 1);
      assert |pending| <= |pending - held| + |held| by {
        SubsetSize(pending, (pending - held) + held);
      }
    }
  }

  /** The pool never works on more items than its width. */
  lemma BoundedConcurrency(n: nat, concurrency: nat, actions: seq<Action>, t: State)
    requires concurrency > 0 && Run(Init(n, concurrency), actions, t)
    ensures Inv(t) && |t.items| == n
    ensures |Unfinished(t)| <= concurrency && |Unfinished(t)| <= n
  {
    ReachableInv(n, concurrency, actions, t);
    forall i | i in Unfinished(t)
      ensures t.items[i].claimedBy < |t.workers|
    {
      assert IndexOk(t, i);
    }
    AtMostOnePerWorker(t, Unfinished(t), |t.workers|);
  }

  /** What a slot must hold: the late failure if there was one, else what the executor gave. */
  function FinalSlot(h: History): Option<Settlement> {
    if h.lateFailure.Some? then Some(Rejected(h.lateFailure.value)) else h.executed
  }

  /** Whatever fails: one execution per index, and the slot and the number of finish-hook calls are determined by
      whether the executor fulfilled and whether a failure followed. */
  lemma FailureAccounting(n: nat, concurrency: nat, actions: seq<Action>, t: State, i: nat)
    requires concurrency > 0 && Run(Init(n, concurrency), actions, t) && i < n
    ensures Inv(t) && |t.items| == n
    ensures t.items[i].executions <= 1
    ensures t.settlements[i] == FinalSlot(t.items[i])
    ensures t.settlements[i].Some? <==> t.items[i].executed.Some?
    ensures t.settlements[i].Some? ==>
              (t.settlements[i].value.Fulfilled? <==>
               t.items[i].executed.value.Fulfilled? && t.items[i].lateFailure.None?)
    ensures t.items[i].finishCalls == 2 <==>
            t.items[i].executed.Some? && t.items[i].executed.value.Fulfilled? && t.items[i].lateFailure.Some?
    ensures t.items[i].finishCalls <= 2
  {
    ReachableInv(n, concurrency, actions, t);
    assert IndexOk(t, i);
  }

  predicate Terminal(s: State) {
    forall w | 0 <= w < |s.workers| :: s.workers[w].Done? || s.workers[w].Crashed?
  }

  /** The awaited result: the first rejection, or the slots in item order. `None` is the missing-settlement fault. */
  ghost function Outcome(s: State): Option<Result<seq<Settlement>, int>>
    requires Terminal(s)
  {
    if s.rejection.Some? then Some(Err(s.rejection.value))
    else if forall i | 0 <= i < |s.settlements| :: s.settlements[i].Some? then
      Some(Ok(seq(|s.settlements|, i requires 0 <= i < |s.settlements| => s.settlements[i].value)))
    else None
  }

  /** No worker rejected: every slot is filled, with its own item's outcome, so no settlement can be missing. */
  lemma CompletesEverySlot(n: nat, concurrency: nat, actions: seq<Action>, t: State)
    requires concurrency > 0 && Run(Init(n, concurrency), actions, t) && Terminal(t)
    ensures Inv(t) && |t.items| == n
    ensures Outcome(t).Some?
    ensures t.rejection.None? <==> Outcome(t).value.Ok?
    ensures Outcome(t).value.Ok? ==>
              && t.nextIndex == n
              && |Outcome(t).value.value| == n
              && forall i | 0 <= i < n ::
                   && t.items[i].done && t.items[i].executions == 1
                   && Some(Outcome(t).value.value[i]) == FinalSlot(t.items[i])
  {
    ReachableInv(n, concurrency, actions, t);
    if t.rejection.None? {
      assert n > 0 ==> WorkerOk(t, 0);
      forall i | 0 <= i < n
        ensures t.items[i].done && Settled(t.items[i], t.settlements[i])
      {
        assert IndexOk(t, i);
      }
    }
  }

  /** A worker that can still move always has an enabled action: no interleaving deadlocks. */
  lemma NoDeadlock(n: nat, concurrency: nat, actions: seq<Action>, t: State)
    requires concurrency > 0 && Run(Init(n, concurrency), actions, t) && !Terminal(t)
    ensures exists a :: Enabled(t, a)
  {
    ReachableInv(n, concurrency, actions, t);
    var w :| 0 <= w < |t.workers| && !t.workers[w].Done? && !t.workers[w].Crashed?;
    var a := if t.workers[w].Idle? then Claim(w, None)
             else if t.workers[w].Starting? then StartSettled(w, None)
             else if t.workers[w].Executing? then ExecutorSettled(w, Rejected(0))
             else FinishSettled(w, None);
    assert Enabled(t, a);
  }

  // ---------- Termination ----------

  function Remaining(w: Worker): nat {
    match w
    case Starting(_) => 5
    case Executing(_) => 4
    case FinishingOk(_, _) => 3
    case FinishingErr(_, _) => 2
    case Idle => 1
    case _ => 0
  }

  function Total(workers: seq<Worker>): nat {
    if workers == [] then 0 else Remaining(workers[0]) + Total(workers[1..])
  }

  ghost function Measure(s: State): int {
    6 * (|s.items| - s.nextIndex) + Total(s.workers)
  }

  lemma {:induction false} TotalUpdate(workers: seq<Worker>, k: nat, w: Worker)
    requires k < |workers|
    ensures Total(workers[k := w]) == Total(workers) - Remaining(workers[k]) + Remaining(w)
  {
    if k > 0 {
      TotalUpdate(workers[1..], k - 1, w);
      assert workers[k := w][1..] == workers[1..][k - 1 := w];
    } else {
      assert workers[0 := w][1..] == workers[1..];
    }
  }

  lemma {:induction false} TotalIdle(k: nat)
    ensures Total(seq(k, _ => Idle)) == k
  {
    if k > 0 {
      TotalIdle(k - 1);
      assert seq(k, _ => Idle)[1..] == seq(k - 1, _ => Idle);
    }
  }

  lemma StepDecreases(s: State, a: Action)
    requires Inv(s) && Enabled(s, a)
    ensures Measure(Next(s, a)) < Measure(s)
  {
    var t := Next(s, a);
    TotalUpdate(s.workers, a.worker, t.workers[a.worker]);
    OneWorkerMoves(s, a);
    assert t.workers == s.workers[a.worker := t.workers[a.worker]];
  }

  lemma OneWorkerMoves(s: State, a: Action)
    requires Enabled(s, a)
    ensures
      var t := Next(s, a);
      && |t.workers| == |s.workers| && |t.items| == |s.items|
      && (forall v | 0 <= v < |s.workers| && v != a.worker :: t.workers[v] == s.workers[v])
      && 6 * t.nextIndex + Remaining(s.workers[a.worker]) > 6 * s.nextIndex + Remaining(t.workers[a.worker])
      && t.nextIndex >= s.nextIndex
  {
  }

  lemma {:induction false} RunLength(s: State, actions: seq<Action>, t: State)
    requires Inv(s) && Run(s, actions, t)
    ensures |actions| <= Measure(s) - Measure(t) && Measure(t) >= 0
    decreases |actions|
  {
    if actions != [] {
      StepKeepsInv(s, actions[0]);
      StepDecreases(s, actions[0]);
      RunLength(Next(s, actions[0]), actions[1..], t);
    }
  }

  /** Every interleaving ends: at most six segments per item and one closing segment per worker. */
  lemma EveryRunIsBounded(n: nat, concurrency: nat, actions: seq<Action>, t: State)
    requires concurrency > 0 && Run(Init(n, concurrency), actions, t)
    ensures |actions| <= 6 * n + Min(concurrency, n)
  {
    RunLength(Init(n, concurrency), actions, t);
    TotalIdle(Min(concurrency, n));
  }

  // ---------- Which failure the pool rejects with ----------

  /** What an action's hook or log line threw, or its executor. */
  function Thrown(a: Action): Option<int> {
    match a
    case Claim(_, failure) => failure
    case StartSettled(_, failure) => failure
    case ExecutorSettled(_, result) => if result.Rejected? then Some(result.reason) else None
    case FinishSettled(_, failure) => failure
  }

  lemma {:induction false} RejectionStays(s: State, actions: seq<Action>, t: State)
    requires Run(s, actions, t) && s.rejection.Some?
    ensures t.rejection == s.rejection
    decreases |actions|
  {
    if actions != [] {
      RejectionStays(Next(s, actions[0]), actions[1..], t);
    }
  }

  /** The pool rejects with what was thrown by the first action that crashed a worker: until action `k` there was no
      rejection, and `k` has the reason. An executor's own failure never does. */
  lemma {:induction false} RejectsWithTheFirst(s: State, actions: seq<Action>, t: State) returns (k: nat, u: State)
    requires Run(s, actions, t) && s.rejection.None? && t.rejection.Some?
    ensures k < |actions| && Run(s, actions[..k], u) && u.rejection.None? && Enabled(u, actions[k])
    ensures t.rejection == Thrown(actions[k]) && !actions[k].ExecutorSettled?
    ensures Next(u, actions[k]).workers[actions[k].worker].Crashed?
    decreases |actions|
  {
    var next := Next(s, actions[0]);
    if next.rejection.Some? {
      k, u := 0, s;
      RejectionStays(next, actions[1..], t);
    } else {
      var j, v := RejectsWithTheFirst(next, actions[1..], t);
      k, u := j + 1, v;
      assert actions[..k][1..] == actions[1..][..j];
    }
  }
}
