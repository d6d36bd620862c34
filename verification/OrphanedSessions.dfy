/** The matcher that pairs session creations with cleanups in a transcript and reports what is left over. */
module OrphanedSessions {
  import opened Collections

  type Id = string

  datatype Record = Record(id: Option<Id>, lineNumber: nat, matchedText: string, cleaned: bool)

  /** A transcript line that counts: the session ids it names, in order of occurrence, possibly none. */
  datatype Line =
    | Create(ids: seq<Id>, lineNumber: nat, text: string)
    | Destroy(ids: seq<Id>)

  /** `pendingCleanup` lists the ids destroyed before any creation, oldest first. */
  datatype State = State(records: seq<Record>, createdById: map<Id, nat>, pendingAnonymous: seq<nat>,
                         pendingCleanup: seq<Id>)

  const EMPTY := State([], map[], [], [])

  /** Ids and named records correspond one to one, no pending cleanup is a created id, and the pending anonymous
      list is exactly the unnamed records in order. */
  ghost predicate Inv(s: State) {
    && (forall id | id in s.createdById ::
          s.createdById[id] < |s.records| && s.records[s.createdById[id]].id == Some(id))
    && (forall i | 0 <= i < |s.records| && s.records[i].id.Some? ::
          s.records[i].id.value in s.createdById && s.createdById[s.records[i].id.value] == i)
    && Distinct(s.pendingCleanup)
    && (forall id | id in s.pendingCleanup :: id !in s.createdById)
    && Ascending(s.pendingAnonymous)
    && (forall k | 0 <= k < |s.pendingAnonymous| ::
          s.pendingAnonymous[k] < |s.records| && s.records[s.pendingAnonymous[k]].id.None?)
    && (forall i | 0 <= i < |s.records| && s.records[i].id.None? :: i in s.pendingAnonymous)
  }

  // ---------- Set operations on an insertion-ordered list ----------

  function Add(s: seq<Id>, id: Id): (r: seq<Id>)
    requires Distinct(s)
    ensures Distinct(r) && forall x :: x in r <==> x in s || x == id
    ensures |r| == |s| + if id in s then 0 else 1
  {
    if id in s then s else s + [id]
  }

  function Delete(s: seq<Id>, id: Id): (r: seq<Id>)
    requires Distinct(s)
    ensures Distinct(r) && forall x :: x in r <==> x in s && x != id
    ensures |r| == |s| - if id in s then 1 else 0
  {
    if s == [] then []
    else
      assert s == [s[0]] + s[1..] && s[0] !in s[1..];
      if s[0] == id then s[1..] else [s[0]] + Delete(s[1..], id)
  }

  // ---------- The operations on values ----------

  function RegisterOne(s: State, id: Id, lineNumber: nat, text: string): (r: State)
    requires Inv(s)
  {
    if id in s.createdById then
      var i := s.createdById[id];
      var record := s.records[i];
      s.(records := s.records[i := if id in s.pendingCleanup then record.(cleaned := true) else record],
         pendingCleanup := Delete(s.pendingCleanup, id))
    else if |s.pendingAnonymous| > 0 then
      var i := s.pendingAnonymous[0];
      var record := s.records[i];
      State(s.records[i := record.(id := Some(id), cleaned := record.cleaned || id in s.pendingCleanup)],
            s.createdById[id := i], s.pendingAnonymous[1..], Delete(s.pendingCleanup, id))
    else
      State(s.records + [Record(Some(id), lineNumber, text, id in s.pendingCleanup)],
            s.createdById[id := |s.records|], s.pendingAnonymous, Delete(s.pendingCleanup, id))
  }

  function RegisterAll(s: State, ids: seq<Id>, lineNumber: nat, text: string): (r: State)
    requires Inv(s)
    ensures Inv(r)
    decreases ids
  {
    if ids == [] then s
    else
      RegisterOneInv(s, ids[0], lineNumber, text);
      RegisterAll(RegisterOne(s, ids[0], lineNumber, text), ids[1..], lineNumber, text)
  }

  function Register(s: State, ids: seq<Id>, lineNumber: nat, text: string): State
    requires Inv(s)
  {
    if ids == [] then
      s.(records := s.records + [Record(None, lineNumber, text, false)],
         pendingAnonymous := s.pendingAnonymous + [|s.records|])
    else RegisterAll(s, ids, lineNumber, text)
  }

  function CleanOne(s: State, id: Id): State
    requires Inv(s)
  {
    if id in s.createdById then
      var i := s.createdById[id];
      s.(records := s.records[i := s.records[i].(cleaned := true)])
    else s.(pendingCleanup := Add(s.pendingCleanup, id))
  }

  function CleanAll(s: State, ids: seq<Id>): (r: State)
    requires Inv(s)
    ensures Inv(r)
    decreases ids
  {
    if ids == [] then s
    else
      CleanOneInv(s, ids[0]);
      CleanAll(CleanOne(s, ids[0]), ids[1..])
  }

  /** The earliest record not yet cleaned, if any. */
  function FirstUncleaned(records: seq<Record>): (i: nat)
    ensures i <= |records|
    ensures i < |records| ==> !records[i].cleaned
    ensures forall j | 0 <= j < i :: records[j].cleaned
  {
    if records == [] || !records[0].cleaned then 0 else 1 + FirstUncleaned(records[1..])
  }

  function Clean(s: State, ids: seq<Id>): State
    requires Inv(s)
  {
    if ids != [] then CleanAll(s, ids)
    else
      var i := FirstUncleaned(s.records);
      if i == |s.records| then s else s.(records := s.records[i := s.records[i].(cleaned := true)])
  }

  /** Pairs unnamed uncleaned records with leftover cleanups, oldest first on both sides. */
  function ReconcileFrom(records: seq<Record>, anonymous: seq<nat>, pending: seq<Id>): (r: (seq<Record>, seq<Id>))
    requires forall k | 0 <= k < |anonymous| :: anonymous[k] < |records|
    ensures |r.0| == |records|
    decreases anonymous
  {
    if anonymous == [] || pending == [] then (records, pending)
    else
      var record := records[anonymous[0]];
      if record.cleaned || record.id.Some? then ReconcileFrom(records, anonymous[1..], pending)
      else ReconcileFrom(records[anonymous[0] := record.(cleaned := true)], anonymous[1..], pending[1..])
  }

  function Reconcile(s: State): State
    requires Inv(s)
  {
    var (records, pending) := ReconcileFrom(s.records, s.pendingAnonymous, s.pendingCleanup);
    s.(records := records, pendingCleanup := pending)
  }

  function Step(s: State, line: Line): (r: State)
    requires Inv(s)
  {
    match line
    case Create(ids, lineNumber, text) => Register(s, ids, lineNumber, text)
    case Destroy(ids) => Clean(s, ids)
  }

  /** The matcher's state after a transcript, before the final reconciliation. */
  function Scan(lines: seq<Line>): (s: State)
    ensures Inv(s)
  {
    if lines == [] then EMPTY
    else
      StepInv(Scan(lines[..|lines| - 1]), lines[|lines| - 1]);
      Step(Scan(lines[..|lines| - 1]), lines[|lines| - 1])
  }

  // ---------- The invariant is kept ----------

  lemma AdoptInv(s: State, id: Id, record: Record, pending: seq<Id>)
    requires Inv(s) && id !in s.createdById && |s.pendingAnonymous| > 0 && record.id == Some(id)
    requires Distinct(pending) && forall x | x in pending :: x in s.pendingCleanup && x != id
    ensures Inv(State(s.records[s.pendingAnonymous[0] := record], s.createdById[id := s.pendingAnonymous[0]],
                      s.pendingAnonymous[1..], pending))
  {
    var first := s.pendingAnonymous[0];
    var rest := s.pendingAnonymous[1..];
    assert s.pendingAnonymous == [first] + rest;
    forall k | 0 <= k < |rest|
      ensures rest[k] < |s.records| && s.records[rest[k]].id.None? && rest[k] != first
    {
      assert rest[k] == s.pendingAnonymous[k + 1];
    }
  }

  lemma AppendInv(s: State, id: Id, record: Record, pending: seq<Id>)
    requires Inv(s) && id !in s.createdById && record.id == Some(id)
    requires Distinct(pending) && forall x | x in pending :: x in s.pendingCleanup && x != id
    ensures Inv(State(s.records + [record], s.createdById[id := |s.records|], s.pendingAnonymous, pending))
  {
  }

  lemma RegisterOneInv(s: State, id: Id, lineNumber: nat, text: string)
    requires Inv(s)
    ensures Inv(RegisterOne(s, id, lineNumber, text))
  {
    var r := RegisterOne(s, id, lineNumber, text);
    if id in s.createdById {
    } else if |s.pendingAnonymous| > 0 {
      AdoptInv(s, id, r.records[s.pendingAnonymous[0]], r.pendingCleanup);
    } else {
      AppendInv(s, id, r.records[|s.records|], r.pendingCleanup);
    }
  }

  lemma CleanOneInv(s: State, id: Id)
    requires Inv(s)
    ensures Inv(CleanOne(s, id))
  {
  }

  lemma AnonymousCreateInv(s: State, lineNumber: nat, text: string)
    requires Inv(s)
    ensures Inv(Register(s, [], lineNumber, text))
  {
    var r := Register(s, [], lineNumber, text);
    var n := |s.pendingAnonymous|;
    assert forall i | 0 <= i < |s.records| :: r.records[i] == s.records[i];
    assert r.pendingAnonymous[n] == |s.records|;
    assert forall k | 0 <= k < n :: r.pendingAnonymous[k] == s.pendingAnonymous[k] < |s.records|;
  }

  lemma AnonymousDestroyInv(s: State)
    requires Inv(s)
    ensures Inv(Clean(s, []))
  {
  }

  lemma StepInv(s: State, line: Line)
    requires Inv(s)
    ensures Inv(Step(s, line))
  {
    match line
    case Create(ids, lineNumber, text) =>
      if ids == [] {
        AnonymousCreateInv(s, lineNumber, text);
      }
    case Destroy(ids) =>
      if ids == [] {
        AnonymousDestroyInv(s);
      }
  }

  lemma {:induction false} RegisterSplit(s: State, a: seq<Id>, b: seq<Id>, lineNumber: nat, text: string)
    requires Inv(s)
    ensures RegisterAll(s, a + b, lineNumber, text) ==
            RegisterAll(RegisterAll(s, a, lineNumber, text), b, lineNumber, text)
    decreases a
  {
    if a == [] {
      assert a + b == b;
    } else {
      assert (a + b)[1..] == a[1..] + b;
      RegisterOneInv(s, a[0], lineNumber, text);
      RegisterSplit(RegisterOne(s, a[0], lineNumber, text), a[1..], b, lineNumber, text);
    }
  }

  /** Two tests in the code can never succeed: after any transcript and any first part `done` of the ids of its next
      line, a created id is never awaiting cleanup, and a record still in the anonymous list has no id. The state
      after the whole line is reached by registering the other ids from there. */
  lemma DeadBranches(lines: seq<Line>, done: seq<Id>, todo: seq<Id>, lineNumber: nat, text: string)
    requires done + todo != []
    ensures
      var s := RegisterAll(Scan(lines), done, lineNumber, text);
      && (forall id | id in s.createdById :: id !in s.pendingCleanup)
      && (forall i | i in s.pendingAnonymous :: i < |s.records| && s.records[i].id.None?)
      && Scan(lines + [Create(done + todo, lineNumber, text)]) == RegisterAll(s, todo, lineNumber, text)
  {
    assert (lines + [Create(done + todo, lineNumber, text)])[..|lines|] == lines;
    RegisterSplit(Scan(lines), done, todo, lineNumber, text);
  }

  // ---------- What a transcript says ----------

  ghost function Created(lines: seq<Line>): set<Id> {
    set line, id | line in lines && line.Create? && id in line.ids :: id
  }

  ghost function Destroyed(lines: seq<Line>): set<Id> {
    set line, id | line in lines && line.Destroy? && id in line.ids :: id
  }

  function AnonymousDestroys(lines: seq<Line>): nat {
    if lines == [] then 0
    else AnonymousDestroys(lines[..|lines| - 1]) + if lines[|lines| - 1] == Destroy([]) then 1 else 0
  }

  function CleanedCount(records: seq<Record>): nat {
    if records == [] then 0 else (if records[0].cleaned then 1 else 0) + CleanedCount(records[1..])
  }

  lemma {:induction false} CleanedUpdate(records: seq<Record>, i: nat, record: Record)
    requires i < |records|
    ensures CleanedCount(records[i := record]) ==
            CleanedCount(records) - (if records[i].cleaned then 1 else 0) + if record.cleaned then 1 else 0
  {
    if i == 0 {
      assert records[0 := record][1..] == records[1..];
    } else {
      CleanedUpdate(records[1..], i - 1, record);
      assert records[i := record][1..] == records[1..][i - 1 := record];
    }
  }

  lemma {:induction false} CleanedAppend(records: seq<Record>, record: Record)
    ensures CleanedCount(records + [record]) == CleanedCount(records) + if record.cleaned then 1 else 0
  {
    if records == [] {
    } else {
      assert (records + [record])[1..] == records[1..] + [record];
      CleanedAppend(records[1..], record);
    }
  }

  /** The matcher knows every created id, and every destroyed one is either cleaned or still pending. */
  ghost predicate Knows(s: State, created: set<Id>, destroyed: set<Id>) {
    && Inv(s)
    && s.createdById.Keys == created
    && (forall id | id in destroyed ::
          if id in created then s.records[s.createdById[id]].cleaned else id in s.pendingCleanup)
    && (forall id | id in s.pendingCleanup :: id in destroyed)
  }

  /** Cleanups already spent plus cleanups still pending. */
  function Spent(s: State): nat {
    CleanedCount(s.records) + |s.pendingCleanup|
  }

  /** Only a destroy of its own id has cleaned a record. */
  ghost predicate CleanedByName(s: State, destroyed: set<Id>) {
    forall i | 0 <= i < |s.records| && s.records[i].cleaned ::
      s.records[i].id.Some? && s.records[i].id.value in destroyed
  }

  lemma RegisterOneKnows(s: State, id: Id, lineNumber: nat, text: string, created: set<Id>, destroyed: set<Id>)
    requires Knows(s, created, destroyed)
    ensures Knows(RegisterOne(s, id, lineNumber, text), created + {id}, destroyed)
  {
    RegisterOneInv(s, id, lineNumber, text);
    var r := RegisterOne(s, id, lineNumber, text);
    assert r.createdById.Keys == created + {id};
    forall x | x in destroyed
      ensures if x in created + {id} then r.records[r.createdById[x]].cleaned else x in r.pendingCleanup
    {
      if x != id && x in created {
        assert s.records[s.createdById[x]].id == Some(x) && r.createdById[x] == s.createdById[x];
      }
    }
  }

  lemma RegisterOneNamed(s: State, id: Id, lineNumber: nat, text: string, created: set<Id>, destroyed: set<Id>)
    requires Knows(s, created, destroyed) && CleanedByName(s, destroyed)
    ensures CleanedByName(RegisterOne(s, id, lineNumber, text), destroyed)
    ensures s.pendingAnonymous == [] ==> RegisterOne(s, id, lineNumber, text).pendingAnonymous == []
  {
  }

  lemma RegisterOneSpends(s: State, id: Id, lineNumber: nat, text: string)
    requires Inv(s)
    ensures Spent(RegisterOne(s, id, lineNumber, text)) <= Spent(s)
  {
    if id in s.createdById {
      CleanedUpdate(s.records, s.createdById[id], RegisterOne(s, id, lineNumber, text).records[s.createdById[id]]);
    } else if |s.pendingAnonymous| > 0 {
      var i := s.pendingAnonymous[0];
      CleanedUpdate(s.records, i, RegisterOne(s, id, lineNumber, text).records[i]);
    } else {
      CleanedAppend(s.records, Record(Some(id), lineNumber, text, id in s.pendingCleanup));
    }
  }

  lemma CleanOneKnows(s: State, id: Id, created: set<Id>, destroyed: set<Id>)
    requires Knows(s, created, destroyed)
    ensures Knows(CleanOne(s, id), created, destroyed + {id})
    ensures CleanedByName(s, destroyed) ==> CleanedByName(CleanOne(s, id), destroyed + {id})
  {
    CleanOneInv(s, id);
  }

  lemma CleanOneSpends(s: State, id: Id, created: set<Id>, destroyed: set<Id>)
    requires Knows(s, created, destroyed)
    ensures SpendsWithin(s, destroyed, CleanOne(s, id), destroyed + {id})
  {
    if id in destroyed {
      assert destroyed + {id} == destroyed;
    }
    if id in s.createdById {
      CleanedUpdate(s.records, s.createdById[id], s.records[s.createdById[id]].(cleaned := true));
    }
  }

  lemma SetWalk(base: set<Id>, ids: seq<Id>)
    requires ids != []
    ensures base + {ids[0]} + SetOf(ids[1..]) == base + SetOf(ids)
  {
    SetOfCons(ids);
  }

  lemma {:induction false} RegisterAllKnows(s: State, ids: seq<Id>, n: nat, text: string, created: set<Id>,
                                            destroyed: set<Id>)
    requires Knows(s, created, destroyed)
    ensures Knows(RegisterAll(s, ids, n, text), created + SetOf(ids), destroyed)
    ensures CleanedByName(s, destroyed) ==> CleanedByName(RegisterAll(s, ids, n, text), destroyed)
    decreases ids
  {
    if ids == [] {
      assert created + SetOf(ids) == created;
    } else {
      RegisterOneKnows(s, ids[0], n, text, created, destroyed);
      if CleanedByName(s, destroyed) {
        RegisterOneNamed(s, ids[0], n, text, created, destroyed);
      }
      RegisterAllKnows(RegisterOne(s, ids[0], n, text), ids[1..], n, text, created + {ids[0]}, destroyed);
      SetWalk(created, ids);
    }
  }

  lemma {:induction false} RegisterAllSpends(s: State, ids: seq<Id>, n: nat, text: string)
    requires Inv(s)
    ensures Spent(RegisterAll(s, ids, n, text)) <= Spent(s)
    decreases ids
  {
    if ids != [] {
      RegisterOneInv(s, ids[0], n, text);
      RegisterOneSpends(s, ids[0], n, text);
      RegisterAllSpends(RegisterOne(s, ids[0], n, text), ids[1..], n, text);
    }
  }

  lemma {:induction false} CleanAllKnows(s: State, ids: seq<Id>, created: set<Id>, destroyed: set<Id>)
    requires Knows(s, created, destroyed)
    ensures Knows(CleanAll(s, ids), created, destroyed + SetOf(ids))
    ensures CleanedByName(s, destroyed) ==> CleanedByName(CleanAll(s, ids), destroyed + SetOf(ids))
    decreases ids
  {
    if ids == [] {
      assert destroyed + SetOf(ids) == destroyed;
    } else {
      CleanOneKnows(s, ids[0], created, destroyed);
      CleanAllKnows(CleanOne(s, ids[0]), ids[1..], created, destroyed + {ids[0]});
      SetWalk(destroyed, ids);
    }
  }

  /** From `s` to `t` no more was spent than new ids were destroyed. */
  ghost predicate SpendsWithin(s: State, destroyed: set<Id>, t: State, destroyed': set<Id>) {
    Spent(t) + |destroyed| <= Spent(s) + |destroyed'|
  }

  lemma {:induction false} CleanAllSpends(s: State, ids: seq<Id>, created: set<Id>, destroyed: set<Id>)
    requires Knows(s, created, destroyed)
    ensures SpendsWithin(s, destroyed, CleanAll(s, ids), destroyed + SetOf(ids))
    decreases ids
  {
    if ids == [] {
      assert destroyed + SetOf(ids) == destroyed;
    } else {
      CleanOneKnows(s, ids[0], created, destroyed);
      CleanOneSpends(s, ids[0], created, destroyed);
      CleanAllSpends(CleanOne(s, ids[0]), ids[1..], created, destroyed + {ids[0]});
      SetWalk(destroyed, ids);
    }
  }

  lemma AnonymousCreateKnows(s: State, n: nat, text: string, created: set<Id>, destroyed: set<Id>)
    requires Knows(s, created, destroyed)
    ensures Knows(Register(s, [], n, text), created, destroyed)
    ensures CleanedByName(s, destroyed) ==> CleanedByName(Register(s, [], n, text), destroyed)
    ensures Spent(Register(s, [], n, text)) == Spent(s)
  {
    StepInv(s, Create([], n, text));
    CleanedAppend(s.records, Record(None, n, text, false));
  }

  lemma AnonymousDestroyKnows(s: State, created: set<Id>, destroyed: set<Id>)
    requires Knows(s, created, destroyed)
    ensures Knows(Clean(s, []), created, destroyed)
    ensures Spent(Clean(s, [])) <= Spent(s) + 1
  {
    StepInv(s, Destroy([]));
    var i := FirstUncleaned(s.records);
    if i < |s.records| {
      CleanedUpdate(s.records, i, s.records[i].(cleaned := true));
    }
  }

  predicate AllNamed(lines: seq<Line>) {
    forall line | line in lines :: line.ids != []
  }

  lemma CreateKnows(s: State, ids: seq<Id>, n: nat, text: string, created: set<Id>, destroyed: set<Id>)
    requires Knows(s, created, destroyed)
    ensures Knows(Register(s, ids, n, text), created + SetOf(ids), destroyed)
    ensures CleanedByName(s, destroyed) ==> CleanedByName(Register(s, ids, n, text), destroyed)
    ensures Spent(Register(s, ids, n, text)) <= Spent(s)
  {
    if ids == [] {
      assert created + SetOf(ids) == created;
      AnonymousCreateKnows(s, n, text, created, destroyed);
    } else {
      RegisterAllKnows(s, ids, n, text, created, destroyed);
      RegisterAllSpends(s, ids, n, text);
    }
  }

  lemma DestroyKnows(s: State, ids: seq<Id>, created: set<Id>, destroyed: set<Id>)
    requires Knows(s, created, destroyed)
    ensures Knows(Clean(s, ids), created, destroyed + SetOf(ids))
    ensures ids != [] && CleanedByName(s, destroyed) ==> CleanedByName(Clean(s, ids), destroyed + SetOf(ids))
    ensures Spent(Clean(s, ids)) + |destroyed| <= Spent(s) + |destroyed + SetOf(ids)| + if ids == [] then 1 else 0
  {
    if ids == [] {
      assert destroyed + SetOf(ids) == destroyed;
      AnonymousDestroyKnows(s, created, destroyed);
    } else {
      CleanAllKnows(s, ids, created, destroyed);
      CleanAllSpends(s, ids, created, destroyed);
    }
  }

  lemma WordsSnoc(before: seq<Line>, line: Line)
    ensures Created(before + [line]) == Created(before) + if line.Create? then SetOf(line.ids) else {}
    ensures Destroyed(before + [line]) == Destroyed(before) + if line.Destroy? then SetOf(line.ids) else {}
  {
  }

  lemma ScanSnoc(before: seq<Line>, line: Line)
    ensures Scan(before + [line]) == Step(Scan(before), line)
    ensures AnonymousDestroys(before + [line]) == AnonymousDestroys(before) + if line == Destroy([]) then 1 else 0
  {
    assert (before + [line])[..|before|] == before;
  }

  /** What the state has to do with the words of the transcript; `named` says that no destroy was anonymous. */
  ghost predicate Tells(s: State, created: set<Id>, destroyed: set<Id>, named: bool, anonymous: nat) {
    Knows(s, created, destroyed) && (named ==> CleanedByName(s, destroyed)) && Spent(s) <= |destroyed| + anonymous
  }

  lemma StepTells(s: State, line: Line, created: set<Id>, destroyed: set<Id>, named: bool, anonymous: nat)
    requires Tells(s, created, destroyed, named, anonymous)
    ensures Tells(Step(s, line), created + (if line.Create? then SetOf(line.ids) else {}),
                  destroyed + (if line.Destroy? then SetOf(line.ids) else {}), named && line != Destroy([]),
                  anonymous + if line == Destroy([]) then 1 else 0)
  {
    match line
    case Create(ids, n, text) =>
      assert destroyed + {} == destroyed;
      CreateKnows(s, ids, n, text, created, destroyed);
    case Destroy(ids) =>
      assert created + {} == created;
      DestroyKnows(s, ids, created, destroyed);
  }

  lemma {:induction false} ScanTells(lines: seq<Line>)
    ensures Tells(Scan(lines), Created(lines), Destroyed(lines), Destroy([]) !in lines, AnonymousDestroys(lines))
    decreases |lines|
  {
    if lines != [] {
      var before, line := lines[..|lines| - 1], lines[|lines| - 1];
      assert lines == before + [line];
      ScanTells(before);
      WordsSnoc(before, line);
      ScanSnoc(before, line);
      StepTells(Scan(before), line, Created(before), Destroyed(before), Destroy([]) !in before,
                AnonymousDestroys(before));
    }
  }

  /** The state after any transcript, related to what the transcript says. */
  lemma ScanKnows(lines: seq<Line>)
    ensures Knows(Scan(lines), Created(lines), Destroyed(lines))
    ensures Destroy([]) !in lines ==> CleanedByName(Scan(lines), Destroyed(lines))
    ensures Spent(Scan(lines)) <= |Destroyed(lines)| + AnonymousDestroys(lines)
  {
    ScanTells(lines);
  }

  // ---------- The final reconciliation ----------

  lemma {:induction false} ReconcileFromFacts(records: seq<Record>, anonymous: seq<nat>, pending: seq<Id>)
    requires forall k | 0 <= k < |anonymous| :: anonymous[k] < |records|
    ensures
      var r := ReconcileFrom(records, anonymous, pending);
      && CleanedCount(r.0) + |r.1| == CleanedCount(records) + |pending|
      && (forall i | 0 <= i < |records| && records[i].id.Some? :: r.0[i] == records[i])
      && (forall i | 0 <= i < |records| :: r.0[i].id == records[i].id && (records[i].cleaned ==> r.0[i].cleaned))
    decreases anonymous
  {
    if anonymous != [] && pending != [] {
      var record := records[anonymous[0]];
      if record.cleaned || record.id.Some? {
        ReconcileFromFacts(records, anonymous[1..], pending);
      } else {
        CleanedUpdate(records, anonymous[0], record.(cleaned := true));
        ReconcileFromFacts(records[anonymous[0] := record.(cleaned := true)], anonymous[1..], pending[1..]);
      }
    }
  }

  function Uncleaned(records: seq<Record>): (r: seq<Record>)
    ensures forall x :: x in r <==> x in records && !x.cleaned
    ensures |r| == |records| - CleanedCount(records)
  {
    if records == [] then []
    else
      assert records == [records[0]] + records[1..];
      (if records[0].cleaned then [] else [records[0]]) + Uncleaned(records[1..])
  }

  /** The sessions a transcript leaves orphaned, one record each. */
  function Orphans(lines: seq<Line>): seq<Record> {
    Uncleaned(Reconcile(Scan(lines)).records)
  }

  ghost function OrphanIds(lines: seq<Line>): set<Id> {
    NamesIn(Orphans(lines))
  }

  ghost function NamesIn(records: seq<Record>): set<Id> {
    set r | r in records && r.id.Some? :: r.id.value
  }

  // ---------- Theorems ----------

  /** In any transcript: a session both created and destroyed by name is never reported, in whatever order. */
  lemma NamedCleanupAlwaysCounts(lines: seq<Line>)
    ensures OrphanIds(lines) <= Created(lines) - Destroyed(lines)
  {
    ScanKnows(lines);
    var s := Scan(lines);
    ReconcileFromFacts(s.records, s.pendingAnonymous, s.pendingCleanup);
    forall id | id in OrphanIds(lines)
      ensures id in Created(lines) && id !in Destroyed(lines)
    {
      var r :| r in Orphans(lines) && r.id == Some(id);
      var i :| 0 <= i < |s.records| && Reconcile(s).records[i] == r;
    }
  }

  /** Records cleaned by the end never exceed the distinct destroyed ids plus the anonymous destroys. */
  lemma CleanupsBounded(lines: seq<Line>)
    ensures CleanedCount(Reconcile(Scan(lines)).records) <= |Destroyed(lines)| + AnonymousDestroys(lines)
    ensures |Orphans(lines)| >= |Scan(lines).records| - |Destroyed(lines)| - AnonymousDestroys(lines)
  {
    ScanKnows(lines);
    var s := Scan(lines);
    ReconcileFromFacts(s.records, s.pendingAnonymous, s.pendingCleanup);
  }

  lemma NamedUncleanedReported(lines: seq<Line>, id: Id)
    requires Destroy([]) !in lines && id in Created(lines) - Destroyed(lines)
    ensures id in OrphanIds(lines)
  {
    ScanKnows(lines);
    var s := Scan(lines);
    var i := s.createdById[id];
    assert s.records[i].id == Some(id) && !s.records[i].cleaned;
    ReconcileFromFacts(s.records, s.pendingAnonymous, s.pendingCleanup);
    var r := Reconcile(s).records[i];
    assert r == s.records[i] && r in Reconcile(s).records;
    assert r in Orphans(lines);
  }

  /** Without anonymous destroys exactly the created and never destroyed ids are reported, whatever else is
      anonymous. */
  lemma NamedOrphansExact(lines: seq<Line>)
    requires Destroy([]) !in lines
    ensures OrphanIds(lines) == Created(lines) - Destroyed(lines)
  {
    NamedCleanupAlwaysCounts(lines);
    forall id | id in Created(lines) - Destroyed(lines)
      ensures id in OrphanIds(lines)
    {
      NamedUncleanedReported(lines, id);
    }
  }

  lemma {:induction false} NothingAnonymous(lines: seq<Line>)
    requires AllNamed(lines)
    ensures Scan(lines).pendingAnonymous == []
  {
    if lines != [] {
      var before, line := lines[..|lines| - 1], lines[|lines| - 1];
      assert lines == before + [line];
      NothingAnonymous(before);
      match line
      case Create(ids, n, text) => RegisterAllNamed(Scan(before), ids, n, text);
      case Destroy(ids) => CleanAllNamed(Scan(before), ids);
    }
  }

  lemma {:induction false} RegisterAllNamed(s: State, ids: seq<Id>, n: nat, text: string)
    requires Inv(s) && s.pendingAnonymous == []
    ensures RegisterAll(s, ids, n, text).pendingAnonymous == []
    decreases ids
  {
    if ids != [] {
      RegisterOneInv(s, ids[0], n, text);
      RegisterAllNamed(RegisterOne(s, ids[0], n, text), ids[1..], n, text);
    }
  }

  lemma {:induction false} CleanAllNamed(s: State, ids: seq<Id>)
    requires Inv(s) && s.pendingAnonymous == []
    ensures CleanAll(s, ids).pendingAnonymous == []
    decreases ids
  {
    if ids != [] {
      CleanOneInv(s, ids[0]);
      CleanAllNamed(CleanOne(s, ids[0]), ids[1..]);
    }
  }

  /** When every line names its sessions, each orphan is a named one and has exactly one finding. */
  lemma OneFindingPerOrphan(lines: seq<Line>)
    requires AllNamed(lines)
    ensures forall r | r in Orphans(lines) :: r.id.Some?
    ensures |Orphans(lines)| == |Created(lines) - Destroyed(lines)|
  {
    NothingAnonymous(lines);
    var s := Scan(lines);
    assert Reconcile(s) == s;
    assert Destroy([]) !in lines;
    NamedOrphansExact(lines);
    OneFindingEach(s.records);
    CountByName(Orphans(lines));
  }

  function NameOf(r: Record): Id {
    if r.id.Some? then r.id.value else ""
  }

  lemma CountByName(orphans: seq<Record>)
    requires forall r | r in orphans :: r.id.Some?
    requires forall i, j | 0 <= i < j < |orphans| :: orphans[i].id != orphans[j].id
    ensures |orphans| == |NamesIn(orphans)|
  {
    var names := Map(NameOf, orphans);
    forall i, j | 0 <= i < j < |names|
      ensures names[i] != names[j]
    {
      assert orphans[i] in orphans && orphans[j] in orphans;
    }
    DistinctSize(names);
    forall id
      ensures id in SetOf(names) <==> id in NamesIn(orphans)
    {
      if id in names {
        var k :| 0 <= k < |names| && names[k] == id;
        assert orphans[k] in orphans;
      }
      if id in NamesIn(orphans) {
        var k :| 0 <= k < |orphans| && orphans[k].id == Some(id);
        assert names[k] == id;
      }
    }
    assert SetOf(names) == NamesIn(orphans);
  }

  lemma {:induction false} OneFindingEach(records: seq<Record>)
    requires forall i, j | 0 <= i < j < |records| :: records[i].id != records[j].id
    ensures forall i, j | 0 <= i < j < |Uncleaned(records)| :: Uncleaned(records)[i].id != Uncleaned(records)[j].id
    decreases records
  {
    if records != [] {
      OneFindingEach(records[1..]);
      forall r | r in Uncleaned(records[1..])
        ensures r.id != records[0].id
      {
        var j :| 0 < j < |records| && records[j] == r;
      }
    }
  }

  /** Without anonymous destroys the same named sessions are reported in any order of the lines; if every line names
      its sessions, there are also as many findings. */
  lemma NamedOrderIrrelevant(lines: seq<Line>, lines': seq<Line>)
    requires Destroy([]) !in lines && multiset(lines) == multiset(lines')
    ensures OrphanIds(lines') == OrphanIds(lines)
    ensures AllNamed(lines) ==> |Orphans(lines')| == |Orphans(lines)|
  {
    SameWords(lines, lines');
    NamedOrphansExact(lines);
    NamedOrphansExact(lines');
    if AllNamed(lines) {
      OneFindingPerOrphan(lines);
      OneFindingPerOrphan(lines');
    }
  }

  lemma SameWords(lines: seq<Line>, lines': seq<Line>)
    requires multiset(lines) == multiset(lines')
    ensures Created(lines) == Created(lines') && Destroyed(lines) == Destroyed(lines')
    ensures forall line :: line in lines <==> line in lines'
  {
    Permuted(lines, lines');
  }

  /** An anonymous destroy cleans nothing that is created later. */
  lemma AnonymousOrderMatters(n: nat, text: string)
    ensures |Orphans([Create([], n, text), Destroy([])])| == 0
    ensures |Orphans([Destroy([]), Create([], n, text)])| == 1
  {
    var create, destroy := Create([], n, text), Destroy([]);
    assert [create, destroy][..1] == [create] && [create][..0] == [];
    assert [destroy, create][..1] == [destroy] && [destroy][..0] == [];
    assert Scan([create]).records == [Record(None, n, text, false)];
    assert Scan([destroy]) == EMPTY;
    assert Scan([create, destroy]).records == [Record(None, n, text, true)];
    assert Scan([destroy, create]).records == [Record(None, n, text, false)];
  }
}
