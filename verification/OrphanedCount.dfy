/** Exactly when the number of findings does not depend on the order of a transcript's lines. */
module OrphanedCount {
  import opened Collections
  import opened OrphanedSessions
  import opened OrphanedOrder

  // ---------- Open records ----------

  /** The uncleaned records with a name, or without one. */
  function Open(records: seq<Record>, named: bool): nat {
    if records == [] then 0
    else (if !records[0].cleaned && records[0].id.Some? == named then 1 else 0) + Open(records[1..], named)
  }

  function IsOpen(r: Record, named: bool): nat {
    if !r.cleaned && r.id.Some? == named then 1 else 0
  }

  lemma {:induction false} OpenUpdate(records: seq<Record>, i: nat, r: Record, named: bool)
    requires i < |records|
    ensures Open(records[i := r], named) + IsOpen(records[i], named) == Open(records, named) + IsOpen(r, named)
  {
    if i == 0 {
      assert records[0 := r][1..] == records[1..];
    } else {
      OpenUpdate(records[1..], i - 1, r, named);
      assert records[i := r][1..] == records[1..][i - 1 := r];
    }
  }

  lemma {:induction false} OpenAppend(records: seq<Record>, r: Record, named: bool)
    ensures Open(records + [r], named) == Open(records, named) + IsOpen(r, named)
  {
    if records != [] {
      OpenAppend(records[1..], r, named);
      assert (records + [r])[1..] == records[1..] + [r];
    }
  }

  lemma {:induction false} OpenTotal(records: seq<Record>)
    ensures |Uncleaned(records)| == Open(records, true) + Open(records, false)
  {
    if records != [] {
      OpenTotal(records[1..]);
    }
  }

  lemma {:induction false} NothingOpen(records: seq<Record>, named: bool)
    requires forall i | 0 <= i < |records| :: IsOpen(records[i], named) == 0
    ensures Open(records, named) == 0
  {
    if records != [] {
      assert IsOpen(records[0], named) == 0;
      assert forall i | 0 <= i < |records| - 1 :: records[1..][i] == records[i + 1];
      NothingOpen(records[1..], named);
    }
  }

  lemma {:induction false} SomethingOpen(records: seq<Record>, i: nat, named: bool)
    requires i < |records| && IsOpen(records[i], named) == 1
    ensures Open(records, named) > 0
  {
    if i > 0 {
      SomethingOpen(records[1..], i - 1, named);
    }
  }

  ghost predicate NamesOnce(records: seq<Record>) {
    forall i, j | 0 <= i < j < |records| && records[i].id.Some? :: records[i].id != records[j].id
  }

  lemma HeadNameNew(records: seq<Record>)
    requires records != [] && NamesOnce(records)
    ensures NamesOnce(records[1..])
    ensures records[0].id.Some? ==> forall r | r in records[1..] :: r.id != records[0].id
  {
    assert forall i | 0 <= i < |records| - 1 :: records[1..][i] == records[i + 1];
  }

  /** Where names do not repeat, the named open records are counted by their names. */
  lemma {:induction false} OpenNames(records: seq<Record>)
    requires NamesOnce(records)
    ensures Open(records, true) == |NamesIn(Uncleaned(records))|
  {
    if records == [] {
      assert NamesIn(Uncleaned(records)) == {};
    } else {
      HeadNameNew(records);
      OpenNames(records[1..]);
      if records[0].cleaned {
        assert Uncleaned(records) == Uncleaned(records[1..]);
      } else {
        NamesHead(records[0], Uncleaned(records[1..]));
      }
    }
  }

  lemma NamesHead(head: Record, rest: seq<Record>)
    requires head.id.Some? ==> forall r | r in rest :: r.id != head.id
    ensures |NamesIn([head] + rest)| == |NamesIn(rest)| + if head.id.Some? then 1 else 0
  {
    if head.id.Some? {
      assert NamesIn([head] + rest) == NamesIn(rest) + {head.id.value};
    } else {
      assert NamesIn([head] + rest) == NamesIn(rest);
    }
  }

  // ---------- The findings in terms of open records ----------

  function Excess(u: nat, p: nat): nat {
    if u > p then u - p else 0
  }

  /** The reconciliation closes unnamed records as long as cleanups are pending. */
  lemma {:induction false} ReconcileOpen(records: seq<Record>, anonymous: seq<nat>, pending: seq<Id>)
    requires forall k | 0 <= k < |anonymous| :: anonymous[k] < |records|
    requires forall i | 0 <= i < |records| && IsOpen(records[i], false) == 1 :: i in anonymous
    ensures
      var after := ReconcileFrom(records, anonymous, pending).0;
      && Open(after, true) == Open(records, true)
      && Open(after, false) == Excess(Open(records, false), |pending|)
    decreases anonymous
  {
    if anonymous == [] {
      NothingOpen(records, false);
    } else if pending != [] {
      var i, rest := anonymous[0], anonymous[1..];
      assert anonymous == [i] + rest;
      var record := records[i];
      if record.cleaned || record.id.Some? {
        ReconcileOpen(records, rest, pending);
      } else {
        var cleaned := record.(cleaned := true);
        OpenUpdate(records, i, cleaned, true);
        OpenUpdate(records, i, cleaned, false);
        ReconcileOpen(records[i := cleaned], rest, pending[1..]);
      }
    }
  }

  lemma PendingIds(lines: seq<Line>)
    ensures |Scan(lines).pendingCleanup| == |Destroyed(lines) - Created(lines)|
  {
    ScanKnows(lines);
    var s := Scan(lines);
    DistinctSize(s.pendingCleanup);
    assert SetOf(s.pendingCleanup) == Destroyed(lines) - Created(lines);
  }

  /** Findings: the named open records, and the unnamed ones beyond the cleanups of sessions never created. */
  lemma FindingsOf(lines: seq<Line>)
    ensures
      var s := Scan(lines);
      |Orphans(lines)| == Open(s.records, true) + Excess(Open(s.records, false), |Destroyed(lines) - Created(lines)|)
  {
    var s := Scan(lines);
    ReconcileOpen(s.records, s.pendingAnonymous, s.pendingCleanup);
    OpenTotal(Reconcile(s).records);
    PendingIds(lines);
  }

  /** The named open records are the named findings. */
  lemma NamedFindings(lines: seq<Line>)
    ensures Open(Scan(lines).records, true) == |OrphanIds(lines)|
  {
    var s := Scan(lines);
    var after := Reconcile(s).records;
    ReconcileFromFacts(s.records, s.pendingAnonymous, s.pendingCleanup);
    ReconcileOpen(s.records, s.pendingAnonymous, s.pendingCleanup);
    OpenNames(after);
  }

  // ---------- Unnamed open records along a transcript ----------

  function Unnamed(s: State): nat {
    Open(s.records, false)
  }

  lemma RegisterOneUnnamed(s: State, id: Id, n: nat, text: string)
    requires Inv(s)
    ensures Unnamed(RegisterOne(s, id, n, text)) <= Unnamed(s)
    ensures id !in s.createdById && s.pendingAnonymous != [] && !s.records[s.pendingAnonymous[0]].cleaned ==>
              Unnamed(RegisterOne(s, id, n, text)) < Unnamed(s)
  {
    var r := RegisterOne(s, id, n, text);
    if id in s.createdById {
      OpenUpdate(s.records, s.createdById[id], r.records[s.createdById[id]], false);
    } else if |s.pendingAnonymous| > 0 {
      OpenUpdate(s.records, s.pendingAnonymous[0], r.records[s.pendingAnonymous[0]], false);
    } else {
      OpenAppend(s.records, r.records[|s.records|], false);
    }
  }

  lemma {:induction false} RegisterAllUnnamed(s: State, ids: seq<Id>, n: nat, text: string)
    requires Inv(s)
    ensures Unnamed(RegisterAll(s, ids, n, text)) <= Unnamed(s)
    decreases ids
  {
    if ids != [] {
      RegisterOneInv(s, ids[0], n, text);
      RegisterOneUnnamed(s, ids[0], n, text);
      RegisterAllUnnamed(RegisterOne(s, ids[0], n, text), ids[1..], n, text);
    }
  }

  lemma CleanOneUnnamed(s: State, id: Id)
    requires Inv(s)
    ensures Unnamed(CleanOne(s, id)) <= Unnamed(s)
  {
    if id in s.createdById {
      var i := s.createdById[id];
      OpenUpdate(s.records, i, s.records[i].(cleaned := true), false);
    }
  }

  lemma {:induction false} CleanAllUnnamed(s: State, ids: seq<Id>)
    requires Inv(s)
    ensures Unnamed(CleanAll(s, ids)) <= Unnamed(s)
    decreases ids
  {
    if ids != [] {
      CleanOneInv(s, ids[0]);
      CleanOneUnnamed(s, ids[0]);
      CleanAllUnnamed(CleanOne(s, ids[0]), ids[1..]);
    }
  }

  /** An anonymous destroy closes one open record, if there is one. */
  lemma AnonymousDestroyCloses(s: State)
    requires Inv(s)
    ensures
      var t := Clean(s, []);
      && Open(t.records, true) <= Open(s.records, true) && Unnamed(t) <= Unnamed(s)
      && (Unnamed(s) == 0 && Open(s.records, true) > 0 ==> Open(t.records, true) < Open(s.records, true))
      && (Unnamed(s) > 0 && Open(s.records, true) == 0 ==> Unnamed(t) < Unnamed(s))
  {
    var i := FirstUncleaned(s.records);
    if i == |s.records| {
      NothingOpen(s.records, true);
      NothingOpen(s.records, false);
    } else {
      OpenUpdate(s.records, i, s.records[i].(cleaned := true), true);
      OpenUpdate(s.records, i, s.records[i].(cleaned := true), false);
      SomethingOpen(s.records, i, s.records[i].id.Some?);
    }
  }

  lemma StepUnnamed(s: State, line: Line)
    requires Inv(s)
    ensures Unnamed(Step(s, line)) <= Unnamed(s) + if KindOf(line).AnonymousCreate? then 1 else 0
  {
    match line
    case Create(ids, n, text) =>
      if ids == [] {
        OpenAppend(s.records, Record(None, n, text, false), false);
      } else {
        RegisterAllUnnamed(s, ids, n, text);
      }
    case Destroy(ids) =>
      if ids == [] {
        AnonymousDestroyCloses(s);
      } else {
        CleanAllUnnamed(s, ids);
      }
  }

  function AnonymousCreates(lines: seq<Line>): nat {
    |OfKind(lines, AnonymousCreate)|
  }

  lemma {:induction false} OfKindJoin(a: seq<Line>, b: seq<Line>, kind: Kind)
    ensures OfKind(a + b, kind) == OfKind(a, kind) + OfKind(b, kind)
  {
    if a == [] {
      assert a + b == b;
    } else {
      assert (a + b)[1..] == a[1..] + b;
      OfKindJoin(a[1..], b, kind);
    }
  }

  lemma {:induction false} KindCount(lines: seq<Line>, kind: Kind, x: Line)
    ensures multiset(OfKind(lines, kind))[x] == if KindOf(x) == kind then multiset(lines)[x] else 0
  {
    if lines != [] {
      KindCount(lines[1..], kind, x);
      CountCons(lines[0], lines[1..], x);
      CountCons(lines[0], OfKind(lines[1..], kind), x);
      assert lines == [lines[0]] + lines[1..];
    }
  }

  lemma CreatesPermute(lines: seq<Line>, order: seq<Line>)
    requires multiset(lines) == multiset(order)
    ensures AnonymousCreates(lines) == AnonymousCreates(order)
  {
    var s, t := OfKind(lines, AnonymousCreate), OfKind(order, AnonymousCreate);
    forall x
      ensures multiset(s)[x] == multiset(t)[x]
    {
      KindCount(lines, AnonymousCreate, x);
      KindCount(order, AnonymousCreate, x);
    }
    assert multiset(s) == multiset(t);
    Permuted(s, t);
  }

  lemma {:induction false} UnnamedAtMost(lines: seq<Line>)
    ensures Unnamed(Scan(lines)) <= AnonymousCreates(lines)
  {
    if lines != [] {
      var init, last := lines[..|lines| - 1], lines[|lines| - 1];
      assert lines == init + [last];
      UnnamedAtMost(init);
      StepUnnamed(Scan(init), last);
      OfKindJoin(init, [last], AnonymousCreate);
      assert [last][1..] == [];
    }
  }

  /** The rest of a transcript from a state on. */
  function ScanFrom(s: State, lines: seq<Line>): (t: State)
    requires Inv(s)
    ensures Inv(t)
    decreases |lines|
  {
    if lines == [] then s
    else
      StepInv(s, lines[0]);
      ScanFrom(Step(s, lines[0]), lines[1..])
  }

  lemma MoveOne<T>(a: seq<T>, b: seq<T>)
    requires b != []
    ensures a + [b[0]] + b[1..] == a + b
  {
  }

  lemma {:induction false} ScanJoin(before: seq<Line>, rest: seq<Line>)
    ensures Scan(before + rest) == ScanFrom(Scan(before), rest)
    decreases |rest|
  {
    if rest == [] {
      assert before + rest == before;
    } else {
      ScanSnoc(before, rest[0]);
      ScanJoin(before + [rest[0]], rest[1..]);
      MoveOne(before, rest);
    }
  }

  /** Lines other than anonymous creations leave no more unnamed records open. */
  lemma {:induction false} UnnamedShrinks(s: State, rest: seq<Line>)
    requires Inv(s) && forall line | line in rest :: !KindOf(line).AnonymousCreate?
    ensures Unnamed(ScanFrom(s, rest)) <= Unnamed(s)
    decreases |rest|
  {
    if rest != [] {
      StepInv(s, rest[0]);
      StepUnnamed(s, rest[0]);
      UnnamedShrinks(Step(s, rest[0]), rest[1..]);
    }
  }

  lemma CreateOpens(s: State, line: Line)
    requires Inv(s) && KindOf(line).AnonymousCreate?
    ensures Unnamed(Step(s, line)) == Unnamed(s) + 1 && Open(Step(s, line).records, true) == Open(s.records, true)
  {
    OpenAppend(s.records, Record(None, line.lineNumber, line.text, false), false);
    OpenAppend(s.records, Record(None, line.lineNumber, line.text, false), true);
  }

  /** Anonymous creations at the end stay open, all of them. */
  lemma {:induction false} CreatesStayOpen(s: State, rest: seq<Line>)
    requires Inv(s) && forall line | line in rest :: KindOf(line).AnonymousCreate?
    ensures Unnamed(ScanFrom(s, rest)) == Unnamed(s) + |rest|
    ensures Open(ScanFrom(s, rest).records, true) == Open(s.records, true)
    decreases |rest|
  {
    if rest != [] {
      StepInv(s, rest[0]);
      CreateOpens(s, rest[0]);
      CreatesStayOpen(Step(s, rest[0]), rest[1..]);
    }
  }

  /** Anonymous destroys before everything else do nothing. */
  lemma {:induction false} DestroysOfNothing(destroys: seq<Line>)
    requires forall line | line in destroys :: KindOf(line).AnonymousDestroy?
    ensures ScanFrom(EMPTY, destroys) == EMPTY
    decreases |destroys|
  {
    if destroys != [] {
      assert destroys[0] in destroys;
      assert Step(EMPTY, destroys[0]) == Clean(EMPTY, []) == EMPTY;
      DestroysOfNothing(destroys[1..]);
    }
  }

  lemma FirstDestroysIgnored(destroys: seq<Line>, rest: seq<Line>)
    requires forall line | line in destroys :: KindOf(line).AnonymousDestroy?
    ensures Scan(destroys + rest) == Scan(rest)
  {
    assert [] + destroys == destroys && [] + rest == rest;
    ScanJoin([], destroys);
    DestroysOfNothing(destroys);
    ScanJoin(destroys, rest);
    ScanJoin([], rest);
  }

  /** Anonymous destroys close open records, at least the one they find first. */
  lemma {:induction false} DestroysClose(s: State, destroys: seq<Line>)
    requires Inv(s) && forall line | line in destroys :: KindOf(line).AnonymousDestroy?
    ensures Open(ScanFrom(s, destroys).records, true) <= Open(s.records, true)
    ensures Unnamed(ScanFrom(s, destroys)) <= Unnamed(s)
    ensures destroys != [] && Unnamed(s) == 0 && Open(s.records, true) > 0 ==>
              Open(ScanFrom(s, destroys).records, true) < Open(s.records, true)
    ensures destroys != [] && Unnamed(s) > 0 && Open(s.records, true) == 0 ==>
              Unnamed(ScanFrom(s, destroys)) < Unnamed(s)
    decreases |destroys|
  {
    if destroys != [] {
      StepInv(s, destroys[0]);
      assert destroys[0] in destroys;
      AnonymousDestroyCloses(s);
      assert Step(s, destroys[0]) == Clean(s, []);
      DestroysClose(Step(s, destroys[0]), destroys[1..]);
    }
  }

  /** Creating a session while an open unnamed record waits for a name closes that record to other names. */
  lemma FirstCreateAdopts(s: State, creates: seq<Line>)
    requires Inv(s) && s.createdById == map[] && creates != []
    requires forall line | line in creates :: KindOf(line).NamedCreate?
    requires s.pendingAnonymous != [] && !s.records[s.pendingAnonymous[0]].cleaned
    ensures Unnamed(ScanFrom(s, creates)) < Unnamed(s)
  {
    var line := creates[0];
    assert line in creates;
    var s1 := RegisterOne(s, line.ids[0], line.lineNumber, line.text);
    RegisterOneInv(s, line.ids[0], line.lineNumber, line.text);
    RegisterOneUnnamed(s, line.ids[0], line.lineNumber, line.text);
    RegisterAllUnnamed(s1, line.ids[1..], line.lineNumber, line.text);
    StepInv(s, line);
    UnnamedShrinks(Step(s, line), creates[1..]);
  }

  // ---------- When the order does not matter ----------

  /** What never depends on the order: cleanups of sessions never created, and sessions never cleaned up. */
  ghost function Spare(lines: seq<Line>): set<Id> {
    Destroyed(lines) - Created(lines)
  }

  /** No anonymous destroy can take a session, and every anonymous creation has a cleanup to spare; or nothing is named
      on creation and nothing anonymous on cleanup. */
  ghost predicate Settled(lines: seq<Line>) {
    || (AnonymousCreates(lines) <= |Spare(lines)| && (Destroy([]) !in lines || Created(lines) <= Destroyed(lines)))
    || (Destroy([]) !in lines && Created(lines) == {})
  }

  lemma {:induction false} OnlyAnonymousOpen(lines: seq<Line>)
    requires Destroy([]) !in lines && Created(lines) == {}
    ensures Unnamed(Scan(lines)) == AnonymousCreates(lines)
  {
    if lines != [] {
      var init, last := lines[..|lines| - 1], lines[|lines| - 1];
      assert lines == init + [last];
      NothingCreatedBefore(init, last);
      OnlyAnonymousOpen(init);
      OfKindJoin(init, [last], AnonymousCreate);
      assert [last][1..] == [];
      ScanKnows(init);
      match last
      case Create(ids, n, text) =>
        CreateOpens(Scan(init), last);
      case Destroy(ids) =>
        CleanNothingCreated(Scan(init), ids);
    }
  }

  lemma NothingCreatedBefore(init: seq<Line>, last: Line)
    requires Destroy([]) !in init + [last] && Created(init + [last]) == {}
    ensures Destroy([]) !in init && Created(init) == {} && last != Destroy([]) && (last.Create? ==> last.ids == [])
  {
    var lines := init + [last];
    assert last in lines;
    assert forall line | line in init :: line in lines;
    if last.Create? {
      EmptyOrMember(last.ids);
      assert forall id | id in last.ids :: id in Created(lines);
    }
    forall id | id in Created(init)
      ensures id in Created(lines)
    {
      var line :| line in init && line.Create? && id in line.ids;
      assert line in lines;
    }
  }

  lemma {:induction false} CleanNothingCreated(s: State, ids: seq<Id>)
    requires Inv(s) && s.createdById == map[]
    ensures CleanAll(s, ids).records == s.records
    decreases ids
  {
    if ids != [] {
      CleanOneInv(s, ids[0]);
      CleanNothingCreated(CleanOne(s, ids[0]), ids[1..]);
    }
  }

  /** The number of findings of a settled transcript, in whatever order. */
  ghost function SettledFindings(lines: seq<Line>): nat {
    |Created(lines) - Destroyed(lines)| + Excess(AnonymousCreates(lines), |Spare(lines)|)
  }

  lemma SettledCount(lines: seq<Line>)
    requires Settled(lines)
    ensures |Orphans(lines)| == SettledFindings(lines)
  {
    FindingsOf(lines);
    NamedFindings(lines);
    UnnamedAtMost(lines);
    if Destroy([]) !in lines {
      NamedOrphansExact(lines);
    } else {
      NamedCleanupAlwaysCounts(lines);
      assert Created(lines) - Destroyed(lines) == {};
    }
    if AnonymousCreates(lines) > |Spare(lines)| {
      OnlyAnonymousOpen(lines);
    }
  }

  // ---------- Two orders that differ otherwise ----------

  lemma ThreeParts<T>(a: seq<T>, b: seq<T>, c: seq<T>)
    ensures multiset(a + b + c) == multiset(a) + multiset(b) + multiset(c)
  {
  }

  ghost predicate AllOf(lines: seq<Line>, kind: Kind) {
    forall line | line in lines :: KindOf(line) == kind
  }

  lemma CreatesAppended(before: seq<Line>, creates: seq<Line>)
    requires AllOf(creates, AnonymousCreate)
    ensures Unnamed(Scan(before + creates)) == Unnamed(Scan(before)) + |creates|
    ensures Open(Scan(before + creates).records, true) == Open(Scan(before).records, true)
  {
    ScanJoin(before, creates);
    CreatesStayOpen(Scan(before), creates);
  }

  /** Anonymous destroys first and anonymous creations last: the most findings. */
  lemma MostOpen(destroys: seq<Line>, named: seq<Line>, creates: seq<Line>)
    requires AllOf(destroys, AnonymousDestroy) && AllOf(creates, AnonymousCreate) && Unnamed(Scan(named)) == 0
    ensures
      var s := Scan(destroys + named + creates);
      Unnamed(s) == |creates| && Open(s.records, true) == Open(Scan(named).records, true)
  {
    FirstDestroysIgnored(destroys, named);
    CreatesAppended(destroys + named, creates);
  }

  /** Anonymous destroys between the named lines and the anonymous creations take an undestroyed session. */
  lemma HidingOpen(named: seq<Line>, destroys: seq<Line>, creates: seq<Line>)
    requires AllOf(destroys, AnonymousDestroy) && AllOf(creates, AnonymousCreate) && Unnamed(Scan(named)) == 0
    requires destroys != [] && Open(Scan(named).records, true) > 0
    ensures
      var s := Scan(named + destroys + creates);
      Unnamed(s) == |creates| && Open(s.records, true) < Open(Scan(named).records, true)
  {
    ScanJoin(named, destroys);
    DestroysClose(Scan(named), destroys);
    CreatesAppended(named + destroys, creates);
  }

  /** Anonymous destroys at the end take anonymous creations, when no named session is open. */
  lemma TakingOpen(named: seq<Line>, creates: seq<Line>, destroys: seq<Line>)
    requires AllOf(destroys, AnonymousDestroy) && AllOf(creates, AnonymousCreate) && Unnamed(Scan(named)) == 0
    requires destroys != [] && creates != [] && Open(Scan(named).records, true) == 0
    ensures
      var s := Scan(named + creates + destroys);
      Unnamed(s) < |creates| && Open(s.records, true) == 0
  {
    CreatesAppended(named, creates);
    ScanJoin(named + creates, destroys);
    DestroysClose(Scan(named + creates), destroys);
  }

  /** After the named lines: as many open records as undestroyed sessions, all named. */
  lemma NamedState(lines: seq<Line>)
    ensures Unnamed(Scan(NamedLines(lines))) == 0
    ensures Open(Scan(NamedLines(lines)).records, true) == |Created(lines) - Destroyed(lines)|
    ensures Scan(NamedLines(lines)).pendingAnonymous == []
  {
    var named := NamedLines(lines);
    NamedLinesFacts(lines);
    NothingAnonymous(named);
    assert Destroy([]) !in named;
    NamedOrphansExact(named);
    NamedFindings(named);
    UnnamedAtMost(named);
    NoneOfKind(named, AnonymousCreate);
  }

  lemma NoneOfKind(lines: seq<Line>, kind: Kind)
    requires forall line | line in lines :: KindOf(line) != kind
    ensures OfKind(lines, kind) == []
  {
    EmptyOrMember(OfKind(lines, kind));
  }

  function Destroys(lines: seq<Line>): (r: seq<Line>)
    ensures AllOf(r, AnonymousDestroy)
  {
    OfKind(lines, AnonymousDestroy)
  }

  function Creates(lines: seq<Line>): (r: seq<Line>)
    ensures AllOf(r, AnonymousCreate)
  {
    OfKind(lines, AnonymousCreate)
  }

  /** The three orders: all permute the lines. */
  lemma OrdersPermute(lines: seq<Line>)
    ensures multiset(Destroys(lines) + NamedLines(lines) + Creates(lines)) == multiset(lines)
    ensures multiset(NamedLines(lines) + Destroys(lines) + Creates(lines)) == multiset(lines)
    ensures multiset(NamedLines(lines) + Creates(lines) + Destroys(lines)) == multiset(lines)
  {
    NamedFirst(lines);
    ThreeParts(Destroys(lines), NamedLines(lines), Creates(lines));
    ThreeParts(NamedLines(lines), Destroys(lines), Creates(lines));
    ThreeParts(NamedLines(lines), Creates(lines), Destroys(lines));
  }

  /** Findings of an order in terms of its last state. */
  lemma FindingsAfter(lines: seq<Line>, order: seq<Line>)
    requires multiset(order) == multiset(lines)
    ensures |Orphans(order)| == Open(Scan(order).records, true) + Excess(Unnamed(Scan(order)), |Spare(lines)|)
  {
    FindingsOf(order);
    SameWords(lines, order);
  }

  lemma MostFindings(lines: seq<Line>) returns (order: seq<Line>)
    ensures multiset(order) == multiset(lines) && |Orphans(order)| == SettledFindings(lines)
  {
    order := Destroys(lines) + NamedLines(lines) + Creates(lines);
    OrdersPermute(lines);
    NamedState(lines);
    MostOpen(Destroys(lines), NamedLines(lines), Creates(lines));
    FindingsAfter(lines, order);
  }

  lemma FewerByHiding(lines: seq<Line>) returns (order: seq<Line>)
    requires Destroy([]) in lines && !(Created(lines) <= Destroyed(lines))
    ensures multiset(order) == multiset(lines) && |Orphans(order)| < SettledFindings(lines)
  {
    order := NamedLines(lines) + Destroys(lines) + Creates(lines);
    OrdersPermute(lines);
    NamedState(lines);
    FirstAnonymous(lines);
    SomeUndestroyed(lines);
    HidingOpen(NamedLines(lines), Destroys(lines), Creates(lines));
    FindingsAfter(lines, order);
  }

  lemma SomeUndestroyed(lines: seq<Line>)
    requires !(Created(lines) <= Destroyed(lines))
    ensures |Created(lines) - Destroyed(lines)| > 0
  {
    var id :| id in Created(lines) && id !in Destroyed(lines);
    assert id in Created(lines) - Destroyed(lines);
  }

  lemma FewerByTaking(lines: seq<Line>) returns (order: seq<Line>)
    requires Destroy([]) in lines && Created(lines) <= Destroyed(lines) && AnonymousCreates(lines) > |Spare(lines)|
    ensures multiset(order) == multiset(lines) && |Orphans(order)| < SettledFindings(lines)
  {
    order := NamedLines(lines) + Creates(lines) + Destroys(lines);
    OrdersPermute(lines);
    NamedState(lines);
    FirstAnonymous(lines);
    assert Created(lines) - Destroyed(lines) == {};
    TakingOpen(NamedLines(lines), Creates(lines), Destroys(lines));
    FindingsAfter(lines, order);
  }

  /** Named creations after anonymous ones give them their names, so there are fewer records. */
  lemma FewerByAdopting(lines: seq<Line>) returns (order: seq<Line>)
    requires Destroy([]) !in lines && Created(lines) != {} && AnonymousCreates(lines) > |Spare(lines)|
    ensures multiset(order) == multiset(lines) && |Orphans(order)| < SettledFindings(lines)
  {
    var before, creates := OfKind(lines, NamedDestroy) + Creates(lines), OfKind(lines, NamedCreate);
    order := before + creates;
    AdoptingPermutes(lines);
    BeforeAdopting(lines);
    SomeNamedCreate(lines);
    AdoptingOpen(before, creates);
    FindingsAfter(lines, order);
    UndestroyedOpen(lines, order);
  }

  lemma AdoptingOpen(before: seq<Line>, creates: seq<Line>)
    requires Scan(before).createdById == map[] && creates != [] && AllOf(creates, NamedCreate)
    requires Scan(before).pendingAnonymous != [] && !Scan(before).records[Scan(before).pendingAnonymous[0]].cleaned
    ensures Unnamed(Scan(before + creates)) < Unnamed(Scan(before))
  {
    ScanJoin(before, creates);
    FirstCreateAdopts(Scan(before), creates);
  }

  lemma UndestroyedOpen(lines: seq<Line>, order: seq<Line>)
    requires Destroy([]) !in lines && multiset(order) == multiset(lines)
    ensures Open(Scan(order).records, true) == |Created(lines) - Destroyed(lines)|
  {
    SameWords(lines, order);
    NamedFindings(order);
    NamedOrphansExact(order);
  }

  lemma AdoptingPermutes(lines: seq<Line>)
    requires Destroy([]) !in lines
    ensures multiset(OfKind(lines, NamedDestroy) + Creates(lines) + OfKind(lines, NamedCreate)) == multiset(lines)
  {
    FourKinds(lines);
    NoAnonymousDestroy(lines);
    ThreeParts(OfKind(lines, NamedDestroy), Creates(lines), OfKind(lines, NamedCreate));
  }

  lemma NoAnonymousDestroy(lines: seq<Line>)
    requires Destroy([]) !in lines
    ensures OfKind(lines, AnonymousDestroy) == []
  {
    NoneOfKind(lines, AnonymousDestroy);
  }

  lemma SomeNamedCreate(lines: seq<Line>)
    requires Created(lines) != {}
    ensures OfKind(lines, NamedCreate) != []
  {
    var id :| id in Created(lines);
    var line :| line in lines && line.Create? && id in line.ids;
    assert line in OfKind(lines, NamedCreate);
  }

  /** Only anonymous creations so far: the first of them waits for a name. */
  lemma BeforeAdopting(lines: seq<Line>)
    requires AnonymousCreates(lines) > 0
    ensures
      var s := Scan(OfKind(lines, NamedDestroy) + Creates(lines));
      && s.createdById == map[] && Unnamed(s) == AnonymousCreates(lines)
      && s.pendingAnonymous != [] && !s.records[s.pendingAnonymous[0]].cleaned
  {
    var destroys, anonymous := OfKind(lines, NamedDestroy), Creates(lines);
    var before := destroys + anonymous;
    var s := Scan(before);
    ScanKnows(before);
    assert Created(before) == {};
    assert s.createdById.Keys == {};
    assert Destroy([]) !in before;
    OnlyAnonymousOpen(before);
    OfKindJoin(destroys, anonymous, AnonymousCreate);
    KindOfKind(destroys, anonymous);
    WaitsForName(s);
  }

  lemma KindOfKind(destroys: seq<Line>, anonymous: seq<Line>)
    requires forall line | line in destroys :: KindOf(line).NamedDestroy?
    requires forall line | line in anonymous :: KindOf(line).AnonymousCreate?
    ensures OfKind(destroys, AnonymousCreate) == [] && OfKind(anonymous, AnonymousCreate) == anonymous
  {
    NoneOfKind(destroys, AnonymousCreate);
    AllOfKind(anonymous);
  }

  lemma {:induction false} AllOfKind(anonymous: seq<Line>)
    requires forall line | line in anonymous :: KindOf(line).AnonymousCreate?
    ensures OfKind(anonymous, AnonymousCreate) == anonymous
  {
    if anonymous != [] {
      AllOfKind(anonymous[1..]);
    }
  }

  lemma WaitsForName(s: State)
    requires Inv(s) && Unnamed(s) > 0 && CleanedByName(s, {})
    ensures s.pendingAnonymous != [] && !s.records[s.pendingAnonymous[0]].cleaned
  {
    if forall i | 0 <= i < |s.records| :: IsOpen(s.records[i], false) == 0 {
      NothingOpen(s.records, false);
    }
  }

  /** The number of findings is the same in every order of the lines if and only if the transcript is settled. */
  lemma FindingsInEveryOrderIff(lines: seq<Line>)
    ensures (forall order | multiset(order) == multiset(lines) :: |Orphans(order)| == |Orphans(lines)|) <==>
            Settled(lines)
  {
    if Settled(lines) {
      forall order | multiset(order) == multiset(lines)
        ensures |Orphans(order)| == |Orphans(lines)|
      {
        SameWords(lines, order);
        CreatesPermute(lines, order);
        SettledCount(lines);
        SettledCount(order);
      }
    } else {
      var order := Fewer(lines);
      var most := MostFindings(lines);
    }
  }

  lemma Fewer(lines: seq<Line>) returns (order: seq<Line>)
    requires !Settled(lines)
    ensures multiset(order) == multiset(lines) && |Orphans(order)| < SettledFindings(lines)
  {
    if Destroy([]) !in lines {
      order := FewerByAdopting(lines);
    } else if Created(lines) <= Destroyed(lines) {
      order := FewerByTaking(lines);
    } else {
      order := FewerByHiding(lines);
    }
  }
}
