/** Exactly when the named findings do not depend on the order of a transcript's lines. */
module OrphanedOrder {
  import opened Collections
  import opened OrphanedSessions

  /** The named findings are the ids created and never destroyed. */
  ghost predicate Exact(lines: seq<Line>) {
    OrphanIds(lines) == Created(lines) - Destroyed(lines)
  }

  // ---------- A cleaned session stays cleaned ----------

  ghost predicate Cleaned(s: State, id: Id) {
    Inv(s) && id in s.createdById && s.records[s.createdById[id]].cleaned
  }

  lemma RegisterOneLeaves(s: State, x: Id, n: nat, text: string, id: Id)
    requires Cleaned(s, id)
    ensures Cleaned(RegisterOne(s, x, n, text), id)
  {
    RegisterOneInv(s, x, n, text);
    assert s.records[s.createdById[id]].id == Some(id);
  }

  lemma {:induction false} RegisterAllLeaves(s: State, ids: seq<Id>, n: nat, text: string, id: Id)
    requires Cleaned(s, id)
    ensures Cleaned(RegisterAll(s, ids, n, text), id)
    decreases ids
  {
    if ids != [] {
      RegisterOneLeaves(s, ids[0], n, text, id);
      RegisterAllLeaves(RegisterOne(s, ids[0], n, text), ids[1..], n, text, id);
    }
  }

  lemma CleanOneLeaves(s: State, x: Id, id: Id)
    requires Cleaned(s, id)
    ensures Cleaned(CleanOne(s, x), id)
  {
    CleanOneInv(s, x);
  }

  lemma {:induction false} CleanAllLeaves(s: State, ids: seq<Id>, id: Id)
    requires Cleaned(s, id)
    ensures Cleaned(CleanAll(s, ids), id)
    decreases ids
  {
    if ids != [] {
      CleanOneLeaves(s, ids[0], id);
      CleanAllLeaves(CleanOne(s, ids[0]), ids[1..], id);
    }
  }

  lemma AnonymousLeaves(s: State, n: nat, text: string, id: Id)
    requires Cleaned(s, id)
    ensures Cleaned(Register(s, [], n, text), id) && Cleaned(Clean(s, []), id)
  {
    AnonymousCreateInv(s, n, text);
    AnonymousDestroyInv(s);
  }

  lemma {:induction false} ScanLeaves(before: seq<Line>, rest: seq<Line>, id: Id)
    requires Cleaned(Scan(before), id)
    ensures Cleaned(Scan(before + rest), id)
    decreases |rest|
  {
    if rest == [] {
      assert before + rest == before;
    } else {
      var init, last := rest[..|rest| - 1], rest[|rest| - 1];
      ScanLeaves(before, init, id);
      assert (before + rest)[..|before + rest| - 1] == before + init;
      var s := Scan(before + init);
      match last
      case Create(ids, n, text) =>
        if ids == [] {
          AnonymousLeaves(s, n, text, id);
        } else {
          RegisterAllLeaves(s, ids, n, text, id);
        }
      case Destroy(ids) =>
        if ids == [] {
          AnonymousLeaves(s, 0, "", id);
        } else {
          CleanAllLeaves(s, ids, id);
        }
    }
  }

  lemma CleanedNotReported(lines: seq<Line>, id: Id)
    requires Cleaned(Scan(lines), id)
    ensures id !in OrphanIds(lines)
  {
    var s := Scan(lines);
    ReconcileFromFacts(s.records, s.pendingAnonymous, s.pendingCleanup);
    forall r | r in Orphans(lines)
      ensures r.id != Some(id)
    {
      var i :| 0 <= i < |s.records| && Reconcile(s).records[i] == r;
      assert s.records[i].id == r.id;
    }
  }

  // ---------- An order in which an anonymous destroy hides a session ----------

  datatype Kind = AnonymousDestroy | NamedDestroy | NamedCreate | AnonymousCreate

  function KindOf(line: Line): Kind {
    match line
    case Create(ids, _, _) => if ids == [] then AnonymousCreate else NamedCreate
    case Destroy(ids) => if ids == [] then AnonymousDestroy else NamedDestroy
  }

  function OfKind(lines: seq<Line>, kind: Kind): (r: seq<Line>)
    ensures forall line :: line in r <==> line in lines && KindOf(line) == kind
  {
    if lines == [] then []
    else
      assert lines == [lines[0]] + lines[1..];
      (if KindOf(lines[0]) == kind then [lines[0]] else []) + OfKind(lines[1..], kind)
  }

  /** Every line is of one of the four kinds. */
  lemma {:induction false} FourKinds(lines: seq<Line>)
    ensures multiset(OfKind(lines, AnonymousDestroy)) + multiset(OfKind(lines, NamedDestroy)) +
            multiset(OfKind(lines, NamedCreate)) + multiset(OfKind(lines, AnonymousCreate)) == multiset(lines)
  {
    if lines != [] {
      FourKinds(lines[1..]);
      assert lines == [lines[0]] + lines[1..];
    }
  }

  lemma MoveHead<T>(front: seq<T>, middle: seq<T>, last: seq<T>)
    requires middle != []
    ensures front + middle + last == front + [middle[0]] + (middle[1..] + last)
  {
    assert middle == [middle[0]] + middle[1..];
  }

  lemma FirstAnonymous(lines: seq<Line>)
    requires Destroy([]) in lines
    ensures OfKind(lines, AnonymousDestroy) != [] && OfKind(lines, AnonymousDestroy)[0] == Destroy([])
  {
    assert Destroy([]) in OfKind(lines, AnonymousDestroy);
    assert OfKind(lines, AnonymousDestroy)[0] in OfKind(lines, AnonymousDestroy);
  }

  /** After lines that all name their sessions, an anonymous destroy takes the cleanup of a session that nobody
      destroyed, if there is one. */
  lemma HidesFirst(front: seq<Line>, id: Id) returns (hidden: Id)
    requires AllNamed(front) && id in Created(front) - Destroyed(front)
    ensures hidden in Created(front) - Destroyed(front) && Cleaned(Scan(front + [Destroy([])]), hidden)
  {
    ScanKnows(front);
    NothingAnonymous(front);
    assert Destroy([]) !in front;
    hidden := TakesFirst(Scan(front), Created(front), Destroyed(front), id);
    assert (front + [Destroy([])])[..|front|] == front;
  }

  /** If some created session was not destroyed, the first uncleaned record is such a session's. */
  lemma TakesFirst(s: State, created: set<Id>, destroyed: set<Id>, id: Id) returns (hidden: Id)
    requires Knows(s, created, destroyed) && CleanedByName(s, destroyed) && s.pendingAnonymous == []
    requires id in created && id !in destroyed
    ensures hidden in created && hidden !in destroyed && Cleaned(Clean(s, []), hidden)
  {
    assert s.records[s.createdById[id]].id == Some(id);
    var i := FirstUncleaned(s.records);
    assert s.records[i].id.Some?;
    hidden := s.records[i].id.value;
    AnonymousDestroyInv(s);
  }

  lemma HiddenStays(front: seq<Line>, rest: seq<Line>, id: Id) returns (hidden: Id)
    requires AllNamed(front) && id in Created(front) - Destroyed(front)
    ensures hidden in Created(front) - Destroyed(front) && hidden !in OrphanIds(front + [Destroy([])] + rest)
  {
    hidden := HidesFirst(front, id);
    ScanLeaves(front + [Destroy([])], rest, hidden);
    CleanedNotReported(front + [Destroy([])] + rest, hidden);
  }

  lemma OneCreated(n: nat, text: string)
    ensures Created([Create(["a"], n, text)]) == {"a"} && Destroyed([Create(["a"], n, text)]) == {}
    ensures Created([Create(["a"], n, text), Destroy([])]) == {"a"}
    ensures Destroyed([Create(["a"], n, text), Destroy([])]) == {}
  {
    var create := Create(["a"], n, text);
    assert create in [create] && create in [create, Destroy([])] && "a" in create.ids;
  }

  /** The smallest case: an anonymous destroy hides a session that was created by name and never destroyed. */
  lemma AnonymousDestroyHides(n: nat, text: string)
    ensures
      var lines := [Create(["a"], n, text), Destroy([])];
      OrphanIds(lines) == {} && "a" in Created(lines) - Destroyed(lines)
  {
    var front := [Create(["a"], n, text)];
    OneCreated(n, text);
    var hidden := HiddenStays(front, [], "a");
    assert front + [Destroy([])] + [] == [Create(["a"], n, text), Destroy([])];
    NamedCleanupAlwaysCounts([Create(["a"], n, text), Destroy([])]);
  }

  /** What the two named kinds say is all that a transcript says about sessions. */
  lemma SameNames(lines: seq<Line>, front: seq<Line>)
    requires forall line :: line in front <==>
               line in lines && (KindOf(line).NamedDestroy? || KindOf(line).NamedCreate?)
    ensures Created(front) == Created(lines) && Destroyed(front) == Destroyed(lines) && AllNamed(front)
  {
    forall id | id in Created(lines)
      ensures id in Created(front)
    {
      var line :| line in lines && line.Create? && id in line.ids;
      assert line in front;
    }
    forall id | id in Destroyed(lines)
      ensures id in Destroyed(front)
    {
      var line :| line in lines && line.Destroy? && id in line.ids;
      assert line in front;
    }
  }

  function NamedLines(lines: seq<Line>): seq<Line> {
    OfKind(lines, NamedDestroy) + OfKind(lines, NamedCreate)
  }

  lemma NamedLinesFacts(lines: seq<Line>)
    ensures Created(NamedLines(lines)) == Created(lines) && Destroyed(NamedLines(lines)) == Destroyed(lines)
    ensures AllNamed(NamedLines(lines))
  {
    SameNames(lines, NamedLines(lines));
  }

  lemma NotExactAfter(front: seq<Line>, anonymous: seq<Line>, last: seq<Line>, id: Id)
    requires AllNamed(front) && anonymous != [] && anonymous[0] == Destroy([])
    requires id in Created(front) - Destroyed(front)
    requires Created(front + anonymous + last) == Created(front)
    requires Destroyed(front + anonymous + last) == Destroyed(front)
    ensures !Exact(front + anonymous + last)
  {
    MoveHead(front, anonymous, last);
    var hidden := HiddenStays(front, anonymous[1..] + last, id);
  }

  lemma NamedFirst(lines: seq<Line>)
    ensures multiset(NamedLines(lines) + OfKind(lines, AnonymousDestroy) + OfKind(lines, AnonymousCreate)) ==
            multiset(lines)
  {
    FourKinds(lines);
  }

  lemma HidingOrder(lines: seq<Line>, id: Id) returns (order: seq<Line>)
    requires Destroy([]) in lines && id in Created(lines) - Destroyed(lines)
    ensures multiset(order) == multiset(lines) && !Exact(order)
  {
    var anonymous, last := OfKind(lines, AnonymousDestroy), OfKind(lines, AnonymousCreate);
    order := NamedLines(lines) + anonymous + last;
    NamedFirst(lines);
    NamedLinesFacts(lines);
    FirstAnonymous(lines);
    SameWords(lines, order);
    NotExactAfter(NamedLines(lines), anonymous, last, id);
  }

  /** The named findings are exact in every order of the lines if and only if there is no anonymous destroy, or every
      created session is also destroyed by name. */
  lemma ExactInEveryOrderIff(lines: seq<Line>)
    ensures (forall order | multiset(order) == multiset(lines) :: Exact(order)) <==>
            Destroy([]) !in lines || Created(lines) <= Destroyed(lines)
  {
    if Destroy([]) !in lines || Created(lines) <= Destroyed(lines) {
      forall order | multiset(order) == multiset(lines)
        ensures Exact(order)
      {
        SameWords(lines, order);
        if Destroy([]) !in lines {
          NamedOrphansExact(order);
        } else {
          NamedCleanupAlwaysCounts(order);
        }
      }
    } else {
      var id :| id in Created(lines) && id !in Destroyed(lines);
      var order := HidingOrder(lines, id);
    }
  }
}
