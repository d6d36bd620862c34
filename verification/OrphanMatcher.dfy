/** The matcher in the form of the code: lists, a map and a set updated line by line. */
module OrphanMatcher {
  import opened Collections
  import opened OrphanedSessions

  class Matcher {
    var records: seq<Record>
    var createdById: map<Id, nat>
    var pendingAnonymous: seq<nat>
    var pendingCleanup: seq<Id>

    ghost function View(): State
      reads this
    {
      State(records, createdById, pendingAnonymous, pendingCleanup)
    }

    ghost predicate Valid()
      reads this
    {
      OrphanedSessions.Inv(View())
    }

    constructor ()
      ensures Valid() && View() == EMPTY
    {
      records, createdById, pendingAnonymous, pendingCleanup := [], map[], [], [];
    }

    method RegisterSession(id: Id, lineNumber: nat, text: string)
      requires Valid()
      modifies this
      ensures Valid() && View() == RegisterOne(old(View()), id, lineNumber, text)
    {
      RegisterOneInv(View(), id, lineNumber, text);
      var found := id in pendingCleanup;
      pendingCleanup := Delete(pendingCleanup, id);
      if id in createdById {
        var record := records[createdById[id]];
        if found {
          record := record.(cleaned := true);
        }
        records := records[createdById[id] := record];
      } else if |pendingAnonymous| > 0 {
        var i := pendingAnonymous[0];
        pendingAnonymous := pendingAnonymous[1..];
        var record := records[i].(id := Some(id));
        if found {
          record := record.(cleaned := true);
        }
        records := records[i := record];
        createdById := createdById[id := i];
      } else {
        records := records + [Record(Some(id), lineNumber, text, found)];
        createdById := createdById[id := |records| - 1];
      }
      assert View() == RegisterOne(old(View()), id, lineNumber, text);
    }

    method RegisterCreation(ids: seq<Id>, lineNumber: nat, text: string)
      requires Valid()
      modifies this
      ensures Valid() && View() == Register(old(View()), ids, lineNumber, text)
    {
      StepInv(View(), Create(ids, lineNumber, text));
      if |ids| == 0 {
        records := records + [Record(None, lineNumber, text, false)];
        pendingAnonymous := pendingAnonymous + [|records| - 1];
        return;
      }
      for k := 0 to |ids|
        invariant Valid()
        invariant RegisterAll(View(), ids[k..], lineNumber, text) == RegisterAll(old(View()), ids, lineNumber, text)
      {
        assert ids[k..][1..] == ids[k + 1..];
        RegisterSession(ids[k], lineNumber, text);
      }
    }

    method MarkNamed(ids: seq<Id>)
      requires Valid()
      modifies this
      ensures Valid() && View() == CleanAll(old(View()), ids)
    {
      for k := 0 to |ids|
        invariant Valid()
        invariant CleanAll(View(), ids[k..]) == CleanAll(old(View()), ids)
      {
        assert ids[k..][1..] == ids[k + 1..];
        MarkOne(ids[k]);
      }
    }

    method MarkOne(id: Id)
      requires Valid()
      modifies this
      ensures Valid() && View() == CleanOne(old(View()), id)
    {
      CleanOneInv(View(), id);
      if id in createdById {
        var i := createdById[id];
        records := records[i := records[i].(cleaned := true)];
      } else {
        pendingCleanup := Add(pendingCleanup, id);
      }
    }

    method MarkCleanup(ids: seq<Id>)
      requires Valid()
      modifies this
      ensures Valid() && View() == Clean(old(View()), ids)
    {
      if |ids| > 0 {
        MarkNamed(ids);
        return;
      }
      AnonymousDestroyInv(View());
      var i := 0;
      while i < |records| && records[i].cleaned
        invariant i <= |records|
        invariant forall j | 0 <= j < i :: records[j].cleaned
      {
        i := i + 1;
      }
      assert i == FirstUncleaned(records);
      if i < |records| {
        records := records[i := records[i].(cleaned := true)];
      }
    }

    method ReadLine(line: Line)
      requires Valid()
      modifies this
      ensures Valid() && View() == Step(old(View()), line)
    {
      match line
      case Create(ids, lineNumber, text) => RegisterCreation(ids, lineNumber, text);
      case Destroy(ids) => MarkCleanup(ids);
    }

    method ReconcileAnonymous()
      requires Valid()
      modifies this
      ensures View() == Reconcile(old(View()))
    {
      for k := 0 to |pendingAnonymous|
        invariant pendingAnonymous == old(pendingAnonymous) && createdById == old(createdById)
        invariant |records| == |old(records)|
        invariant forall j | 0 <= j < |pendingAnonymous| :: pendingAnonymous[j] < |records|
        invariant ReconcileFrom(records, pendingAnonymous[k..], pendingCleanup) ==
                  ReconcileFrom(old(records), pendingAnonymous, old(pendingCleanup))
      {
        if |pendingCleanup| == 0 {
          break;
        }
        assert pendingAnonymous[k..][1..] == pendingAnonymous[k + 1..];
        var index := pendingAnonymous[k];
        var record := records[index];
        if record.cleaned || record.id.Some? {
          continue;
        }
        records := records[index := record.(cleaned := true)];
        pendingCleanup := pendingCleanup[1..];
      }
    }
  }

  /** One finding per record that stays uncleaned. */
  method DetectOrphanedSessions(lines: seq<Line>) returns (orphans: seq<Record>)
    ensures orphans == Orphans(lines)
  {
    var matcher := new Matcher();
    for k := 0 to |lines|
      invariant fresh(matcher) && matcher.Valid()
      invariant matcher.View() == Scan(lines[..k])
    {
      assert lines[..k + 1] == lines[..k] + [lines[k]];
      ScanSnoc(lines[..k], lines[k]);
      matcher.ReadLine(lines[k]);
    }
    assert lines[..|lines|] == lines;
    matcher.ReconcileAnonymous();
    orphans := Uncleaned(matcher.records);
  }
}
