/** Filtering and mapping a list, stated by positions. */
module Sublists {
  import opened Collections

  /** `found` is what `pick` makes of the elements it takes, in order and once for each; `at` are their positions. */
  ghost predicate PicksAt<A(!new), B(!new)>(found: seq<B>, all: seq<A>, pick: (nat, A) -> Option<B>, at: seq<nat>) {
    && |at| == |found| && Ascending(at)
    && (forall k | 0 <= k < |at| :: at[k] < |all| && pick(at[k], all[at[k]]) == Some(found[k]))
    && forall i: nat {:trigger i in at} | i < |all| :: i in at <==> pick(i, all[i]).Some?
  }

  ghost predicate Picked<A(!new), B(!new)>(found: seq<B>, all: seq<A>, pick: (nat, A) -> Option<B>) {
    exists at :: PicksAt(found, all, pick, at)
  }

  lemma NothingPicked<A(!new), B(!new)>(pick: (nat, A) -> Option<B>)
    ensures Picked([], [], pick)
  {
    assert PicksAt([], [], pick, []);
  }

  lemma PickedNext<A(!new), B(!new)>(found: seq<B>, all: seq<A>, pick: (nat, A) -> Option<B>, x: A, next: seq<B>)
    requires Picked(found, all, pick)
    requires pick(|all|, x).None? ==> next == found
    requires pick(|all|, x).Some? ==> next == found + [pick(|all|, x).value]
    ensures Picked(next, all + [x], pick)
  {
    if pick(|all|, x).Some? {
      OneMorePicked(found, all, pick, x);
    } else {
      OneSkipped(found, all, pick, x);
    }
  }

  lemma OneMorePicked<A(!new), B(!new)>(found: seq<B>, all: seq<A>, pick: (nat, A) -> Option<B>, x: A)
    requires Picked(found, all, pick) && pick(|all|, x).Some?
    ensures Picked(found + [pick(|all|, x).value], all + [x], pick)
  {
    var at: seq<nat> :| PicksAt(found, all, pick, at);
    var longer: seq<nat> := at + [|all|];
    assert longer[|at|] == |all|;
    forall i: nat | i < |all + [x]|
      ensures i in longer <==> pick(i, (all + [x])[i]).Some?
    {
      assert i in longer <==> i in at || i == |all|;
    }
    assert PicksAt(found + [pick(|all|, x).value], all + [x], pick, longer);
  }

  lemma OneSkipped<A(!new), B(!new)>(found: seq<B>, all: seq<A>, pick: (nat, A) -> Option<B>, x: A)
    requires Picked(found, all, pick) && pick(|all|, x).None?
    ensures Picked(found, all + [x], pick)
  {
    var at: seq<nat> :| PicksAt(found, all, pick, at);
    forall i: nat | i < |all + [x]|
      ensures i in at <==> pick(i, (all + [x])[i]).Some?
    {
      if i == |all| {
        assert forall k | 0 <= k < |at| :: at[k] != i;
      }
    }
    assert PicksAt(found, all + [x], pick, at);
  }

  // ---------- Filters ----------

  function Keep<T>(keep: T -> bool): (nat, T) -> Option<T> {
    (i: nat, x: T) => if keep(x) then Some(x) else None
  }

  /** `found` is exactly what `keep` keeps of `all`, in order and as often as it occurs. */
  ghost predicate Listed<T(!new)>(found: seq<T>, all: seq<T>, keep: T -> bool) {
    Picked(found, all, Keep(keep))
  }

  lemma NothingListed<T(!new)>(keep: T -> bool)
    ensures Listed([], [], keep)
  {
    NothingPicked(Keep(keep));
  }

  lemma ListedNext<T(!new)>(found: seq<T>, all: seq<T>, keep: T -> bool, x: T, next: seq<T>)
    requires Listed(found, all, keep) && next == found + if keep(x) then [x] else []
    ensures Listed(next, all + [x], keep)
  {
    assert found + [] == found;
    PickedNext(found, all, Keep(keep), x, next);
  }

  lemma {:induction false} InOrderListed<T(!new)>(order: seq<T>, present: set<T>, keep: T -> bool)
    requires forall x :: keep(x) <==> x in present
    ensures Listed(InOrder(order, present), order, keep)
  {
    if order == [] {
      NothingListed(keep);
    } else {
      var init, last := order[..|order| - 1], order[|order| - 1];
      assert order == init + [last];
      InOrderListed(init, present, keep);
      ListedNext(InOrder(init, present), init, keep, last, InOrder(order, present));
    }
  }
}
