/** Small value types and sequence facts shared by the models. */
module Collections {

  datatype Option<+T> = None | Some(value: T)

  datatype Result<+T, +E> = Ok(value: T) | Err(error: E)

  ghost predicate Distinct<T>(s: seq<T>) {
    forall i, j | 0 <= i < j < |s| :: s[i] != s[j]
  }

  ghost predicate Ascending(s: seq<nat>) {
    forall i, j | 0 <= i < j < |s| :: s[i] < s[j]
  }

  lemma AscendingSnoc(s: seq<nat>, x: nat)
    requires Ascending(s) && forall k | k in s :: k < x
    ensures Ascending(s + [x])
  {
    assert forall i | 0 <= i < |s| :: s[i] in s;
  }

  lemma EmptyOrMember<T>(s: seq<T>)
    ensures s == [] || exists x :: x in s
  {
    if s != [] {
      assert s[0] in s;
    }
  }

  ghost function SetOf<T>(s: seq<T>): set<T> {
    set x | x in s
  }

  lemma SetOfCons<T>(s: seq<T>)
    requires s != []
    ensures SetOf(s) == {s[0]} + SetOf(s[1..])
  {
    assert s == [s[0]] + s[1..];
  }

  /** A set included in a finite set and distinct from it misses an element. */
  lemma SubsetSize<T>(a: set<T>, b: set<T>)
    requires a <= b
    ensures |a| <= |b|
    ensures a != b ==> |a| < |b|
    decreases b
  {
    if a != {} {
      var x :| x in a;
      SubsetSize(a - {x}, b - {x});
      assert b == (b - {x}) + {x} && a == (a - {x}) + {x};
    }
  }

  /** A sequence without repetitions has as many elements as its set. */
  lemma {:induction false} DistinctSize<T>(s: seq<T>)
    requires Distinct(s)
    ensures |SetOf(s)| == |s|
  {
    if s != [] {
      var n := |s| - 1;
      DistinctSize(s[..n]);
      assert SetOf(s) == SetOf(s[..n]) + {s[n]};
    }
  }

  /** The elements in order of first occurrence. */
  function Uniq<T(==)>(keys: seq<T>): seq<T> {
    if keys == [] then []
    else
      var init, last := keys[..|keys| - 1], keys[|keys| - 1];
      if last in init then Uniq(init) else Uniq(init) + [last]
  }

  lemma DistinctSnoc<T>(keys: seq<T>, k: T)
    requires Distinct(keys) && k !in keys
    ensures Distinct(keys + [k])
  {
  }

  lemma {:induction false} UniqFacts<T>(keys: seq<T>)
    ensures Distinct(Uniq(keys)) && SetOf(Uniq(keys)) == SetOf(keys)
  {
    if keys != [] {
      var init, last := keys[..|keys| - 1], keys[|keys| - 1];
      UniqFacts(init);
      assert SetOf(keys) == SetOf(init) + {last} by {
        assert keys == init + [last];
      }
      if last !in init {
        assert last !in Uniq(init) by {
          assert last !in SetOf(init);
        }
        DistinctSnoc(Uniq(init), last);
        assert SetOf(Uniq(init) + [last]) == SetOf(Uniq(init)) + {last};
      }
    }
  }

  lemma {:induction false} UniqPrefix<T>(a: seq<T>, b: seq<T>)
    ensures Uniq(a) <= Uniq(a + b)
    decreases |b|
  {
    if b == [] {
      assert a + b == a;
    } else {
      var init := b[..|b| - 1];
      assert (a + b)[..|a + b| - 1] == a + init;
      UniqPrefix(a, init);
    }
  }

  lemma UniqMember<T>(keys: seq<T>, k: T)
    ensures k in Uniq(keys) <==> k in keys
  {
    UniqFacts(keys);
    assert k in SetOf(Uniq(keys)) <==> k in SetOf(keys);
  }

  lemma UniqMembers<T>(keys: seq<T>)
    ensures forall k :: k in Uniq(keys) <==> k in keys
  {
    forall k
      ensures k in Uniq(keys) <==> k in keys
    {
      UniqMember(keys, k);
    }
  }

  lemma {:induction false} UniqOfDistinct<T>(keys: seq<T>)
    requires Distinct(keys)
    ensures Uniq(keys) == keys
  {
    if keys != [] {
      UniqOfDistinct(keys[..|keys| - 1]);
    }
  }

  lemma {:induction false} UniqAbsorbs<T>(a: seq<T>, b: seq<T>)
    requires forall k | k in b :: k in a
    ensures Uniq(a + b) == Uniq(a)
    decreases |b|
  {
    if b == [] {
      assert a + b == a;
    } else {
      var init := b[..|b| - 1];
      assert (a + b)[..|a + b| - 1] == a + init;
      assert b[|b| - 1] in b;
      UniqAbsorbs(a, init);
    }
  }

  function Map<A, B>(f: A -> B, s: seq<A>): (r: seq<B>)
    ensures |r| == |s|
    ensures forall i | 0 <= i < |s| :: r[i] == f(s[i])
  {
    seq(|s|, i requires 0 <= i < |s| => f(s[i]))
  }

  lemma MultisetRemove<T>(s: seq<T>, k: nat)
    requires k < |s|
    ensures multiset(s) == multiset(s[..k] + s[k + 1..]) + multiset{s[k]}
  {
    assert s == s[..k] + [s[k]] + s[k + 1..];
  }

  lemma MapRemove<A, B>(f: A -> B, s: seq<A>, k: nat)
    requires k < |s|
    ensures multiset(Map(f, s)) == multiset(Map(f, s[..k] + s[k + 1..])) + multiset{f(s[k])}
  {
    var m := Map(f, s);
    MultisetRemove(m, k);
    assert Map(f, s[..k] + s[k + 1..]) == m[..k] + m[k + 1..];
  }

  /** Permuting the argument of a map permutes its result. */
  lemma {:induction false} MapPermutes<A, B>(f: A -> B, s: seq<A>, t: seq<A>)
    requires multiset(s) == multiset(t)
    ensures multiset(Map(f, s)) == multiset(Map(f, t))
    decreases |s|
  {
    if s == [] {
      assert |t| == |multiset(t)| == 0;
    } else {
      var k := PositionOf(s, t);
      MapRemove(f, s, 0);
      MapRemove(f, t, k);
      MapPermutes(f, s[..0] + s[1..], t[..k] + t[k + 1..]);
    }
  }

  /** Where the head of `s` sits in a permutation of `s`, and that the remainders still match. */
  lemma PositionOf<T>(s: seq<T>, t: seq<T>) returns (k: nat)
    requires s != [] && multiset(s) == multiset(t)
    ensures k < |t| && t[k] == s[0]
    ensures multiset(s[..0] + s[1..]) == multiset(t[..k] + t[k + 1..])
  {
    assert s[0] in multiset(s);
    assert s[0] in t;
    k :| 0 <= k < |t| && t[k] == s[0];
    MultisetRemove(s, 0);
    MultisetRemove(t, k);
    assert multiset(s[..0] + s[1..]) == multiset(s) - multiset{s[0]};
    assert multiset(t[..k] + t[k + 1..]) == multiset(t) - multiset{s[0]};
  }

  lemma Permuted<T>(s: seq<T>, t: seq<T>)
    requires multiset(s) == multiset(t)
    ensures |s| == |t| && forall x :: x in s <==> x in t
  {
    assert |multiset(s)| == |s| && |multiset(t)| == |t|;
    forall x
      ensures x in s <==> x in t
    {
      assert x in s <==> x in multiset(s);
      assert x in t <==> x in multiset(t);
    }
  }

  lemma {:induction false} DistinctSameMembers<K>(s: seq<K>, t: seq<K>)
    requires Distinct(s) && Distinct(t) && forall k :: k in s <==> k in t
    ensures multiset(s) == multiset(t)
  {
    forall k
      ensures multiset(s)[k] == multiset(t)[k]
    {
      DistinctCount(s, k);
      DistinctCount(t, k);
    }
  }

  lemma CountCons<T>(head: T, tail: seq<T>, x: T)
    ensures multiset([head] + tail)[x] == (if head == x then 1 else 0) + multiset(tail)[x]
  {
  }

  lemma {:induction false} SameMultiplicity<T>(s: seq<T>, t: seq<T>, x: T, y: T)
    requires |s| == |t| && forall i | 0 <= i < |s| :: s[i] == x <==> t[i] == y
    ensures multiset(s)[x] == multiset(t)[y]
  {
    if s != [] {
      SameMultiplicity(s[1..], t[1..], x, y);
      assert s == [s[0]] + s[1..] && t == [t[0]] + t[1..];
      CountCons(s[0], s[1..], x);
      CountCons(t[0], t[1..], y);
    }
  }

  lemma {:induction false} DistinctCount<K>(s: seq<K>, k: K)
    requires Distinct(s)
    ensures multiset(s)[k] == if k in s then 1 else 0
  {
    if s != [] {
      assert s == [s[0]] + s[1..];
      DistinctCount(s[1..], k);
    }
  }

  /** The elements of `order` that are present. */
  function InOrder<T(==)>(order: seq<T>, present: set<T>): seq<T> {
    if order == [] then []
    else InOrder(order[..|order| - 1], present) + if order[|order| - 1] in present then [order[|order| - 1]] else []
  }

  lemma {:induction false} InOrderMembers<T>(order: seq<T>, present: set<T>)
    ensures forall x :: x in InOrder(order, present) <==> x in order && x in present
  {
    if order != [] {
      var init, last := order[..|order| - 1], order[|order| - 1];
      InOrderMembers(init, present);
      assert order == init + [last];
    }
  }

  lemma {:induction false} InOrderDistinct<T>(order: seq<T>, present: set<T>)
    requires Distinct(order)
    ensures Distinct(InOrder(order, present))
  {
    if order != [] {
      var init := order[..|order| - 1];
      InOrderDistinct(init, present);
      InOrderMembers(init, present);
    }
  }

  // ---------- Counting by position ----------

  ghost function Places<T(!new)>(s: seq<T>, p: T -> bool): set<nat> {
    set i: nat | i < |s| && p(s[i])
  }

  lemma NoPlaces<T(!new)>(p: T -> bool)
    ensures |Places([], p)| == 0
  {
    assert Places([], p) == {};
  }

  lemma PlacesSnoc<T(!new)>(s: seq<T>, x: T, p: T -> bool)
    ensures |Places(s + [x], p)| == |Places(s, p)| + if p(x) then 1 else 0
  {
    var before, after := Places(s, p), Places(s + [x], p);
    forall i: nat
      ensures i in after <==> i in before || (i == |s| && p(x))
    {
    }
    if p(x) {
      assert after == before + {|s|};
    } else {
      assert after == before;
    }
  }
}
