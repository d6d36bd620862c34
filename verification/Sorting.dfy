/** Sorting by a comparison, as far as its result is determined. */
module Sorting {
  import opened Collections

  ghost predicate Preorder<T(!new)>(le: (T, T) -> bool) {
    && (forall a, b :: le(a, b) || le(b, a))
    && (forall a, b, c :: le(a, b) && le(b, c) ==> le(a, c))
  }

  ghost predicate TotalOrder<T(!new)>(le: (T, T) -> bool) {
    Preorder(le) && forall a, b :: le(a, b) && le(b, a) ==> a == b
  }

  /** No two different elements of `s` are tied. */
  ghost predicate Untied<T>(s: seq<T>, le: (T, T) -> bool) {
    forall a, b | a in s && b in s && le(a, b) && le(b, a) :: a == b
  }

  ghost predicate Sorted<T>(s: seq<T>, le: (T, T) -> bool) {
    forall i, j | 0 <= i < j < |s| :: le(s[i], s[j])
  }

  function Insert<T>(x: T, s: seq<T>, le: (T, T) -> bool): (r: seq<T>)
    ensures multiset(r) == multiset(s) + multiset{x}
  {
    if s == [] then [x]
    else
      assert s == [s[0]] + s[1..];
      if le(x, s[0]) then [x] + s else [s[0]] + Insert(x, s[1..], le)
  }

  function Sort<T>(s: seq<T>, le: (T, T) -> bool): (r: seq<T>)
    ensures multiset(r) == multiset(s)
  {
    if s == [] then []
    else
      assert s == [s[0]] + s[1..];
      Insert(s[0], Sort(s[1..], le), le)
  }

  lemma MultisetTail<T>(s: seq<T>)
    requires s != []
    ensures multiset(s[1..]) == multiset(s) - multiset{s[0]}
  {
    assert s == [s[0]] + s[1..];
  }

  lemma {:induction false} InsertSorted<T(!new)>(x: T, s: seq<T>, le: (T, T) -> bool)
    requires Preorder(le) && Sorted(s, le)
    ensures Sorted(Insert(x, s, le), le)
  {
    if s != [] && !le(x, s[0]) {
      var rest := Insert(x, s[1..], le);
      InsertSorted(x, s[1..], le);
      forall y | y in rest
        ensures le(s[0], y)
      {
        assert y in multiset(rest);
        assert y == x || y in s[1..];
      }
    }
  }

  lemma {:induction false} SortSorted<T(!new)>(s: seq<T>, le: (T, T) -> bool)
    requires Preorder(le)
    ensures Sorted(Sort(s, le), le)
  {
    if s != [] {
      SortSorted(s[1..], le);
      InsertSorted(s[0], Sort(s[1..], le), le);
    }
  }

  /** A sorted arrangement is unique, so it does not matter how the sort works or in which order it got its input. */
  lemma {:induction false} SortedUnique<T>(s: seq<T>, t: seq<T>, le: (T, T) -> bool)
    requires Untied(s, le) && Sorted(s, le) && Sorted(t, le) && multiset(s) == multiset(t)
    ensures s == t
    decreases |s|
  {
    Permuted(s, t);
    if s != [] {
      assert s[0] in t && t[0] in s;
      assert s[0] == t[0];
      MultisetTail(s);
      MultisetTail(t);
      SortedUnique(s[1..], t[1..], le);
    }
  }

  lemma SortCanonical<T(!new)>(s: seq<T>, t: seq<T>, le: (T, T) -> bool)
    requires TotalOrder(le) && multiset(s) == multiset(t)
    ensures Sort(s, le) == Sort(t, le)
  {
    SortSorted(s, le);
    SortSorted(t, le);
    SortedUnique(Sort(s, le), Sort(t, le), le);
  }

  /** Sorting distinct elements keeps them distinct and loses none. */
  lemma SortedKeysFacts<K>(keys: seq<K>, le: (K, K) -> bool)
    requires Distinct(keys)
    ensures Distinct(Sort(keys, le)) && forall k :: k in Sort(keys, le) <==> k in keys
  {
    Permuted(Sort(keys, le), keys);
    PermutationDistinct(keys, Sort(keys, le));
  }

  lemma {:induction false} PermutationDistinct<K>(s: seq<K>, t: seq<K>)
    requires Distinct(s) && multiset(s) == multiset(t)
    ensures Distinct(t)
  {
    Permuted(s, t);
    DistinctSize(s);
    assert SetOf(s) == SetOf(t);
    forall i, j | 0 <= i < j < |t|
      ensures t[i] != t[j]
    {
      if t[i] == t[j] {
        var rest := t[..j] + t[j + 1..];
        assert rest[i] == t[i];
        assert SetOf(rest) == SetOf(t) by {
          assert t == t[..j] + [t[j]] + t[j + 1..];
        }
        SetAtMostLength(rest);
      }
    }
  }

  lemma {:induction false} SetAtMostLength<K>(s: seq<K>)
    ensures |SetOf(s)| <= |s|
  {
    if s != [] {
      SetAtMostLength(s[1..]);
      SetOfCons(s);
    }
  }
}
