/** Stable sorting as a library sort promises it, and the multi-pass idiom that
    sorts by the last key first. */
module Sorting {
  import opened Basics

  ghost predicate TotalPreorder<T(!new)>(leq: (T, T) -> bool) {
    && (forall x, y :: leq(x, y) || leq(y, x))
    && (forall x, y, z :: leq(x, y) && leq(y, z) ==> leq(x, z))
  }

  ghost predicate SortedBy<T>(s: seq<T>, leq: (T, T) -> bool) {
    forall i, j :: 0 <= i < j < |s| ==> leq(s[i], s[j])
  }

  /** No two positions of `s` are tied under `leq`. */
  ghost predicate NoTies<T>(s: seq<T>, leq: (T, T) -> bool) {
    forall i, j :: 0 <= i < j < |s| ==> !(leq(s[i], s[j]) && leq(s[j], s[i]))
  }

  function Insert<T>(x: T, s: seq<T>, leq: (T, T) -> bool): (r: seq<T>)
    ensures multiset(r) == multiset{x} + multiset(s)
  {
    if s == [] then [x]
    else if leq(x, s[0]) then [x] + s
    else
      assert s == [s[0]] + s[1..];
      [s[0]] + Insert(x, s[1..], leq)
  }

  /** Sorting that keeps the arrival order of items tied under `leq`. */
  function StableSort<T>(s: seq<T>, leq: (T, T) -> bool): (r: seq<T>)
    ensures multiset(r) == multiset(s)
  {
    if s == [] then []
    else
      assert s == [s[0]] + s[1..];
      Insert(s[0], StableSort(s[1..], leq), leq)
  }

  /** Compare by `first`; let `second` decide ties. */
  function Lex<T(!new)>(first: (T, T) -> bool, second: (T, T) -> bool): (T, T) -> bool {
    (x, y) => first(x, y) && (first(y, x) ==> second(x, y))
  }

  function Always<T>(x: T, y: T): bool { true }

  /** The lexicographic comparison by a list of keys, first key first. */
  function LexAll<T(!new)>(keys: seq<(T, T) -> bool>): (T, T) -> bool {
    if keys == [] then Always<T> else Lex(keys[0], LexAll(keys[1..]))
  }

  /** One stable sort per key, last key first. */
  function MultiPass<T>(s: seq<T>, keys: seq<(T, T) -> bool>): seq<T> {
    if keys == [] then s else StableSort(MultiPass(s, keys[1..]), keys[0])
  }

  lemma MultisetMembers<T>(a: seq<T>, b: seq<T>)
    requires multiset(a) == multiset(b)
    ensures |a| == |b|
    ensures forall x :: x in a <==> x in b
  {
    assert |multiset(a)| == |a| && |multiset(b)| == |b|;
    forall x ensures x in a <==> x in b {
      assert x in a <==> x in multiset(a);
      assert x in b <==> x in multiset(b);
    }
  }

  lemma {:induction false} InsertKeepsOrder<T(!new)>(x: T, s: seq<T>, leq: (T, T) -> bool, before: (T, T) -> bool)
    requires TotalPreorder(leq)
    requires SortedBy(s, Lex(leq, before))
    requires forall y :: y in s ==> before(x, y)
    ensures SortedBy(Insert(x, s, leq), Lex(leq, before))
  {
    if s != [] && !leq(x, s[0]) {
      var r := Insert(x, s[1..], leq);
      InsertKeepsOrder(x, s[1..], leq, before);
      forall y | y in r ensures Lex(leq, before)(s[0], y) {
        assert y in multiset(r);
        if y != x { assert y in s[1..]; }
      }
    } else if s != [] {
      forall y | y in s ensures Lex(leq, before)(x, y) {
        assert y == s[0] || leq(s[0], y);
      }
    }
  }

  /** A stable sort by one key refines the order the list was in. */
  lemma {:induction false} StableSortRefines<T(!new)>(s: seq<T>, leq: (T, T) -> bool, before: (T, T) -> bool)
    requires TotalPreorder(leq)
    requires SortedBy(s, before)
    ensures SortedBy(StableSort(s, leq), Lex(leq, before))
  {
    if s != [] {
      StableSortRefines(s[1..], leq, before);
      var r := StableSort(s[1..], leq);
      forall y | y in r ensures before(s[0], y) {
        assert y in multiset(r);
        assert y in s[1..];
      }
      InsertKeepsOrder(s[0], r, leq, before);
    }
  }

  /** Stable passes from the last key to the first sort lexicographically and lose nothing. */
  lemma {:induction false} MultiPassIsLexicographic<T(!new)>(s: seq<T>, keys: seq<(T, T) -> bool>)
    requires forall k :: k in keys ==> TotalPreorder(k)
    ensures SortedBy(MultiPass(s, keys), LexAll(keys))
    ensures multiset(MultiPass(s, keys)) == multiset(s)
  {
    if keys != [] {
      MultiPassIsLexicographic(s, keys[1..]);
      assert keys[0] in keys;
      StableSortRefines(MultiPass(s, keys[1..]), keys[0], LexAll(keys[1..]));
    }
  }

  lemma SortedHeadsAgree<T(!new)>(a: seq<T>, b: seq<T>, leq: (T, T) -> bool)
    requires multiset(a) == multiset(b) && a != []
    requires SortedBy(a, leq) && SortedBy(b, leq) && NoTies(a, leq)
    ensures b != [] && a[0] == b[0]
  {
    MultisetMembers(a, b);
    assert a[0] in b && b[0] in a;
    var i :| 0 <= i < |b| && b[i] == a[0];
    var j :| 0 <= j < |a| && a[j] == b[0];
  }

  lemma EqualTails<T>(a: seq<T>, b: seq<T>)
    requires multiset(a) == multiset(b) && a != [] && b != [] && a[0] == b[0]
    ensures multiset(a[1..]) == multiset(b[1..])
  {
    assert a == [a[0]] + a[1..] && b == [b[0]] + b[1..];
    assert multiset(a[1..]) == multiset(a) - multiset{a[0]};
    assert multiset(b[1..]) == multiset(b) - multiset{b[0]};
  }

  /** A list without ties has exactly one sorted arrangement. */
  lemma {:induction false} SortedArrangementIsUnique<T(!new)>(a: seq<T>, b: seq<T>, leq: (T, T) -> bool)
    requires multiset(a) == multiset(b)
    requires SortedBy(a, leq) && SortedBy(b, leq)
    requires NoTies(a, leq)
    ensures a == b
  {
    MultisetMembers(a, b);
    if a != [] {
      SortedHeadsAgree(a, b, leq);
      EqualTails(a, b);
      SortedArrangementIsUnique(a[1..], b[1..], leq);
      assert a == [a[0]] + a[1..] && b == [b[0]] + b[1..];
    }
  }

  lemma {:induction false} SortedPermutationsAgree<T(!new)>(a: seq<T>, b: seq<T>, keys: seq<(T, T) -> bool>)
    requires forall k :: k in keys ==> TotalPreorder(k)
    requires multiset(a) == multiset(b)
    requires NoTies(MultiPass(a, keys), LexAll(keys))
    ensures MultiPass(a, keys) == MultiPass(b, keys)
  {
    MultiPassIsLexicographic(a, keys);
    MultiPassIsLexicographic(b, keys);
    SortedArrangementIsUnique(MultiPass(a, keys), MultiPass(b, keys), LexAll(keys));
  }

  lemma StableSortSorts<T(!new)>(s: seq<T>, leq: (T, T) -> bool)
    requires TotalPreorder(leq)
    ensures SortedBy(StableSort(s, leq), leq)
  {
    StableSortRefines(s, leq, Always<T>);
  }

  lemma {:induction false} CountDistinct<T>(a: seq<T>, x: T)
    requires NoDuplicates(a)
    ensures multiset(a)[x] == if x in a then 1 else 0
  {
    if a != [] {
      assert a == [a[0]] + a[1..];
      CountDistinct(a[1..], x);
    }
  }

  lemma DistinctSameMembers<T>(a: seq<T>, b: seq<T>)
    requires NoDuplicates(a) && NoDuplicates(b) && (forall x :: x in a <==> x in b)
    ensures multiset(a) == multiset(b)
  {
    forall x ensures multiset(a)[x] == multiset(b)[x] {
      CountDistinct(a, x);
      CountDistinct(b, x);
    }
  }

  lemma DistinctPermutation<T>(a: seq<T>, b: seq<T>)
    requires NoDuplicates(a) && multiset(a) == multiset(b)
    ensures NoDuplicates(b)
  {
    forall i, j | 0 <= i < j < |b| ensures b[i] != b[j] {
      CountDistinct(a, b[i]);
      assert b == b[..i] + [b[i]] + b[i + 1..j] + [b[j]] + b[j + 1..];
      assert multiset(b)
        == multiset(b[..i]) + multiset{b[i]} + multiset(b[i + 1..j]) + multiset{b[j]} + multiset(b[j + 1..]);
    }
  }

  /** Lists of the same distinct items, where only equal items tie, sort to the same list. */
  lemma SortIgnoresArrival<T(!new)>(a: seq<T>, b: seq<T>, leq: (T, T) -> bool)
    requires TotalPreorder(leq)
    requires NoDuplicates(a) && NoDuplicates(b) && (forall x :: x in a <==> x in b)
    requires forall x, y :: x in a && y in a && leq(x, y) && leq(y, x) ==> x == y
    ensures StableSort(a, leq) == StableSort(b, leq)
  {
    DistinctSameMembers(a, b);
    StableSortSorts(a, leq);
    StableSortSorts(b, leq);
    var sorted := StableSort(a, leq);
    DistinctPermutation(a, sorted);
    MultisetMembers(sorted, a);
    assert forall i :: 0 <= i < |sorted| ==> sorted[i] in a;
    SortedArrangementIsUnique(sorted, StableSort(b, leq), leq);
  }
}
