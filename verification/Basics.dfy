/** Small vocabulary shared by every module: optional values, results, ordered
    lists without repetition, and the code-point order of strings. */
module Basics {
  datatype Option<+T> = None | Some(value: T)

  datatype Result<+T, +E> = Ok(value: T) | Err(error: E)

  function Identity<T>(x: T): T { x }

  ghost predicate NoDuplicates<T>(s: seq<T>) {
    forall i, j :: 0 <= i < j < |s| ==> s[i] != s[j]
  }

  function Map<A, B>(s: seq<A>, f: A -> B): (r: seq<B>)
    ensures |r| == |s|
    ensures forall i :: 0 <= i < |s| ==> r[i] == f(s[i])
  {
    seq(|s|, i requires 0 <= i < |s| => f(s[i]))
  }

  lemma MapMembers<A, B>(s: seq<A>, f: A -> B)
    ensures forall x :: x in s ==> f(x) in Map(s, f)
    ensures forall y :: y in Map(s, f) ==> exists x :: x in s && f(x) == y
  {
  }

  function Filter<T(!new)>(s: seq<T>, keep: T -> bool): (r: seq<T>)
    ensures forall x :: x in r <==> x in s && keep(x)
  {
    if s == [] then []
    else
      var r := Filter(s[..|s| - 1], keep);
      assert s == s[..|s| - 1] + [s[|s| - 1]];
      if keep(s[|s| - 1]) then r + [s[|s| - 1]] else r
  }

  lemma {:induction false} FilterDistinct<T(!new)>(s: seq<T>, keep: T -> bool)
    requires NoDuplicates(s)
    ensures NoDuplicates(Filter(s, keep))
  {
    if s != [] {
      FilterDistinct(s[..|s| - 1], keep);
    }
  }

  lemma FilterSnoc<T(!new)>(s: seq<T>, x: T, keep: T -> bool)
    ensures Filter(s + [x], keep) == Filter(s, keep) + (if keep(x) then [x] else [])
  {
  }

  /** `s` followed by the items of `more` whose key is new, in order of arrival. */
  function AppendNew<T, K(==)>(s: seq<T>, more: seq<T>, key: T -> K): (r: seq<T>)
    ensures s <= r
  {
    if more == [] then s
    else
      var r := AppendNew(s, more[..|more| - 1], key);
      var x := more[|more| - 1];
      if key(x) in Map(r, key) then r else r + [x]
  }

  /** The first item of every key, in order of arrival. */
  function UniqueBy<T, K(==)>(s: seq<T>, key: T -> K): seq<T> {
    AppendNew([], s, key)
  }

  function Unique<T(==)>(s: seq<T>): seq<T> {
    UniqueBy(s, Identity<T>)
  }

  lemma {:induction false} AppendNewKeys<T, K>(s: seq<T>, more: seq<T>, key: T -> K)
    requires NoDuplicates(Map(s, key))
    ensures NoDuplicates(Map(AppendNew(s, more, key), key))
  {
    if more != [] {
      AppendNewKeys(s, more[..|more| - 1], key);
    }
  }

  lemma {:induction false} AppendNewMembers<T, K>(s: seq<T>, more: seq<T>, key: T -> K)
    ensures forall x :: x in AppendNew(s, more, key) ==> x in s || x in more
    ensures forall x :: x in s || x in more ==> key(x) in Map(AppendNew(s, more, key), key)
  {
    var r := AppendNew(s, more, key);
    if more == [] {
      forall x | x in s ensures key(x) in Map(r, key) {
        var i :| 0 <= i < |s| && s[i] == x;
        assert Map(r, key)[i] == key(x);
      }
    } else {
      var front, last := more[..|more| - 1], more[|more| - 1];
      AppendNewMembers(s, front, key);
      var r0 := AppendNew(s, front, key);
      assert more == front + [last];
      assert Map(r, key)[..|r0|] == Map(r0, key);
      assert key(last) in Map(r, key) by {
        if key(last) !in Map(r0, key) { assert Map(r, key)[|r0|] == key(last); }
      }
      forall x | x in s || x in more ensures key(x) in Map(r, key) {
        if x != last { assert key(x) in Map(r0, key); }
      }
    }
  }

  /** A list that already has distinct keys is a prefix of every deduplicated extension of it. */
  lemma {:induction false} UniqueKeepsPrefix<T, K>(s: seq<T>, more: seq<T>, key: T -> K)
    requires NoDuplicates(Map(s, key))
    ensures UniqueBy(s + more, key) == AppendNew(s, more, key)
    decreases |s| + |more|
  {
    if more != [] {
      assert (s + more)[..|s + more| - 1] == s + more[..|more| - 1];
      UniqueKeepsPrefix(s, more[..|more| - 1], key);
    } else if s != [] {
      var front := s[..|s| - 1];
      assert s + more == s && front + [] == front;
      assert Map(front, key) == Map(s, key)[..|front|];
      UniqueKeepsPrefix(front, [], key);
      assert UniqueBy(front, key) == front;
      assert Map(s, key)[|front|] == key(s[|front|]);
      assert key(s[|s| - 1]) !in Map(front, key);
      assert s == front + [s[|s| - 1]];
    }
  }

  /** Strict order of strings by code point, as Python and SQLite's BINARY collation compare them. */
  predicate TextLess(a: string, b: string) {
    b != [] && (a == [] || a[0] < b[0] || (a[0] == b[0] && TextLess(a[1..], b[1..])))
  }

  lemma {:induction false} TextLessTotal(a: string, b: string)
    ensures TextLess(a, b) || a == b || TextLess(b, a)
  {
    if a != [] && b != [] && a[0] == b[0] {
      TextLessTotal(a[1..], b[1..]);
      assert a == [a[0]] + a[1..] && b == [b[0]] + b[1..];
    }
  }

  lemma {:induction false} TextLessAsymmetric(a: string, b: string)
    requires TextLess(a, b)
    ensures !TextLess(b, a) && a != b
  {
    if a != [] && a[0] == b[0] { TextLessAsymmetric(a[1..], b[1..]); }
  }

  lemma {:induction false} TextLessTransitive(a: string, b: string, c: string)
    requires TextLess(a, b) && TextLess(b, c)
    ensures TextLess(a, c)
  {
    if a != [] && a[0] == b[0] == c[0] { TextLessTransitive(a[1..], b[1..], c[1..]); }
  }

  /** A shared prefix never decides the order. */
  lemma {:induction false} TextLessPrefix(p: string, a: string, b: string)
    ensures TextLess(p + a, p + b) == TextLess(a, b)
  {
    if p == [] {
      assert p + a == a && p + b == b;
    } else {
      assert (p + a)[1..] == p[1..] + a && (p + b)[1..] == p[1..] + b;
      TextLessPrefix(p[1..], a, b);
    }
  }
}
