/** Facts about sequences shared by the filter modules: the set of a
    sequence's elements, counting, Python's string ordering and the
    "sorted(list(set))" idiom that the filters use to list their choices. */
module Sequences {

  /** The elements of a sequence, as Python's set(s). */
  function Elems<T>(s: seq<T>): set<T> {
    set x | x in s
  }

  /** No element occurs twice. */
  predicate Distinct<T(==)>(s: seq<T>) {
    forall i, j :: 0 <= i < j < |s| ==> s[i] != s[j]
  }

  /** A sequence has at least as many entries as distinct elements. */
  lemma {:induction false} ElemsBound<T>(s: seq<T>)
    ensures |Elems(s)| <= |s|
    ensures Distinct(s) ==> |Elems(s)| == |s|
  {
    if s != [] {
      var t := s[1..];
      ElemsBound(t);
      assert Elems(s) == Elems(t) + {s[0]};
      if Distinct(s) {
        assert Distinct(t);
        assert s[0] !in Elems(t);
      }
    }
  }

  /** Pigeonhole: a duplicate-free list that is contained in another list of
      the same length has exactly the same elements as that list. */
  lemma SameLengthSubsetHasSameElems<T>(a: seq<T>, b: seq<T>)
    requires Distinct(a) && |a| == |b|
    requires forall x :: x in a ==> x in b
    ensures Elems(a) == Elems(b)
  {
    ElemsBound(a);
    ElemsBound(b);
    var extra := Elems(b) - Elems(a);
    assert Elems(b) == Elems(a) + extra;
    assert |Elems(b)| == |Elems(a)| + |extra|;
    assert extra == {};
  }

  /** Python's "<" on str: lexicographic by code point, a proper prefix
      being smaller. */
  predicate LexLess(a: string, b: string) {
    if a == [] then b != []
    else b != [] && (a[0] < b[0] || (a[0] == b[0] && LexLess(a[1..], b[1..])))
  }

  lemma {:induction false} LexLessIrreflexive(a: string)
    ensures !LexLess(a, a)
  {
    if a != [] { LexLessIrreflexive(a[1..]); }
  }

  lemma {:induction false} LexLessTransitive(a: string, b: string, c: string)
    requires LexLess(a, b) && LexLess(b, c)
    ensures LexLess(a, c)
  {
    if a != [] && b != [] && c != [] && a[0] == b[0] == c[0] {
      LexLessTransitive(a[1..], b[1..], c[1..]);
    }
  }

  lemma {:induction false} LexLessTotal(a: string, b: string)
    requires a != b
    ensures LexLess(a, b) || LexLess(b, a)
  {
    if a != [] && b != [] && a[0] == b[0] {
      assert a == [a[0]] + a[1..] && b == [b[0]] + b[1..];
      LexLessTotal(a[1..], b[1..]);
    }
  }

  /** `less` is a strict total order on T. */
  ghost predicate StrictTotal<T(!new)>(less: (T, T) -> bool) {
    && (forall x :: !less(x, x))
    && (forall x, y, z :: less(x, y) && less(y, z) ==> less(x, z))
    && (forall x, y :: x != y ==> less(x, y) || less(y, x))
  }

  lemma LexLessIsStrictTotal()
    ensures StrictTotal(LexLess)
  {
    forall x: string ensures !LexLess(x, x) { LexLessIrreflexive(x); }
    forall x: string, y: string, z: string | LexLess(x, y) && LexLess(y, z)
      ensures LexLess(x, z)
    {
      LexLessTransitive(x, y, z);
    }
    forall x: string, y: string | x != y ensures LexLess(x, y) || LexLess(y, x) {
      LexLessTotal(x, y);
    }
  }

  /** Strictly increasing under `less`: sorted and without duplicates. */
  ghost predicate StrictlySorted<T>(s: seq<T>, less: (T, T) -> bool) {
    forall i, j :: 0 <= i < j < |s| ==> less(s[i], s[j])
  }

  /** Puts x into its place in a strictly sorted sequence. */
  function Insert<T(==, !new)>(s: seq<T>, x: T, less: (T, T) -> bool): (r: seq<T>)
    requires StrictTotal(less) && StrictlySorted(s, less) && x !in s
    ensures StrictlySorted(r, less)
    ensures Elems(r) == Elems(s) + {x}
    ensures |r| == |s| + 1
  {
    if s == [] then [x]
    else if less(x, s[0]) then [x] + s
    else
      var rest := Insert(s[1..], x, less);
      assert Elems(s) == {s[0]} + Elems(s[1..]);
      assert forall k :: 0 <= k < |rest| ==> less(s[0], rest[k]) by {
        forall k | 0 <= k < |rest| ensures less(s[0], rest[k]) {
          assert rest[k] in Elems(rest);
        }
      }
      [s[0]] + rest
  }

  /** Python's sorted(list(s)) for a set s: its elements in increasing
      order, each once. */
  method SortedList<T(==, !new)>(s: set<T>, less: (T, T) -> bool) returns (r: seq<T>)
    requires StrictTotal(less)
    ensures StrictlySorted(r, less)
    ensures Elems(r) == s
    ensures |r| == |s|
  {
    r := [];
    var rest := s;
    while rest != {}
      invariant StrictlySorted(r, less)
      invariant Elems(r) + rest == s
      invariant Elems(r) !! rest
      invariant |r| + |rest| == |s|
      decreases |rest|
    {
      var x :| x in rest;
      r := Insert(r, x, less);
      rest := rest - {x};
    }
  }
}
