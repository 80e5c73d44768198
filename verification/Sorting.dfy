/** Sorting by a strict total order, as the library sort the tools call: its
    result is one determined list, whatever order the input came in. */
module Sorting {

  ghost predicate Strict<T(!new)>(less: (T, T) -> bool) {
    && (forall a :: !less(a, a))
    && (forall a, b, c :: less(a, b) && less(b, c) ==> less(a, c))
  }

  /** `less` orders the elements of `s`. */
  ghost predicate Orders<T(!new)>(less: (T, T) -> bool, s: seq<T>) {
    && Strict(less)
    && forall a, b :: a in s && b in s && a != b ==> less(a, b) || less(b, a)
  }

  ghost predicate Sorted<T(!new)>(s: seq<T>, less: (T, T) -> bool) {
    forall i, j :: 0 <= i < j < |s| ==> !less(s[j], s[i])
  }

  function Insert<T>(x: T, s: seq<T>, less: (T, T) -> bool): (r: seq<T>)
    ensures multiset(r) == multiset(s) + multiset{x}
    ensures |r| == |s| + 1
  {
    if s == [] then [x]
    else if less(s[0], x) then
      assert s == [s[0]] + s[1..];
      [s[0]] + Insert(x, s[1..], less)
    else [x] + s
  }

  lemma {:induction false} InsertSorted<T(!new)>(x: T, s: seq<T>, less: (T, T) -> bool)
    requires Orders(less, [x] + s) && Sorted(s, less)
    ensures Sorted(Insert(x, s, less), less)
  {
    if s != [] {
      var head := s[0];
      assert forall y :: y in s ==> y in [x] + s;
      if less(head, x) {
        assert forall y :: y in [x] + s[1..] ==> y in [x] + s;
        InsertSorted(x, s[1..], less);
        var rest := Insert(x, s[1..], less);
        forall y | y in rest
          ensures !less(y, head)
        {
          assert y in multiset(rest);
          assert y == x || y in s[1..];
        }
      }
    }
  }

  function Sort<T>(s: seq<T>, less: (T, T) -> bool): (r: seq<T>)
    ensures multiset(r) == multiset(s)
    ensures |r| == |s|
  {
    if s == [] then []
    else
      assert s == [s[0]] + s[1..];
      Insert(s[0], Sort(s[1..], less), less)
  }

  lemma {:induction false} SortSorts<T(!new)>(s: seq<T>, less: (T, T) -> bool)
    requires Orders(less, s)
    ensures Sorted(Sort(s, less), less)
  {
    if s != [] {
      var rest := Sort(s[1..], less);
      SortSorts(s[1..], less);
      forall y | y in [s[0]] + rest
        ensures y in s
      {
        assert y == s[0] || y in multiset(rest);
      }
      InsertSorted(s[0], rest, less);
    }
  }

  /** Sorting keeps the elements. */
  lemma SortedElements<T>(s: seq<T>, less: (T, T) -> bool)
    ensures forall x :: x in Sort(s, less) <==> x in s
  {
    assert forall x :: x in Sort(s, less) <==> x in multiset(Sort(s, less));
    assert forall x :: x in s <==> x in multiset(s);
  }

  ghost predicate Distinct<T>(s: seq<T>) {
    forall i, j :: 0 <= i < j < |s| ==> s[i] != s[j]
  }

  lemma {:induction false} InsertDistinct<T>(x: T, s: seq<T>, less: (T, T) -> bool)
    requires Distinct(s) && x !in s
    ensures Distinct(Insert(x, s, less))
  {
    if s != [] && less(s[0], x) {
      InsertDistinct(x, s[1..], less);
      var rest := Insert(x, s[1..], less);
      assert forall y :: y in rest <==> y in multiset(rest);
      assert s[0] !in rest;
    }
  }

  /** Sorting distinct elements keeps them distinct. */
  lemma {:induction false} SortDistinct<T>(s: seq<T>, less: (T, T) -> bool)
    requires Distinct(s)
    ensures Distinct(Sort(s, less))
  {
    if s != [] {
      SortDistinct(s[1..], less);
      SortedElements(s[1..], less);
      InsertDistinct(s[0], Sort(s[1..], less), less);
    }
  }

  /** Sorted distinct elements strictly increase. */
  lemma SortStrict<T(!new)>(s: seq<T>, less: (T, T) -> bool)
    requires Orders(less, s) && Distinct(s)
    ensures forall i, j :: 0 <= i < j < |Sort(s, less)| ==> less(Sort(s, less)[i], Sort(s, less)[j])
  {
    SortSorts(s, less);
    SortDistinct(s, less);
    SortedElements(s, less);
    var sorted := Sort(s, less);
    forall i, j | 0 <= i < j < |sorted|
      ensures less(sorted[i], sorted[j])
    {
      assert sorted[i] in sorted && sorted[j] in sorted && sorted[i] != sorted[j];
    }
  }

  /** `less` orders by a rank: what it leaves unordered ranks the same. */
  ghost predicate Ranks<T(!new)>(less: (T, T) -> bool) {
    && (forall a, b :: less(a, b) ==> !less(b, a))
    && (forall a, b, c :: !less(a, b) && !less(b, c) ==> !less(a, c))
  }

  lemma {:induction false} InsertRanked<T(!new)>(x: T, s: seq<T>, less: (T, T) -> bool)
    requires Ranks(less) && Sorted(s, less)
    ensures Sorted(Insert(x, s, less), less)
  {
    if s != [] {
      var head := s[0];
      if less(head, x) {
        InsertRanked(x, s[1..], less);
        var rest := Insert(x, s[1..], less);
        forall y | y in rest
          ensures !less(y, head)
        {
          assert y in multiset(rest);
          assert y == x || y in s[1..];
        }
      } else {
        assert forall j :: 0 < j < |s| ==> !less(s[j], head);
      }
    }
  }

  /** Sorting by rank leaves equals in some order. */
  lemma {:induction false} SortRanked<T(!new)>(s: seq<T>, less: (T, T) -> bool)
    requires Ranks(less)
    ensures Sorted(Sort(s, less), less)
  {
    if s != [] {
      SortRanked(s[1..], less);
      InsertRanked(s[0], Sort(s[1..], less), less);
    }
  }

  /** Two sorted lists with the same elements are the same list. */
  lemma {:induction false} SortedUnique<T(!new)>(a: seq<T>, b: seq<T>, less: (T, T) -> bool)
    requires Orders(less, a) && Sorted(a, less) && Sorted(b, less)
    requires multiset(a) == multiset(b)
    ensures a == b
  {
    assert |multiset(a)| == |a| && |multiset(b)| == |b|;
    if a != [] {
      assert b != [];
      SameHead(a, b, less);
      TailElements(a);
      TailElements(b);
      SortedUnique(a[1..], b[1..], less);
    }
  }

  lemma TailElements<T>(s: seq<T>)
    requires s != []
    ensures multiset(s[1..]) == multiset(s) - multiset{s[0]}
    ensures forall x :: x in s[1..] ==> x in s
  {
    assert s == [s[0]] + s[1..];
  }

  lemma SameHead<T(!new)>(a: seq<T>, b: seq<T>, less: (T, T) -> bool)
    requires Orders(less, a) && Sorted(a, less) && Sorted(b, less)
    requires multiset(a) == multiset(b) && a != [] && b != []
    ensures a[0] == b[0]
  {
    assert a[0] in multiset(b) && b[0] in multiset(a);
    var i :| 0 <= i < |b| && b[i] == a[0];
    var j :| 0 <= j < |a| && a[j] == b[0];
    assert !less(a[0], b[0]) && !less(b[0], a[0]);
  }

  /** The input order does not matter. */
  lemma SortDetermined<T(!new)>(a: seq<T>, b: seq<T>, less: (T, T) -> bool)
    requires Orders(less, a) && multiset(a) == multiset(b)
    ensures Sort(a, less) == Sort(b, less)
  {
    assert forall x :: x in b ==> x in multiset(a);
    SortSorts(a, less);
    SortSorts(b, less);
    assert forall x :: x in Sort(a, less) ==> x in multiset(a);
    SortedUnique(Sort(a, less), Sort(b, less), less);
  }

  /** The order of strings. */
  predicate StringLess(a: string, b: string) {
    if b == [] then false
    else if a == [] then true
    else if a[0] != b[0] then a[0] < b[0]
    else StringLess(a[1..], b[1..])
  }

  lemma {:induction false} StringLessTrans(a: string, b: string, c: string)
    requires StringLess(a, b) && StringLess(b, c)
    ensures StringLess(a, c)
  {
    if a != [] && a[0] == b[0] == c[0] {
      StringLessTrans(a[1..], b[1..], c[1..]);
    }
  }

  lemma {:induction false} StringLessTotal(a: string, b: string)
    ensures !StringLess(a, a)
    ensures a != b ==> StringLess(a, b) || StringLess(b, a)
  {
    if a != [] {
      StringLessTotal(a[1..], if b == [] then [] else b[1..]);
      assert a == [a[0]] + a[1..];
      if b != [] {
        assert b == [b[0]] + b[1..];
      }
    }
  }

  lemma StringsOrdered(s: seq<string>)
    ensures Orders(StringLess, s)
  {
    forall a, b, c | StringLess(a, b) && StringLess(b, c)
      ensures StringLess(a, c)
    {
      StringLessTrans(a, b, c);
    }
    forall a, b
      ensures !StringLess(a, a) && (a != b ==> StringLess(a, b) || StringLess(b, a))
    {
      StringLessTotal(a, b);
    }
  }
}
