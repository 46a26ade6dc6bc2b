/** Byte-wise string order and the sorted copy that order-insensitive comparisons use. */
module Sorting {

  predicate Leq(a: string, b: string) {
    if a == "" then true
    else if b == "" then false
    else if a[0] != b[0] then a[0] < b[0]
    else Leq(a[1..], b[1..])
  }

  lemma {:induction false} LeqTotal(a: string, b: string)
    ensures Leq(a, b) || Leq(b, a)
  {
    if a != "" && b != "" && a[0] == b[0] {
      LeqTotal(a[1..], b[1..]);
    }
  }

  lemma {:induction false} LeqAntisymmetric(a: string, b: string)
    requires Leq(a, b) && Leq(b, a)
    ensures a == b
  {
    if a != "" && b != "" {
      LeqAntisymmetric(a[1..], b[1..]);
      assert a == [a[0]] + a[1..] && b == [b[0]] + b[1..];
    }
  }

  lemma {:induction false} LeqTransitive(a: string, b: string, c: string)
    requires Leq(a, b) && Leq(b, c)
    ensures Leq(a, c)
  {
    if a != "" && a[0] == b[0] && b[0] == c[0] {
      LeqTransitive(a[1..], b[1..], c[1..]);
    }
  }

  ghost predicate Sorted(s: seq<string>) {
    forall i, j :: 0 <= i < j < |s| ==> Leq(s[i], s[j])
  }

  function Insert(x: string, s: seq<string>): (r: seq<string>)
    requires Sorted(s)
    ensures Sorted(r) && multiset(r) == multiset(s) + multiset{x}
  {
    if s == [] then [x]
    else if Leq(x, s[0]) then
      assert forall j :: 0 <= j < |s| ==> Leq(x, s[j]) by {
        forall j | 0 <= j < |s| ensures Leq(x, s[j]) {
          if j > 0 {
            LeqTransitive(x, s[0], s[j]);
          }
        }
      }
      [x] + s
    else
      assert s == [s[0]] + s[1..];
      LeqTotal(x, s[0]);
      var rest := Insert(x, s[1..]);
      assert forall y :: y in rest ==> Leq(s[0], y) by {
        forall y | y in rest ensures Leq(s[0], y) {
          assert y in multiset(rest);
          assert y == x || y in s[1..];
        }
      }
      [s[0]] + rest
  }

  /** A sorted copy of the slice. */
  function SortedCopy(s: seq<string>): (r: seq<string>)
    ensures Sorted(r) && multiset(r) == multiset(s)
  {
    if s == [] then [] else
      assert s == [s[0]] + s[1..];
      Insert(s[0], SortedCopy(s[1..]))
  }

  lemma HeadIsLeast(a: seq<string>, x: string)
    requires Sorted(a) && x in a
    ensures Leq(a[0], x)
  {
    var i :| 0 <= i < |a| && a[i] == x;
    if i == 0 {
      LeqTotal(x, x);
    }
  }

  lemma TailMultiset(a: seq<string>)
    requires a != []
    ensures multiset(a[1..]) == multiset(a) - multiset{a[0]}
  {
    assert a == [a[0]] + a[1..];
  }

  lemma {:induction false} SortedUnique(a: seq<string>, b: seq<string>)
    requires Sorted(a) && Sorted(b) && multiset(a) == multiset(b)
    ensures a == b
  {
    hide Leq;
    assert |multiset(a)| == |a| && |multiset(b)| == |b|;
    if a != [] {
      assert a[0] in multiset(b);
      assert b[0] in multiset(a);
      HeadIsLeast(a, b[0]);
      HeadIsLeast(b, a[0]);
      LeqAntisymmetric(a[0], b[0]);
      TailMultiset(a);
      TailMultiset(b);
      SortedUnique(a[1..], b[1..]);
      assert a == [a[0]] + a[1..] && b == [b[0]] + b[1..];
    }
  }

  /** Comparing sorted copies is comparing as multisets. */
  lemma SortedCopiesEqual(a: seq<string>, b: seq<string>)
    ensures SortedCopy(a) == SortedCopy(b) <==> multiset(a) == multiset(b)
  {
    if multiset(a) == multiset(b) {
      SortedUnique(SortedCopy(a), SortedCopy(b));
    }
  }

  lemma SortedCopyElements(s: seq<string>)
    ensures forall x :: x in s <==> x in SortedCopy(s)
  {
    forall x
      ensures x in s <==> x in SortedCopy(s)
    {
      assert x in multiset(s) <==> x in multiset(SortedCopy(s));
    }
  }

  predicate Distinct<T(==)>(s: seq<T>) {
    forall i, j :: 0 <= i < j < |s| ==> s[i] != s[j]
  }

  lemma {:induction false} DistinctMultiset<T>(s: seq<T>)
    ensures Distinct(s) <==> forall x :: multiset(s)[x] <= 1
  {
    if s != [] {
      var n := |s| - 1;
      var q := s[..n];
      assert s == q + [s[n]];
      DistinctMultiset(q);
      if Distinct(s) {
        assert s[n] !in q;
        assert forall x :: multiset(s)[x] == multiset(q)[x] + (if x == s[n] then 1 else 0);
      }
      if forall x :: multiset(s)[x] <= 1 {
        assert forall x :: multiset(q)[x] <= multiset(s)[x];
        assert multiset(s)[s[n]] == multiset(q)[s[n]] + 1;
        assert s[n] !in q;
        forall i, j | 0 <= i < j < |s|
          ensures s[i] != s[j]
        {
          if j < n {
            assert q[i] != q[j];
          } else {
            assert s[i] == q[i];
          }
        }
      }
    }
  }

  lemma SortedCopyDistinct(s: seq<string>)
    requires Distinct(s)
    ensures Distinct(SortedCopy(s))
  {
    DistinctMultiset(s);
    DistinctMultiset(SortedCopy(s));
  }

  /** A list with a duplicate never sorts to the same slice as a list without one. */
  lemma SortedCopyDistinctBack(a: seq<string>, b: seq<string>)
    requires Distinct(a) && SortedCopy(a) == SortedCopy(b)
    ensures Distinct(b)
  {
    SortedCopiesEqual(a, b);
    DistinctMultiset(a);
    DistinctMultiset(b);
  }

  lemma DistinctSameElements(a: seq<string>, b: seq<string>)
    requires Distinct(a) && Distinct(b) && forall x :: x in a <==> x in b
    ensures SortedCopy(a) == SortedCopy(b)
  {
    DistinctMultiset(a);
    DistinctMultiset(b);
    forall x
      ensures multiset(a)[x] == multiset(b)[x]
    {
      assert x in multiset(a) <==> x in a;
      assert x in multiset(b) <==> x in b;
    }
    assert multiset(a) == multiset(b);
    SortedCopiesEqual(a, b);
  }

  /** Two sorted lists without duplicates and with the same elements are the same list. */
  lemma SortedDistinctUnique(a: seq<string>, b: seq<string>)
    requires Sorted(a) && Sorted(b) && Distinct(a) && Distinct(b) && forall x :: x in a <==> x in b
    ensures a == b
  {
    DistinctSameElements(a, b);
    SortedCopiesEqual(a, b);
    SortedUnique(a, b);
  }
}
