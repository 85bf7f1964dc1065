/** The two data-frame operations the scanners rest on: a boolean mask
    (`df[mask]`), which keeps the rows that pass in their order, and
    `sort_values` on a multi-column key, modelled as a stable insertion
    sort under a total preorder. */
module Frames {

  /** `df[mask]`: the rows that pass, in their order. */
  function Filter<T(!new)>(s: seq<T>, p: T -> bool): (r: seq<T>)
    ensures |r| <= |s|
    ensures forall x :: x in r <==> x in s && p(x)
  {
    if |s| == 0 then []
    else Filter(s[..|s| - 1], p) + (if p(s[|s| - 1]) then [s[|s| - 1]] else [])
  }

  /** Every earlier element is `lt` every later one. */
  predicate Pairwise<T>(s: seq<T>, lt: (T, T) -> bool) {
    forall i, j :: 0 <= i < j < |s| ==> lt(s[i], s[j])
  }

  /** A mask keeps the order of what it keeps. */
  lemma {:induction false} FilterPairwise<T(!new)>(s: seq<T>, p: T -> bool, lt: (T, T) -> bool)
    requires Pairwise(s, lt)
    ensures Pairwise(Filter(s, p), lt)
  {
    if |s| > 0 {
      var init := s[..|s| - 1];
      var x := s[|s| - 1];
      FilterPairwise(init, p, lt);
      var r1 := Filter(init, p);
      var r := Filter(s, p);
      if p(x) {
        forall i, j | 0 <= i < j < |r|
          ensures lt(r[i], r[j])
        {
          if j == |r| - 1 {
            assert r[i] == r1[i] && r1[i] in init;
            var k :| 0 <= k < |init| && init[k] == r1[i];
            assert lt(s[k], s[|s| - 1]);
          } else {
            assert r[i] == r1[i] && r[j] == r1[j];
          }
        }
      } else {
        assert r == r1;
      }
    }
  }

  /** Two masks that agree on every row keep the same rows. */
  lemma {:induction false} FilterCongruent<T(!new)>(s: seq<T>, p: T -> bool, q: T -> bool)
    requires forall x :: x in s ==> p(x) == q(x)
    ensures Filter(s, p) == Filter(s, q)
  {
    if |s| > 0 {
      assert forall x :: x in s[..|s| - 1] ==> x in s;
      FilterCongruent(s[..|s| - 1], p, q);
      assert s[|s| - 1] in s;
    }
  }

  /** `le` relates every pair in one direction at least. */
  ghost predicate Total<T(!new)>(le: (T, T) -> bool) {
    forall a, b :: le(a, b) || le(b, a)
  }

  predicate Sorted<T>(s: seq<T>, le: (T, T) -> bool) {
    forall i :: 0 <= i < |s| - 1 ==> le(s[i], s[i + 1])
  }

  /** x placed before the first element it is not after. */
  function Insert<T>(x: T, s: seq<T>, le: (T, T) -> bool): (r: seq<T>)
    ensures |r| == |s| + 1
    ensures multiset(r) == multiset(s) + multiset{x}
    ensures r[0] == x || (|s| > 0 && r[0] == s[0])
  {
    if |s| == 0 then [x]
    else if le(x, s[0]) then [x] + s
    else
      assert s == [s[0]] + s[1..];
      [s[0]] + Insert(x, s[1..], le)
  }

  lemma {:induction false} InsertSorted<T(!new)>(x: T, s: seq<T>, le: (T, T) -> bool)
    requires Total(le) && Sorted(s, le)
    ensures Sorted(Insert(x, s, le), le)
  {
    if |s| > 0 && !le(x, s[0]) {
      InsertSorted(x, s[1..], le);
      var rest := Insert(x, s[1..], le);
      assert le(s[0], rest[0]) by {
        if rest[0] != x {
          assert rest[0] == s[1];
        }
      }
    }
  }

  /** The rows in the order `le` puts them. */
  function Sort<T>(s: seq<T>, le: (T, T) -> bool): (r: seq<T>)
    ensures |r| == |s|
    ensures multiset(r) == multiset(s)
  {
    if |s| == 0 then []
    else
      assert s == [s[0]] + s[1..];
      Insert(s[0], Sort(s[1..], le), le)
  }

  /** The sorted rows are in order. */
  lemma {:induction false} SortSorted<T(!new)>(s: seq<T>, le: (T, T) -> bool)
    requires Total(le)
    ensures Sorted(Sort(s, le), le)
  {
    if |s| > 0 {
      SortSorted(s[1..], le);
      InsertSorted(s[0], Sort(s[1..], le), le);
    }
  }

  /** Sorting keeps exactly the elements it was given. */
  lemma SortMembers<T(!new)>(s: seq<T>, le: (T, T) -> bool)
    ensures forall x :: x in Sort(s, le) <==> x in s
  {
    forall x
      ensures x in Sort(s, le) <==> x in s
    {
      assert x in multiset(Sort(s, le)) <==> x in multiset(s);
    }
  }

  ghost predicate Symmetric<T(!new)>(ne: (T, T) -> bool) {
    forall a, b :: ne(a, b) ==> ne(b, a)
  }

  ghost predicate Transitive<T(!new)>(lt: (T, T) -> bool) {
    forall a, b, c :: lt(a, b) && lt(b, c) ==> lt(a, c)
  }

  /** A head apart from every element of a tail whose elements are
      pairwise apart. */
  lemma ConsApart<T>(h: T, t: seq<T>, ne: (T, T) -> bool)
    requires Pairwise(t, ne)
    requires forall y :: y in t ==> ne(h, y)
    ensures Pairwise([h] + t, ne)
  {
    var r := [h] + t;
    forall i, j | 0 <= i < j < |r|
      ensures ne(r[i], r[j])
    {
      assert r[j] == t[j - 1] && t[j - 1] in t;
      if i > 0 {
        assert r[i] == t[i - 1];
      }
    }
  }

  /** The tail of a sequence whose elements are pairwise apart. */
  lemma TailApart<T>(s: seq<T>, ne: (T, T) -> bool)
    requires |s| > 0 && Pairwise(s, ne)
    ensures Pairwise(s[1..], ne)
    ensures forall y :: y in s[1..] ==> ne(s[0], y)
  {
    var rest := s[1..];
    forall i, j | 0 <= i < j < |rest|
      ensures ne(rest[i], rest[j])
    {
      assert rest[i] == s[i + 1] && rest[j] == s[j + 1];
    }
    forall y | y in rest
      ensures ne(s[0], y)
    {
      var k :| 0 <= k < |rest| && rest[k] == y;
      assert y == s[k + 1];
    }
  }

  /** Inserting an element apart from all the others keeps them pairwise
      apart. */
  lemma {:induction false} InsertApart<T(!new)>(x: T, s: seq<T>, le: (T, T) -> bool, ne: (T, T) -> bool)
    requires Symmetric(ne) && Pairwise(s, ne)
    requires forall y :: y in s ==> ne(x, y)
    ensures Pairwise(Insert(x, s, le), ne)
  {
    if |s| == 0 {
      ConsApart(x, s, ne);
      assert [x] + s == [x];
    } else if le(x, s[0]) {
      ConsApart(x, s, ne);
    } else {
      var rest := s[1..];
      TailApart(s, ne);
      assert forall y :: y in rest ==> y in s;
      InsertApart(x, rest, le, ne);
      var ins := Insert(x, rest, le);
      forall y | y in ins
        ensures ne(s[0], y)
      {
        assert y in multiset(ins);
        if y == x {
          assert s[0] in s;
        }
      }
      ConsApart(s[0], ins, ne);
    }
  }

  /** Sorting keeps elements that were pairwise apart pairwise apart. */
  lemma {:induction false} SortApart<T(!new)>(s: seq<T>, le: (T, T) -> bool, ne: (T, T) -> bool)
    requires Symmetric(ne) && Pairwise(s, ne)
    ensures Pairwise(Sort(s, le), ne)
  {
    if |s| > 0 {
      var rest := s[1..];
      TailApart(s, ne);
      SortApart(rest, le, ne);
      SortMembers(rest, le);
      InsertApart(s[0], Sort(rest, le), le, ne);
    }
  }

  /** A sorted sequence whose elements are pairwise apart is strictly
      ordered, when `le` on elements apart is a transitive `lt`. */
  lemma {:induction false} SortedStrict<T(!new)>(s: seq<T>, le: (T, T) -> bool, ne: (T, T) -> bool, lt: (T, T) -> bool)
    requires forall a, b :: le(a, b) && ne(a, b) ==> lt(a, b)
    requires Transitive(lt)
    requires Sorted(s, le) && Pairwise(s, ne)
    ensures Pairwise(s, lt)
  {
    if |s| > 1 {
      var init := s[..|s| - 1];
      assert Sorted(init, le) by {
        forall i | 0 <= i < |init| - 1
          ensures le(init[i], init[i + 1])
        {
          assert init[i] == s[i] && init[i + 1] == s[i + 1];
        }
      }
      assert Pairwise(init, ne) by {
        forall i, j | 0 <= i < j < |init|
          ensures ne(init[i], init[j])
        {
          assert init[i] == s[i] && init[j] == s[j];
        }
      }
      SortedStrict(init, le, ne, lt);
      var n := |s| - 1;
      assert le(s[n - 1], s[n]) && ne(s[n - 1], s[n]);
      forall i, j | 0 <= i < j < |s|
        ensures lt(s[i], s[j])
      {
        if j < n {
          assert init[i] == s[i] && init[j] == s[j];
        } else if i < n - 1 {
          assert init[i] == s[i] && init[n - 1] == s[n - 1];
          assert lt(s[i], s[n - 1]);
        }
      }
    }
  }
}
