/** Small facts about sequences and finite sets that several components share. */
module Sequences {

  function Elems<T>(s: seq<T>): set<T> {
    set x | x in s
  }

  ghost predicate Distinct<T>(s: seq<T>) {
    forall i, j :: 0 <= i < j < |s| ==> s[i] != s[j]
  }

  lemma {:induction false} DistinctElems<T>(s: seq<T>)
    requires Distinct(s)
    ensures |Elems(s)| == |s|
  {
    if s == [] {
    } else {
      var front := s[..|s| - 1];
      DistinctElems(front);
      assert s == front + [s[|s| - 1]];
      assert Elems(s) == Elems(front) + {s[|s| - 1]};
    }
  }

  lemma {:induction false} ElemsDistinct<T>(s: seq<T>)
    ensures |Elems(s)| <= |s|
    ensures |Elems(s)| == |s| ==> Distinct(s)
  {
    if s != [] {
      var front, last := s[..|s| - 1], s[|s| - 1];
      ElemsDistinct(front);
      assert s == front + [last];
      assert Elems(s) == Elems(front) + {last};
      if last in front {
        assert Elems(s) == Elems(front);
      }
    }
  }

  lemma SubsetSize<T>(small: set<T>, large: set<T>)
    requires small <= large
    ensures |small| <= |large|
    ensures |small| == |large| ==> small == large
  {
    assert large == small + (large - small);
  }

  lemma NoElems<T>(s: seq<T>)
    requires s == []
    ensures Elems(s) == {}
  {
  }

  lemma UnconsElems<T>(s: seq<T>)
    requires s != [] && Distinct(s)
    ensures Distinct(s[1..]) && s[0] !in Elems(s[1..])
    ensures Elems(s) == {s[0]} + Elems(s[1..])
  {
  }

  lemma LastSplit<T>(s: seq<T>)
    requires s != []
    ensures s == s[..|s| - 1] + [s[|s| - 1]]
  {
  }

  lemma MarkingShrinks<T>(all: set<T>, marked: set<T>, x: T)
    requires x in all && x !in marked
    ensures |all - (marked + {x})| < |all - marked|
  {
    assert all - marked == all - (marked + {x}) + {x};
  }

  function Flatten<T>(parts: seq<seq<T>>): seq<T> {
    if parts == [] then [] else parts[0] + Flatten(parts[1..])
  }

  lemma {:induction false} FlattenAppend<T>(front: seq<seq<T>>, back: seq<seq<T>>)
    ensures Flatten(front + back) == Flatten(front) + Flatten(back)
  {
    if front == [] {
      assert front + back == back;
    } else {
      assert (front + back)[1..] == front[1..] + back;
      FlattenAppend(front[1..], back);
    }
  }

  lemma FlattenSnoc<T>(front: seq<seq<T>>, last: seq<T>)
    ensures Flatten(front + [last]) == Flatten(front) + last
  {
    FlattenAppend(front, [last]);
    assert Flatten([last]) == last + Flatten<T>([]);
  }

  lemma {:induction false} FlattenMember<T>(parts: seq<seq<T>>, x: T)
    ensures x in Flatten(parts) <==> exists k :: 0 <= k < |parts| && x in parts[k]
  {
    if parts != [] {
      FlattenMember(parts[1..], x);
      if x in Flatten(parts[1..]) {
        var k :| 0 <= k < |parts[1..]| && x in parts[1..][k];
        assert x in parts[k + 1];
      }
      if k :| 0 <= k < |parts| && x in parts[k] && k > 0 {
        assert x in parts[1..][k - 1];
      }
    }
  }

  lemma {:induction false} FlattenDistinct<T>(parts: seq<seq<T>>)
    requires forall k | 0 <= k < |parts| :: Distinct(parts[k])
    requires forall i, j | 0 <= i < j < |parts| :: Elems(parts[i]) !! Elems(parts[j])
    ensures Distinct(Flatten(parts))
  {
    if parts != [] {
      var rest := parts[1..];
      assert forall k | 0 <= k < |rest| :: rest[k] == parts[k + 1];
      FlattenDistinct(rest);
      forall x | x in Flatten(rest)
        ensures x !in parts[0]
      {
        FlattenMember(rest, x);
        var k :| 0 <= k < |rest| && x in rest[k];
        assert x in Elems(parts[k + 1]);
        assert Elems(parts[0]) !! Elems(parts[k + 1]);
        assert x !in Elems(parts[0]);
      }
      DistinctConcat(parts[0], Flatten(rest));
    }
  }

  lemma DistinctConcat<T>(xs: seq<T>, ys: seq<T>)
    requires Distinct(xs) && Distinct(ys) && forall y | y in ys :: y !in xs
    ensures Distinct(xs + ys)
  {
    forall i, j | 0 <= i < j < |xs + ys|
      ensures (xs + ys)[i] != (xs + ys)[j]
    {
      if i < |xs| <= j {
        assert (xs + ys)[j] in ys;
      }
    }
  }

  function Filter<T(!new)>(xs: seq<T>, p: T -> bool): (ys: seq<T>)
    ensures forall x :: x in ys <==> x in xs && p(x)
    ensures Distinct(xs) ==> Distinct(ys)
  {
    if xs == [] then []
    else
      var last := xs[|xs| - 1];
      var front := Filter(xs[..|xs| - 1], p);
      assert xs == xs[..|xs| - 1] + [last];
      assert Distinct(xs) ==> last !in xs[..|xs| - 1];
      if p(last) then front + [last] else front
  }

  lemma FilterSnoc<T(!new)>(xs: seq<T>, i: nat, p: T -> bool)
    requires i < |xs|
    ensures Filter(xs[..i + 1], p) == Filter(xs[..i], p) + if p(xs[i]) then [xs[i]] else []
  {
    assert xs[..i + 1][..i] == xs[..i];
  }

  lemma TakeAll<T>(xs: seq<T>)
    ensures xs[..|xs|] == xs
  {
  }

  /** Two duplicate-free listings of the same elements are permutations of each other. */
  lemma {:induction false} SameListing<T>(xs: seq<T>, ys: seq<T>)
    requires Distinct(xs) && Distinct(ys)
    requires forall x :: x in xs <==> x in ys
    ensures multiset(xs) == multiset(ys)
  {
    forall x
      ensures multiset(xs)[x] == multiset(ys)[x]
    {
      DistinctCount(xs, x);
      DistinctCount(ys, x);
    }
  }

  lemma {:induction false} DistinctCount<T>(xs: seq<T>, x: T)
    requires Distinct(xs)
    ensures multiset(xs)[x] == if x in xs then 1 else 0
  {
    if xs != [] {
      LastSplit(xs);
      DistinctCount(xs[..|xs| - 1], x);
    }
  }

  function Sum<T>(f: T -> real, xs: seq<T>): real {
    if xs == [] then 0.0 else Sum(f, xs[..|xs| - 1]) + f(xs[|xs| - 1])
  }

  lemma {:induction false} SumAppend<T>(f: T -> real, xs: seq<T>, ys: seq<T>)
    ensures Sum(f, xs + ys) == Sum(f, xs) + Sum(f, ys)
  {
    if ys == [] {
      assert xs + ys == xs;
    } else {
      assert (xs + ys)[..|xs + ys| - 1] == xs + ys[..|ys| - 1];
      SumAppend(f, xs, ys[..|ys| - 1]);
    }
  }

  lemma SumSnoc<T>(f: T -> real, xs: seq<T>, i: nat)
    requires i < |xs|
    ensures Sum(f, xs[..i + 1]) == Sum(f, xs[..i]) + f(xs[i])
  {
    assert xs[..i + 1][..i] == xs[..i];
  }

  /** Taking one occurrence of x out of a sequence. */
  lemma Extract<T>(ys: seq<T>, x: T) returns (front: seq<T>, back: seq<T>)
    requires x in ys
    ensures ys == front + [x] + back
    ensures multiset(front + back) == multiset(ys) - multiset{x}
  {
    var k :| 0 <= k < |ys| && ys[k] == x;
    front, back := ys[..k], ys[k + 1..];
    assert ys == front + [x] + back;
  }

  lemma {:induction false} SumPermutation<T>(f: T -> real, xs: seq<T>, ys: seq<T>)
    requires multiset(xs) == multiset(ys)
    ensures Sum(f, xs) == Sum(f, ys)
    decreases |xs|
  {
    if xs == [] {
      assert |multiset(ys)| == 0;
    } else {
      var x := xs[|xs| - 1];
      assert x in multiset(ys);
      var front, back := Extract(ys, x);
      LastSplit(xs);
      assert multiset(xs[..|xs| - 1]) == multiset(xs) - multiset{x};
      SumPermutation(f, xs[..|xs| - 1], front + back);
      SumAppend(f, front, back);
      SumAppend(f, front + [x], back);
    }
  }

  // ---------------------------------------------------------------- sorting

  ghost predicate TotalPreorder<T(!new)>(before: (T, T) -> bool) {
    && (forall a, b :: before(a, b) || before(b, a))
    && (forall a, b, c :: before(a, b) && before(b, c) ==> before(a, c))
  }

  ghost predicate SortedBy<T(!new)>(before: (T, T) -> bool, xs: seq<T>) {
    forall i, j :: 0 <= i < j < |xs| ==> before(xs[i], xs[j])
  }

  function InsertBy<T>(before: (T, T) -> bool, x: T, xs: seq<T>): seq<T> {
    if xs == [] then [x] else if before(x, xs[0]) then [x] + xs else [xs[0]] + InsertBy(before, x, xs[1..])
  }

  /** Stands for Python's `sorted` and numpy's sort, with the order given by `before`. */
  function SortBy<T>(before: (T, T) -> bool, xs: seq<T>): seq<T> {
    if xs == [] then [] else InsertBy(before, xs[0], SortBy(before, xs[1..]))
  }

  lemma {:induction false} InsertByCounts<T>(before: (T, T) -> bool, x: T, xs: seq<T>)
    ensures multiset(InsertBy(before, x, xs)) == multiset(xs) + multiset{x}
    ensures |InsertBy(before, x, xs)| == |xs| + 1
  {
    if xs != [] && !before(x, xs[0]) {
      InsertByCounts(before, x, xs[1..]);
      assert xs == [xs[0]] + xs[1..];
    }
  }

  lemma {:induction false} InsertBySorts<T(!new)>(before: (T, T) -> bool, x: T, xs: seq<T>)
    requires TotalPreorder(before) && SortedBy(before, xs)
    ensures SortedBy(before, InsertBy(before, x, xs))
  {
    if xs != [] && !before(x, xs[0]) {
      InsertBySorts(before, x, xs[1..]);
      InsertByCounts(before, x, xs[1..]);
      forall y | y in InsertBy(before, x, xs[1..])
        ensures before(xs[0], y)
      {
        assert y in multiset(InsertBy(before, x, xs[1..]));
      }
    }
  }

  lemma {:induction false} SortByCounts<T>(before: (T, T) -> bool, xs: seq<T>)
    ensures multiset(SortBy(before, xs)) == multiset(xs)
    ensures |SortBy(before, xs)| == |xs|
  {
    if xs != [] {
      SortByCounts(before, xs[1..]);
      InsertByCounts(before, xs[0], SortBy(before, xs[1..]));
      assert xs == [xs[0]] + xs[1..];
    }
  }

  lemma {:induction false} SortBySorts<T(!new)>(before: (T, T) -> bool, xs: seq<T>)
    requires TotalPreorder(before)
    ensures SortedBy(before, SortBy(before, xs))
  {
    hide TotalPreorder, SortedBy;
    if xs == [] {
      NothingToSort(before);
    } else {
      SortBySorts(before, xs[1..]);
      InsertBySorts(before, xs[0], SortBy(before, xs[1..]));
    }
  }

  lemma NothingToSort<T(!new)>(before: (T, T) -> bool)
    ensures SortedBy(before, [])
  {
  }

  /** A sorted listing stays as it is. */
  lemma {:induction false} SortedStays<T(!new)>(before: (T, T) -> bool, xs: seq<T>)
    requires SortedBy(before, xs)
    ensures SortBy(before, xs) == xs
  {
    if xs != [] {
      SortedStays(before, xs[1..]);
    }
  }

  lemma SameMultisetListing<T(!new)>(xs: seq<T>, ys: seq<T>)
    requires multiset(xs) == multiset(ys) && Distinct(xs)
    ensures Distinct(ys) && forall x :: x in xs <==> x in ys
  {
    forall x
      ensures x in xs <==> x in ys
    {
      assert x in multiset(xs) <==> x in multiset(ys);
    }
    forall i, j | 0 <= i < j < |ys|
      ensures ys[i] != ys[j]
    {
      DistinctCount(xs, ys[i]);
      if ys[i] == ys[j] {
        CountTwice(ys, i, j);
      }
    }
  }

  lemma CountTwice<T>(xs: seq<T>, i: nat, j: nat)
    requires i < j < |xs| && xs[i] == xs[j]
    ensures multiset(xs)[xs[i]] >= 2
  {
    assert xs == xs[..i] + [xs[i]] + xs[i + 1..j] + [xs[j]] + xs[j + 1..];
  }
}
