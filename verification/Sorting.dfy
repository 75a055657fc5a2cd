/** Ascending order of real numbers, and counting. */
module Sorting {
  import opened Sequences

  predicate Leq(a: real, b: real) { a <= b }

  function Ascending(xs: seq<real>): (ys: seq<real>)
    ensures |ys| == |xs|
  {
    SortByCounts(Leq, xs);
    SortBy(Leq, xs)
  }

  ghost predicate IsAscending(xs: seq<real>) { forall i, j :: 0 <= i < j < |xs| ==> xs[i] <= xs[j] }

  lemma AscendingFacts(xs: seq<real>)
    ensures IsAscending(Ascending(xs))
    ensures multiset(Ascending(xs)) == multiset(xs)
  {
    SortByCounts(Leq, xs);
    SortBySorts(Leq, xs);
  }

  lemma RestOfMultiset(s: seq<real>)
    requires s != []
    ensures multiset(s[1..]) == multiset(s) - multiset{s[0]}
  {
    assert s == [s[0]] + s[1..];
  }

  lemma HeadIsLeast(s: seq<real>)
    requires IsAscending(s) && s != []
    ensures IsAscending(s[1..])
    ensures forall x :: x in multiset(s) ==> s[0] <= x
  {
  }

  lemma SameHeads(s: seq<real>, t: seq<real>)
    requires IsAscending(s) && IsAscending(t) && multiset(s) == multiset(t) && s != []
    ensures t != [] && s[0] == t[0]
    ensures multiset(s[1..]) == multiset(t[1..])
  {
    hide IsAscending;
    assert s[0] in multiset(t);
    HeadIsLeast(s);
    HeadIsLeast(t);
    assert t[0] in multiset(s);
    RestOfMultiset(s);
    RestOfMultiset(t);
  }

  /** Ascending listings of the same values are equal. */
  lemma {:induction false} SortingForgetsOrder(s: seq<real>, t: seq<real>)
    requires IsAscending(s) && IsAscending(t) && multiset(s) == multiset(t)
    ensures s == t
  {
    hide IsAscending;
    if s == [] {
      assert |multiset(t)| == 0;
    } else {
      SameHeads(s, t);
      HeadIsLeast(s);
      HeadIsLeast(t);
      SortingForgetsOrder(s[1..], t[1..]);
      assert s == [s[0]] + s[1..] && t == [t[0]] + t[1..];
    }
  }

  // ---------------------------------------------------------------- counting

  function Count(p: real -> bool, xs: seq<real>): nat {
    if xs == [] then 0 else (if p(xs[0]) then 1 else 0) + Count(p, xs[1..])
  }

  lemma {:induction false} CountAppend(p: real -> bool, xs: seq<real>, ys: seq<real>)
    ensures Count(p, xs + ys) == Count(p, xs) + Count(p, ys)
  {
    if xs == [] {
      assert xs + ys == ys;
    } else {
      assert (xs + ys)[1..] == xs[1..] + ys;
      CountAppend(p, xs[1..], ys);
    }
  }

  lemma {:induction false} CountPermutation(p: real -> bool, xs: seq<real>, ys: seq<real>)
    requires multiset(xs) == multiset(ys)
    ensures Count(p, xs) == Count(p, ys)
    decreases |xs|
  {
    if xs == [] {
      assert |multiset(ys)| == 0;
    } else {
      assert xs[0] in multiset(ys);
      var front, back := Extract(ys, xs[0]);
      RestOfMultiset(xs);
      CountPermutation(p, xs[1..], front + back);
      CountAppend(p, front, back);
      CountAppend(p, front + [xs[0]], back);
      CountAppend(p, front, [xs[0]]);
    }
  }

  /** The counted values are those at the positions from `a` to `b`. */
  lemma {:induction false} CountBand(p: real -> bool, xs: seq<real>, a: nat, b: nat)
    requires a <= b <= |xs|
    requires forall i :: 0 <= i < |xs| ==> (p(xs[i]) <==> a <= i < b)
    ensures Count(p, xs) == b - a
  {
    if xs != [] {
      CountBand(p, xs[1..], if a > 0 then a - 1 else 0, if b > 0 then b - 1 else 0);
    }
  }

  function AtMost(c: real): real -> bool { (x: real) => x <= c }

  function Below(c: real): real -> bool { (x: real) => x < c }

  function Equal(c: real): real -> bool { (x: real) => x == c }

  lemma {:induction false} CountOccurs(v: real, values: seq<real>)
    requires v in values
    ensures Count(Equal(v), values) >= 1
  {
    if values[0] != v {
      CountOccurs(v, values[1..]);
    }
  }
}
