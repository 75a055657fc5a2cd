/**
  Tie-averaged ranks: the in-place ranking loop, what a rank is, and the sums of ranks and of their squares.
 */
module Ranks {
  import opened Sequences
  import opened Sorting

  /** The rank of a value: how many are less, plus the middle of those equal to it. */
  function RankOf(values: seq<real>, v: real): real {
    Count(Below(v), values) as real + (Count(Equal(v), values) as real + 1.0) / 2.0
  }

  /** The length of the run of equal values starting at a position. */
  function RunLength(s: seq<real>, i: nat): (t: nat)
    requires i < |s|
    ensures 0 < t <= |s| - i
    ensures forall k :: i <= k < i + t ==> s[k] == s[i]
    ensures i + t < |s| ==> s[i + t] != s[i]
    decreases |s| - i
  {
    if i + 1 < |s| && s[i + 1] == s[i] then 1 + RunLength(s, i + 1) else 1
  }

  /** The lengths of the runs of equal values from a position on. */
  function Runs(s: seq<real>, i: nat): seq<nat>
    requires i <= |s|
    decreases |s| - i
  {
    if i == |s| then [] else [RunLength(s, i)] + Runs(s, i + RunLength(s, i))
  }

  /** The tie sizes of some values, from the least value up. */
  function TieSizes(values: seq<real>): seq<nat> { Runs(Ascending(values), 0) }

  /** In ascending order, a run's values are preceded by exactly the smaller ones. */
  lemma RunCounts(s: seq<real>, i: nat)
    requires IsAscending(s) && i < |s| && (i > 0 ==> s[i - 1] < s[i])
    ensures Count(Below(s[i]), s) == i
    ensures Count(Equal(s[i]), s) == RunLength(s, i)
  {
    CountBand(Below(s[i]), s, 0, i);
    CountBand(Equal(s[i]), s, i, i + RunLength(s, i));
  }

  /** Ranks do not depend on the order of the values. */
  lemma RankPermutation(values: seq<real>, s: seq<real>, v: real)
    requires multiset(values) == multiset(s)
    ensures RankOf(values, v) == RankOf(s, v)
  {
    CountPermutation(Below(v), values, s);
    CountPermutation(Equal(v), values, s);
  }

  // ---------------------------------------------------------------- sorting positions

  function At(values: seq<real>, i: nat): real { if i < |values| then values[i] else 0.0 }

  function Pick(values: seq<real>, order: seq<nat>): seq<real> {
    seq(|order|, t requires 0 <= t < |order| => At(values, order[t]))
  }

  lemma PickAppend(values: seq<real>, xs: seq<nat>, ys: seq<nat>)
    ensures Pick(values, xs + ys) == Pick(values, xs) + Pick(values, ys)
  {
  }

  lemma {:induction false} PickPermutation(values: seq<real>, xs: seq<nat>, ys: seq<nat>)
    requires multiset(xs) == multiset(ys)
    ensures multiset(Pick(values, xs)) == multiset(Pick(values, ys))
    decreases |xs|
  {
    if xs == [] {
      assert |multiset(ys)| == 0;
    } else {
      var x := xs[0];
      assert x in multiset(ys);
      var front, back := Extract(ys, x);
      assert xs == [x] + xs[1..];
      PickPermutation(values, xs[1..], front + back);
      PickAppend(values, [x], xs[1..]);
      PickAppend(values, front, back);
      PickAppend(values, front + [x], back);
      PickAppend(values, front, [x]);
    }
  }

  function UpTo(n: nat): seq<nat> { seq(n, i requires 0 <= i < n => i) }

  /** The positions in ascending order of their values. */
  method SortPositions(values: seq<real>) returns (order: seq<nat>)
    ensures multiset(order) == multiset(UpTo(|values|))
    ensures Pick(values, order) == Ascending(values)
  {
    var before := (i: nat, j: nat) => At(values, i) <= At(values, j);
    order := SortBy(before, UpTo(|values|));
    SortByCounts(before, UpTo(|values|));
    SortBySorts(before, UpTo(|values|));
    PickPermutation(values, order, UpTo(|values|));
    assert Pick(values, UpTo(|values|)) == values;
    AscendingFacts(values);
    assert IsAscending(Pick(values, order));
    SortingForgetsOrder(Pick(values, order), Ascending(values));
  }

  lemma OrderIsPermutation(order: seq<nat>, n: nat)
    requires multiset(order) == multiset(UpTo(n))
    ensures |order| == n && Distinct(order)
    ensures forall i: nat :: i in order <==> i < n
    ensures forall t :: 0 <= t < |order| ==> order[t] < n
  {
    assert |multiset(order)| == |multiset(UpTo(n))|;
    forall i: nat | i < n
      ensures i in UpTo(n)
    {
      assert UpTo(n)[i] == i;
    }
    assert Distinct(UpTo(n));
    SameMultisetListing(UpTo(n), order);
    forall t | 0 <= t < |order|
      ensures order[t] < n
    {
      assert order[t] in order;
    }
  }

  // ---------------------------------------------------------------- the ranking loop

  /** The order lists every position once, by ascending value. */
  ghost predicate OrdersPositions(values: seq<real>, order: seq<nat>) {
    && |order| == |values| && Distinct(order)
    && (forall i: nat :: i < |values| ==> i in order)
    && (forall t :: 0 <= t < |order| ==> order[t] < |values| && values[order[t]] == Ascending(values)[t])
  }

  method RanksTieAveraged(values: seq<real>) returns (ranks: array<real>, tieSizes: seq<nat>)
    ensures fresh(ranks) && ranks.Length == |values|
    ensures forall i :: 0 <= i < |values| ==> ranks[i] == RankOf(values, values[i])
    ensures tieSizes == TieSizes(values)
  {
    hide RankOf, RunsBefore, OrdersPositions, RunLength, IsAscending, RankedBefore, Ascending, TieSizes;
    var order := SortPositions(values);
    ListsPositions(values, order);
    ghost var s := Ascending(values);
    ranks := new real[|values|](_ => 0.0);
    tieSizes := [];
    NoRunsYet(s);
    NoneRanked(values, order, ranks);
    var i := 0;
    while i < |order|
      invariant 0 <= i <= |order| == |values|
      invariant 0 < i < |order| ==> s[i - 1] < s[i]
      invariant RunsBefore(tieSizes, s, i)
      invariant RankedBefore(values, order, ranks, i)
    {
      var j := EndOfRun(values, order, i);
      RunRank(values, i, j);
      var avgRank := (i + 1 + j + 1) as real / 2.0;
      FillRun(values, ranks, order, i, j, avgRank);
      var size: nat := j - i + 1;
      NextRun(tieSizes, s, i, size);
      tieSizes := tieSizes + [size];
      i := j + 1;
    }
    AllRuns(tieSizes, values);
    AllRanked(values, order, ranks);
  }

  lemma ListsPositions(values: seq<real>, order: seq<nat>)
    requires multiset(order) == multiset(UpTo(|values|)) && Pick(values, order) == Ascending(values)
    ensures OrdersPositions(values, order) && |order| == |values|
  {
    OrderIsPermutation(order, |values|);
    assert forall t :: 0 <= t < |order| ==> values[order[t]] == Pick(values, order)[t];
  }

  /** The ranks of the positions listed before `i` are set. */
  ghost predicate RankedBefore(values: seq<real>, order: seq<nat>, ranks: array<real>, i: nat)
    reads ranks
  {
    && i <= |order| && |order| == |values| == ranks.Length
    && forall t :: 0 <= t < i ==> order[t] < ranks.Length && ranks[order[t]] == RankOf(values, Ascending(values)[t])
  }

  lemma NoneRanked(values: seq<real>, order: seq<nat>, ranks: array<real>)
    requires |order| == |values| == ranks.Length
    ensures RankedBefore(values, order, ranks, 0)
  {
  }

  lemma AllRanked(values: seq<real>, order: seq<nat>, ranks: array<real>)
    requires OrdersPositions(values, order) && RankedBefore(values, order, ranks, |order|)
    ensures forall i :: 0 <= i < |values| ==> ranks[i] == RankOf(values, values[i])
  {
    hide RankOf;
    forall i | 0 <= i < |values|
      ensures ranks[i] == RankOf(values, values[i])
    {
      assert i in order;
      var t :| 0 <= t < |order| && order[t] == i;
    }
  }

  method EndOfRun(values: seq<real>, order: seq<nat>, i: nat) returns (j: nat)
    requires OrdersPositions(values, order) && i < |order|
    ensures i <= j < |order| == |values| && RunLength(Ascending(values), i) == j - i + 1
    ensures j + 1 < |order| ==> Ascending(values)[j] < Ascending(values)[j + 1]
  {
    ghost var s := Ascending(values);
    assert IsAscending(s) by {
      AscendingFacts(values);
    }
    j := i;
    while j + 1 < |order| && values[order[j + 1]] == values[order[i]]
      invariant i <= j < |order|
      invariant forall t :: i <= t <= j ==> s[t] == s[i]
    {
      j := j + 1;
    }
    RunEnd(s, i, j);
  }

  method FillRun(values: seq<real>, ranks: array<real>, order: seq<nat>, i: nat, j: nat, avgRank: real)
    requires OrdersPositions(values, order) && i <= j < |order| && RankedBefore(values, order, ranks, i)
    requires RunLength(Ascending(values), i) == j - i + 1
    requires avgRank == RankOf(values, Ascending(values)[i])
    modifies ranks
    ensures RankedBefore(values, order, ranks, j + 1)
  {
    hide RankOf;
    for t := i to j + 1
      invariant RankedBefore(values, order, ranks, t)
    {
      ranks[order[t]] := avgRank;
    }
  }

  /** The sizes of the runs before a position. */
  ghost predicate RunsBefore(sizes: seq<nat>, s: seq<real>, i: nat) {
    i <= |s| && sizes + Runs(s, i) == Runs(s, 0)
  }

  lemma NoRunsYet(s: seq<real>)
    ensures RunsBefore([], s, 0)
  {
  }

  lemma AllRuns(sizes: seq<nat>, values: seq<real>)
    requires RunsBefore(sizes, Ascending(values), |values|)
    ensures sizes == TieSizes(values)
  {
    assert sizes + [] == sizes;
  }

  lemma NextRun(sizes: seq<nat>, s: seq<real>, i: nat, size: nat)
    requires RunsBefore(sizes, s, i) && i < |s| && size == RunLength(s, i)
    ensures RunsBefore(sizes + [size], s, i + size)
  {
  }

  /** The inner loop stops at the end of the run. */
  lemma RunEnd(s: seq<real>, i: nat, j: nat)
    requires IsAscending(s) && i <= j < |s|
    requires forall t :: i <= t <= j ==> s[t] == s[i]
    requires j + 1 < |s| ==> s[j + 1] != s[i]
    ensures RunLength(s, i) == j - i + 1
    ensures j + 1 < |s| ==> s[j] < s[j + 1]
  {
  }

  /** The average of a run's first and last position, counted from 1, is the rank of its value. */
  lemma RunRank(values: seq<real>, i: nat, j: nat)
    requires var s := Ascending(values);
      i < |s| && (i > 0 ==> s[i - 1] < s[i]) && RunLength(s, i) == j - i + 1
    ensures RankOf(values, Ascending(values)[i]) == (i + 1 + j + 1) as real / 2.0
  {
    var s := Ascending(values);
    AscendingFacts(values);
    RunCounts(s, i);
    RankPermutation(values, s, s[i]);
  }

  // ---------------------------------------------------------------- sums of ranks

  /** 1 + 2 + ... + n */
  function Triangle(n: real): real { n * (n + 1.0) / 2.0 }

  /** 1 + 4 + ... + n squared */
  function Pyramid(n: real): real { n * (n + 1.0) * (2.0 * n + 1.0) / 6.0 }

  function Excess(t: real): real { t * t * t - t }

  /** The tie term: the sum of t cubed minus t. */
  function TieTerm(sizes: seq<nat>): real {
    if sizes == [] then 0.0 else Excess(sizes[0] as real) + TieTerm(sizes[1..])
  }

  function Ranker(values: seq<real>): real -> real { (v: real) => RankOf(values, v) }

  function Square(x: real): real { x * x }

  function RankSquarer(values: seq<real>): real -> real { (v: real) => Square(RankOf(values, v)) }

  function Times(n: nat, c: real): real { n as real * c }

  lemma TimesNext(n: nat, c: real)
    ensures Times(0, c) == 0.0 && Times(n + 1, c) == Times(n, c) + c
  {
  }

  lemma {:induction false} SumConstant<T>(f: T -> real, xs: seq<T>, c: real)
    requires forall i :: 0 <= i < |xs| ==> f(xs[i]) == c
    ensures Sum(f, xs) == Times(|xs|, c)
  {
    hide Times;
    if xs == [] {
      TimesNext(0, c);
    } else {
      SumConstant(f, xs[..|xs| - 1], c);
      TimesNext(|xs| - 1, c);
    }
  }

  /** A run of equal values, summed. */
  lemma SumRun(f: real -> real, s: seq<real>, i: nat, t: nat)
    requires i + t <= |s| && i < |s| && forall k :: i <= k < i + t ==> s[k] == s[i]
    ensures Sum(f, s[i..]) == Times(t, f(s[i])) + Sum(f, s[i + t..])
  {
    hide Times;
    var run := s[i..i + t];
    assert s[i..] == run + s[i + t..];
    SumAppend(f, run, s[i + t..]);
    SumConstant(f, run, f(s[i]));
  }

  /** The middle rank of a run of `t` values after `i` smaller ones. */
  function MiddleRank(i: nat, t: nat): real { i as real + (t as real + 1.0) / 2.0 }

  lemma RunArithmetic(i: nat, t: nat)
    ensures Times(t, MiddleRank(i, t)) == Triangle((i + t) as real) - Triangle(i as real)
    ensures Times(t, Square(MiddleRank(i, t)))
         == Pyramid((i + t) as real) - Pyramid(i as real) - Excess(t as real) / 12.0
  {
  }

  lemma {:induction false} TailTotals(s: seq<real>, i: nat)
    requires IsAscending(s) && i <= |s| && (0 < i < |s| ==> s[i - 1] < s[i])
    ensures Sum(Ranker(s), s[i..]) == Triangle(|s| as real) - Triangle(i as real)
    ensures Sum(RankSquarer(s), s[i..])
         == Pyramid(|s| as real) - Pyramid(i as real) - TieTerm(Runs(s, i)) / 12.0
    decreases |s| - i
  {
    hide RankOf, Triangle, Pyramid, Square, Excess, IsAscending, Times, MiddleRank, Sum, TieTerm, Runs;
    if i == |s| {
      NothingLeft(s);
    } else {
      var t := RunLength(s, i);
      NextBoundary(s, i);
      TailTotals(s, i + t);
      RunTotals(s, i);
      RunArithmetic(i, t);
      NextTie(s, i);
    }
  }

  lemma NothingLeft(s: seq<real>)
    ensures Sum(Ranker(s), s[|s|..]) == 0.0 && Sum(RankSquarer(s), s[|s|..]) == 0.0
    ensures TieTerm(Runs(s, |s|)) == 0.0
  {
  }

  lemma NextTie(s: seq<real>, i: nat)
    requires i < |s|
    ensures var t := RunLength(s, i); TieTerm(Runs(s, i)) == Excess(t as real) + TieTerm(Runs(s, i + t))
  {
  }

  lemma RunMiddle(s: seq<real>, i: nat)
    requires IsAscending(s) && i < |s| && (i > 0 ==> s[i - 1] < s[i])
    ensures RankOf(s, s[i]) == MiddleRank(i, RunLength(s, i))
  {
    RunCounts(s, i);
  }

  /** The ranks of one run, all in the middle of its positions. */
  lemma RunTotals(s: seq<real>, i: nat)
    requires IsAscending(s) && i < |s| && (0 < i < |s| ==> s[i - 1] < s[i])
    ensures var t := RunLength(s, i);
      && Sum(Ranker(s), s[i..]) == Times(t, MiddleRank(i, t)) + Sum(Ranker(s), s[i + t..])
      && Sum(RankSquarer(s), s[i..]) == Times(t, Square(MiddleRank(i, t))) + Sum(RankSquarer(s), s[i + t..])
  {
    hide RankOf, Square, IsAscending, Times, MiddleRank;
    var t := RunLength(s, i);
    SumRun(Ranker(s), s, i, t);
    SumRun(RankSquarer(s), s, i, t);
    RunMiddle(s, i);
  }

  lemma NextBoundary(s: seq<real>, i: nat)
    requires IsAscending(s) && i < |s|
    ensures var t := RunLength(s, i); i + t < |s| ==> s[i + t - 1] < s[i + t]
  {
  }

  /** The ranks sum to 1 + ... + n, and their squares to 1 + ... + n squared less a twelfth of the tie term. */
  lemma RankTotals(values: seq<real>)
    ensures Sum(Ranker(values), values) == Triangle(|values| as real)
    ensures Sum(RankSquarer(values), values) == Pyramid(|values| as real) - TieTerm(TieSizes(values)) / 12.0
  {
    hide RankOf, IsAscending;
    var s := Ascending(values);
    AscendingFacts(values);
    SumPermutation(Ranker(values), values, s);
    SumPermutation(RankSquarer(values), values, s);
    forall v
      ensures RankOf(values, v) == RankOf(s, v)
    {
      RankPermutation(values, s, v);
    }
    SumSame(Ranker(values), Ranker(s), s);
    SumSame(RankSquarer(values), RankSquarer(s), s);
    TailTotals(s, 0);
  }

  lemma {:induction false} SumSame<T>(f: T -> real, g: T -> real, xs: seq<T>)
    requires forall i :: 0 <= i < |xs| ==> f(xs[i]) == g(xs[i])
    ensures Sum(f, xs) == Sum(g, xs)
  {
    if xs != [] {
      SumSame(f, g, xs[..|xs| - 1]);
    }
  }

  lemma {:induction false} TieTermSnoc(sizes: seq<nat>, i: nat)
    requires i < |sizes|
    ensures TieTerm(sizes[..i + 1]) == TieTerm(sizes[..i]) + Excess(sizes[i] as real)
  {
    hide Excess;
    if i == 0 {
      assert sizes[..1][1..] == [];
    } else {
      TieTermSnoc(sizes[1..], i - 1);
      assert sizes[..i + 1][1..] == sizes[1..][..i];
      assert sizes[..i][1..] == sizes[1..][..i - 1];
    }
  }

  method SumTies(sizes: seq<nat>) returns (term: real)
    ensures term == TieTerm(sizes)
  {
    term := 0.0;
    for i := 0 to |sizes|
      invariant term == TieTerm(sizes[..i])
    {
      TieTermSnoc(sizes, i);
      term := term + (sizes[i] * sizes[i] * sizes[i] - sizes[i]) as real;
      assert (sizes[i] * sizes[i] * sizes[i] - sizes[i]) as real == Excess(sizes[i] as real);
    }
    TakeAll(sizes);
  }
}
