/**
  The Kruskal-Wallis statistic: the share of the spread of the ranks that lies between the groups.
 */
module Kruskal {
  import opened Sequences
  import opened Sorting
  import opened Ranks

  // ---------------------------------------------------------------- spreads

  function Middle(n: nat): real { (n as real + 1.0) / 2.0 }

  /** A rank's squared deviation from a centre. */
  function Deviator(all: seq<real>, m: real): real -> real { (v: real) => Square(RankOf(all, v) - m) }

  /** The squared deviations of all ranks from their mean. */
  function Total(all: seq<real>): real { Sum(Deviator(all, Middle(|all|)), all) }

  function PerGroup(f: real -> real): seq<real> -> real { (g: seq<real>) => Sum(f, g) }

  function RankSum(all: seq<real>, g: seq<real>): real { Sum(Ranker(all), g) }

  function GroupSquare(all: seq<real>): seq<real> -> real {
    (g: seq<real>) => if g == [] then 0.0 else Square(RankSum(all, g)) / |g| as real
  }

  /** A group's size times the squared deviation of its mean rank. */
  function GroupDeviation(all: seq<real>): seq<real> -> real {
    (g: seq<real>) => if g == [] then 0.0 else Times(|g|, Square(RankSum(all, g) / |g| as real - Middle(|all|)))
  }

  function Between(groups: seq<seq<real>>): real { Sum(GroupDeviation(Flatten(groups)), groups) }

  // ---------------------------------------------------------------- the computation

  function NonEmpty(groups: seq<seq<real>>): seq<seq<real>> {
    if groups == [] then []
    else
      var g := groups[|groups| - 1];
      NonEmpty(groups[..|groups| - 1]) + if g != [] then [g] else []
  }

  function Room(n: real): real { n * (n + 1.0) }

  function Scaled(n: real, x: real): real
    requires Room(n) > 0.0
  {
    12.0 / Room(n) * x
  }

  function Raw(n: real, h: real): real
    requires Room(n) > 0.0
  {
    Scaled(n, h) - 3.0 * (n + 1.0)
  }

  /** A share of the largest value the statistic can take. */
  function ShareOf(n: real, between: real, total: real): real
    requires total > 0.0
  {
    (n - 1.0) * (between / total)
  }

  function TieCorrection(n: real, ties: real): real
    requires Excess(n) != 0.0
  {
    1.0 - ties / Excess(n)
  }

  // ---------------------------------------------------------------- sums of squares

  lemma ShiftStep(x: real, m: real)
    ensures Square(x - m) == Square(x) - 2.0 * m * x + Square(m)
  {
  }

  /** What centring on `m` adds to a sum of squares of `n` values that sum to `s`. */
  function Centring(m: real, s: real, n: nat): real { Times(n, Square(m)) - 2.0 * m * s }

  lemma CentringAdds(m: real, s: real, n: nat, r: real, k: nat)
    ensures Centring(m, 0.0, 0) == 0.0
    ensures Centring(m, r, 1) == Square(m) - 2.0 * m * r
    ensures Centring(m, s + r, n + k) == Centring(m, s, n) + Centring(m, r, k)
  {
  }

  /** Squared deviations from any centre, by the sums of the ranks and of their squares. */
  lemma {:induction false} SumDeviations(all: seq<real>, m: real, xs: seq<real>)
    ensures Sum(Deviator(all, m), xs) == Sum(RankSquarer(all), xs) + Centring(m, Sum(Ranker(all), xs), |xs|)
  {
    hide Square, Centring, RankOf;
    if xs == [] {
      CentringAdds(m, 0.0, 0, 0.0, 0);
    } else {
      var front := xs[..|xs| - 1];
      var r := RankOf(all, xs[|xs| - 1]);
      SumDeviations(all, m, front);
      ShiftStep(r, m);
      CentringAdds(m, Sum(Ranker(all), front), |front|, r, 1);
    }
  }

  lemma {:induction false} SumNonNegative<T>(f: T -> real, xs: seq<T>)
    requires forall i :: 0 <= i < |xs| ==> f(xs[i]) >= 0.0
    ensures Sum(f, xs) >= 0.0
    ensures Sum(f, xs) == 0.0 ==> forall i :: 0 <= i < |xs| ==> f(xs[i]) == 0.0
  {
    if xs != [] {
      SumNonNegative(f, xs[..|xs| - 1]);
      assert forall i :: 0 <= i < |xs| - 1 ==> xs[..|xs| - 1][i] == xs[i];
    }
  }

  lemma {:induction false} SumAtMost<T>(f: T -> real, g: T -> real, xs: seq<T>)
    requires forall i :: 0 <= i < |xs| ==> f(xs[i]) <= g(xs[i])
    ensures Sum(f, xs) <= Sum(g, xs)
  {
    if xs != [] {
      SumAtMost(f, g, xs[..|xs| - 1]);
    }
  }

  lemma {:induction false} SumFlatten(f: real -> real, groups: seq<seq<real>>)
    ensures Sum(f, Flatten(groups)) == Sum(PerGroup(f), groups)
  {
    if groups != [] {
      var last := |groups| - 1;
      SumFlatten(f, groups[..last]);
      LastSplit(groups);
      FlattenSnoc(groups[..last], groups[last]);
      SumAppend(f, Flatten(groups[..last]), groups[last]);
    }
  }

  // ---------------------------------------------------------------- spread between groups

  lemma SquareAboutMean(n: nat, r: real, m: real)
    requires n > 0
    ensures Times(n, Square(r / n as real - m)) == Square(r) / n as real + Centring(m, r, n)
    ensures Centring(r / n as real, r, n) == -(Square(r) / n as real)
  {
  }

  lemma GroupAboutMean(all: seq<real>, g: seq<real>)
    ensures GroupDeviation(all)(g) == GroupSquare(all)(g) + Centring(Middle(|all|), RankSum(all, g), |g|)
  {
    hide Square, Centring, Times, Middle, RankOf;
    var m := Middle(|all|);
    if g == [] {
      CentringAdds(m, 0.0, 0, 0.0, 0);
    } else {
      SquareAboutMean(|g|, RankSum(all, g), m);
    }
  }

  lemma {:induction false} BetweenByGroups(all: seq<real>, groups: seq<seq<real>>)
    ensures Sum(GroupDeviation(all), groups)
         == Sum(GroupSquare(all), groups) + Centring(Middle(|all|), Sum(Ranker(all), Flatten(groups)), |Flatten(groups)|)
  {
    hide Square, Centring, Times, Middle, RankOf, GroupDeviation, GroupSquare, Ranker;
    var m := Middle(|all|);
    if groups == [] {
      CentringAdds(m, 0.0, 0, 0.0, 0);
    } else {
      var last := |groups| - 1;
      var g := groups[last];
      BetweenByGroups(all, groups[..last]);
      LastSplit(groups);
      FlattenSnoc(groups[..last], g);
      SumAppend(Ranker(all), Flatten(groups[..last]), g);
      CentringAdds(m, Sum(Ranker(all), Flatten(groups[..last])), |Flatten(groups[..last])|, RankSum(all, g), |g|);
      GroupAboutMean(all, g);
    }
  }

  lemma DeviationsNonNegative(all: seq<real>, m: real, xs: seq<real>)
    ensures Sum(Deviator(all, m), xs) >= 0.0
    ensures Sum(Deviator(all, m), xs) == 0.0 ==> forall i :: 0 <= i < |xs| ==> RankOf(all, xs[i]) == m
  {
    hide RankOf, Square;
    forall i | 0 <= i < |xs|
      ensures Deviator(all, m)(xs[i]) >= 0.0
      ensures Deviator(all, m)(xs[i]) == 0.0 ==> RankOf(all, xs[i]) == m
    {
      SquareNonNegative(RankOf(all, xs[i]) - m);
    }
    SumNonNegative(Deviator(all, m), xs);
  }

  /** No group spreads more about the overall mean than its own values do. */
  lemma GroupWithinTotal(all: seq<real>, g: seq<real>)
    ensures 0.0 <= GroupDeviation(all)(g) <= Sum(Deviator(all, Middle(|all|)), g)
  {
    hide RankOf, Centring, Middle, Times, Square;
    if g != [] {
      var m := Middle(|all|);
      var a := RankSum(all, g) / |g| as real;
      SumDeviations(all, m, g);
      SumDeviations(all, a, g);
      DeviationsNonNegative(all, a, g);
      SquareAboutMean(|g|, RankSum(all, g), m);
      SquareNonNegative(a - m);
      TimesNonNegative(|g|, Square(a - m));
    }
  }

  lemma SquareNonNegative(x: real)
    ensures Square(x) >= 0.0
    ensures Square(x) == 0.0 <==> x == 0.0
  {
    if x != 0.0 {
      SquarePositive(x);
    } else {
      assert x == 0.0 && 0.0 * 0.0 == 0.0;
    }
  }

  lemma SquarePositive(x: real)
    requires x != 0.0
    ensures Square(x) > 0.0
  {
    SameSign(x, x, Square(x));
  }

  lemma SameSign(a: real, b: real, product: real)
    requires (a < 0.0 && b < 0.0) || (a > 0.0 && b > 0.0)
    requires product == a * b
    ensures product > 0.0
  {
  }

  lemma TimesNonNegative(n: nat, x: real)
    requires x >= 0.0
    ensures Times(n, x) >= 0.0
  {
  }

  lemma BetweenWithinTotal(groups: seq<seq<real>>)
    ensures 0.0 <= Between(groups) <= Total(Flatten(groups))
  {
    hide GroupDeviation, RankOf, Deviator, Middle;
    var all := Flatten(groups);
    var f := Deviator(all, Middle(|all|));
    forall i | 0 <= i < |groups|
      ensures 0.0 <= GroupDeviation(all)(groups[i]) <= PerGroup(f)(groups[i])
    {
      GroupWithinTotal(all, groups[i]);
    }
    SumNonNegative(GroupDeviation(all), groups);
    SumAtMost(GroupDeviation(all), PerGroup(f), groups);
    SumFlatten(f, groups);
  }

  // ---------------------------------------------------------------- total spread and ties

  lemma MeanArithmetic(n: nat)
    ensures Centring(Middle(n), Triangle(n as real), n) == -Times(n, Square(Middle(n)))
    ensures Pyramid(n as real) - Times(n, Square(Middle(n))) == Excess(n as real) / 12.0
  {
  }

  /** Ties take a twelfth of their term off the spread that distinct ranks would have. */
  lemma TotalAndTies(all: seq<real>)
    ensures Total(all) == (Excess(|all| as real) - TieTerm(TieSizes(all))) / 12.0
  {
    hide RankOf, Square, Centring, Times, Middle, Pyramid, Triangle, Excess;
    SumDeviations(all, Middle(|all|), all);
    RankTotals(all);
    MeanArithmetic(|all|);
  }

  /** The sum of the scaled squared rank sums, recentred, is the spread between the groups. */
  lemma SquaresAreBetween(groups: seq<seq<real>>)
    ensures var all := Flatten(groups);
      Sum(GroupSquare(all), groups) == Between(groups) + Times(|all|, Square(Middle(|all|)))
  {
    hide RankOf, Square, Centring, Times, Middle, Triangle, Excess, GroupSquare, GroupDeviation;
    var all := Flatten(groups);
    BetweenByGroups(all, groups);
    RankTotals(all);
    MeanArithmetic(|all|);
  }

  lemma RawIsBetween(groups: seq<seq<real>>)
    requires |Flatten(groups)| > 0
    ensures var all := Flatten(groups);
      && var n := |all| as real;
      && Room(n) > 0.0
      && Raw(n, Sum(GroupSquare(all), groups)) == Scaled(n, Between(groups))
  {
    hide RankOf, GroupSquare, GroupDeviation, Between;
    var all := Flatten(groups);
    SquaresAreBetween(groups);
    RawArithmetic(|all| as real, Between(groups));
  }

  lemma RawArithmetic(n: real, b: real)
    requires n > 0.0
    ensures Room(n) > 0.0
    ensures Raw(n, b + n * Square((n + 1.0) / 2.0)) == Scaled(n, b)
  {
  }

  lemma ExcessPositive(n: nat)
    requires n >= 2
    ensures Excess(n as real) > 0.0
    ensures Room(n as real) > 0.0
    ensures Excess(n as real) == (n as real - 1.0) * Room(n as real)
  {
  }

  lemma TotalNonNegative(all: seq<real>)
    ensures Total(all) >= 0.0
  {
    DeviationsNonNegative(all, Middle(|all|), all);
  }

  /** The tie correction is the share of the full spread that the ranks keep. */
  lemma CorrectionIsShare(all: seq<real>)
    requires |all| >= 2
    ensures Excess(|all| as real) > 0.0
    ensures TieCorrection(|all| as real, TieTerm(TieSizes(all))) == 12.0 * Total(all) / Excess(|all| as real)
    ensures 0.0 <= TieCorrection(|all| as real, TieTerm(TieSizes(all))) <= 1.0
    ensures TieCorrection(|all| as real, TieTerm(TieSizes(all))) == 0.0 <==> Total(all) == 0.0
  {
    hide RankOf, Excess, Total, Deviator;
    ExcessPositive(|all|);
    TotalAndTies(all);
    TotalNonNegative(all);
    TiesNonNegative(TieSizes(all));
    ShareArithmetic(Excess(|all| as real), TieTerm(TieSizes(all)), Total(all));
  }

  lemma ShareArithmetic(e: real, ties: real, total: real)
    requires e > 0.0 && ties >= 0.0 && total == (e - ties) / 12.0 && total >= 0.0
    ensures 1.0 - ties / e == 12.0 * total / e
    ensures 0.0 <= 1.0 - ties / e <= 1.0
    ensures 1.0 - ties / e == 0.0 <==> total == 0.0
  {
    var q := ties / e;
    assert q * e == ties;
    assert (1.0 - q) * e == 12.0 * total;
    var r := 12.0 * total / e;
    assert r * e == 12.0 * total;
    SameFactor(1.0 - q, r, e);
    QuotientBounds(q, e);
    if total == 0.0 {
      SameFactor(1.0 - q, 0.0, e);
    }
  }

  lemma SameFactor(a: real, b: real, e: real)
    requires e > 0.0 && a * e == b * e
    ensures a == b
  {
  }

  lemma QuotientBounds(q: real, e: real)
    requires e > 0.0 && 0.0 <= q * e <= e
    ensures 0.0 <= q <= 1.0
  {
  }

  lemma {:induction false} TiesNonNegative(sizes: seq<nat>)
    ensures TieTerm(sizes) >= 0.0
  {
    if sizes != [] {
      TiesNonNegative(sizes[1..]);
      var t := sizes[0] as real;
      if sizes[0] > 0 {
        assert t * t >= 1.0;
        assert t * (t * t - 1.0) >= 0.0;
        assert Excess(t) == t * (t * t - 1.0);
      }
    }
  }

  // ---------------------------------------------------------------- all values equal

  predicate AllEqual(xs: seq<real>) { forall i :: 0 <= i < |xs| ==> xs[i] == xs[0] }

  lemma {:induction false} CountsBelow(v: real, w: real, values: seq<real>)
    requires v < w
    ensures Count(Below(w), values) >= Count(Below(v), values) + Count(Equal(v), values)
  {
    if values != [] {
      CountsBelow(v, w, values[1..]);
    }
  }

  /** Ranking keeps the order of the values. */
  lemma RankIsStrict(values: seq<real>, v: real, w: real)
    requires v in values && w in values && v < w
    ensures RankOf(values, v) < RankOf(values, w)
  {
    CountsBelow(v, w, values);
    CountOccurs(v, values);
    CountOccurs(w, values);
  }

  lemma MiddleWhenEqual(all: seq<real>, i: nat)
    requires AllEqual(all) && i < |all|
    ensures Deviator(all, Middle(|all|))(all[i]) == 0.0
  {
    CountBand(Below(all[i]), all, 0, 0);
    CountBand(Equal(all[i]), all, 0, |all|);
    SquareNonNegative(RankOf(all, all[i]) - Middle(|all|));
  }

  /** The ranks have no spread exactly when all values are equal. */
  lemma NoSpreadIffEqual(all: seq<real>)
    ensures Total(all) == 0.0 <==> AllEqual(all)
  {
    hide RankOf, Deviator, Middle;
    if AllEqual(all) {
      forall i | 0 <= i < |all|
        ensures Deviator(all, Middle(|all|))(all[i]) == 0.0
      {
        MiddleWhenEqual(all, i);
      }
      SumConstant(Deviator(all, Middle(|all|)), all, 0.0);
      TimesNonNegative(|all|, 0.0);
    } else {
      DeviationsNonNegative(all, Middle(|all|), all);
      var i :| 0 <= i < |all| && all[i] != all[0];
      if all[i] < all[0] {
        RankIsStrict(all, all[i], all[0]);
      } else {
        RankIsStrict(all, all[0], all[i]);
      }
    }
  }

  // ---------------------------------------------------------------- the statistic

  method KeepNonEmpty(groups: seq<seq<real>>) returns (gs: seq<seq<real>>)
    ensures gs == NonEmpty(groups)
  {
    gs := [];
    for i := 0 to |groups|
      invariant gs == NonEmpty(groups[..i])
    {
      assert groups[..i + 1][..|groups[..i + 1]| - 1] == groups[..i];
      if groups[i] != [] {
        gs := gs + [groups[i]];
      }
    }
    TakeAll(groups);
  }

  lemma {:induction false} NonEmptyGroups(groups: seq<seq<real>>)
    ensures forall i :: 0 <= i < |NonEmpty(groups)| ==> NonEmpty(groups)[i] != []
  {
    if groups != [] {
      NonEmptyGroups(groups[..|groups| - 1]);
    }
  }

  /** Where a group's values stand among all of them. */
  lemma GroupSlice(gs: seq<seq<real>>, k: nat)
    requires k < |gs|
    ensures var start := |Flatten(gs[..k])|;
      && start + |gs[k]| <= |Flatten(gs)|
      && Flatten(gs)[start..start + |gs[k]|] == gs[k]
      && |Flatten(gs[..k + 1])| == start + |gs[k]|
  {
    var front, back := gs[..k], gs[k + 1..];
    assert gs == (front + [gs[k]]) + back;
    assert gs[..k + 1] == front + [gs[k]];
    FlattenAppend(front + [gs[k]], back);
    FlattenSnoc(front, gs[k]);
  }

  lemma {:induction false} FlattenLength(gs: seq<seq<real>>)
    requires forall i :: 0 <= i < |gs| ==> gs[i] != []
    ensures |Flatten(gs)| >= |gs|
  {
    if gs != [] {
      FlattenLength(gs[1..]);
    }
  }

  method SumSlice(ranks: array<real>, all: seq<real>, lo: nat, hi: nat) returns (sum: real)
    requires lo <= hi <= |all| == ranks.Length
    requires forall i :: 0 <= i < |all| ==> ranks[i] == RankOf(all, all[i])
    ensures sum == RankSum(all, all[lo..hi])
  {
    hide RankOf;
    sum := 0.0;
    for i := lo to hi
      invariant sum == Sum(Ranker(all), all[lo..i])
    {
      assert all[lo..i + 1][..i - lo] == all[lo..i];
      sum := sum + ranks[i];
    }
  }

  /** Adds the squared rank sum of each group over its size, group by group along the ranks. */
  method SumGroups(ranks: array<real>, gs: seq<seq<real>>) returns (h: real)
    requires forall i :: 0 <= i < |gs| ==> gs[i] != []
    requires ranks.Length == |Flatten(gs)|
    requires forall i :: 0 <= i < |Flatten(gs)| ==> ranks[i] == RankOf(Flatten(gs), Flatten(gs)[i])
    ensures h == Sum(GroupSquare(Flatten(gs)), gs)
  {
    hide RankOf, Square;
    ghost var all := Flatten(gs);
    h := 0.0;
    var idx := 0;
    for k := 0 to |gs|
      invariant idx == |Flatten(gs[..k])| <= |all|
      invariant h == Sum(GroupSquare(all), gs[..k])
    {
      GroupSlice(gs, k);
      SumSnoc(GroupSquare(all), gs, k);
      var r := SumSlice(ranks, Flatten(gs), idx, idx + |gs[k]|);
      idx := idx + |gs[k]|;
      h := h + Square(r) / |gs[k]| as real;
    }
    TakeAll(gs);
  }

  /** The tie-corrected statistic, from the raw one. */
  function Corrected(raw: real, c: real): real { if c > 0.0 then raw / c else raw }

  /** The statistic is the between-group share of the spread of the ranks, scaled to at most n - 1; when all
      values are equal it is 0. */
  method KruskalH(groups: seq<seq<real>>) returns (h: real)
    ensures var gs := NonEmpty(groups);
      && var all := Flatten(gs);
      && (|gs| < 2 || AllEqual(all) ==> h == 0.0)
      && (|gs| >= 2 && !AllEqual(all) ==>
           && Total(all) > 0.0
           && h == ShareOf(|all| as real, Between(gs), Total(all))
           && 0.0 <= h <= |all| as real - 1.0)
  {
    hide RankOf, Total, Between, GroupSquare, TieCorrection, Raw, Corrected, AllEqual, Excess, NonEmpty, TieSizes;
    var gs := KeepNonEmpty(groups);
    if |gs| < 2 {
      return 0.0;
    }
    NonEmptyGroups(groups);
    FlattenLength(gs);
    var all := Flatten(gs);
    var n := |all| as real;
    var ranks, sizes := RanksTieAveraged(all);
    var squares := SumGroups(ranks, gs);
    var raw := Raw(n, squares);
    var ties := SumTies(sizes);
    ExcessPositive(|all|);
    var c := TieCorrection(n, ties);
    h := Corrected(raw, c);
    StatisticIsShare(gs);
  }

  /** The guards and the formula of the statistic, against the spread of the ranks. */
  lemma StatisticIsShare(gs: seq<seq<real>>)
    requires |Flatten(gs)| >= 2
    ensures var all := Flatten(gs);
      && var n := |all| as real;
      && Excess(n) > 0.0
      && var h := Corrected(Raw(n, Sum(GroupSquare(all), gs)), TieCorrection(n, TieTerm(TieSizes(all))));
      && (AllEqual(all) ==> h == 0.0)
      && (!AllEqual(all) ==>
           && Total(all) > 0.0
           && h == ShareOf(n, Between(gs), Total(all))
           && 0.0 <= h <= n - 1.0)
  {
    hide RankOf, Total, Between, GroupSquare, TieCorrection, Raw, AllEqual, Excess, Corrected, Scaled, Room, ShareOf,
         Sum, TieTerm, TieSizes;
    var all := Flatten(gs);
    var n := |all| as real;
    ExcessPositive(|all|);
    RawIsBetween(gs);
    CorrectionIsShare(all);
    BetweenWithinTotal(gs);
    NoSpreadIffEqual(all);
    CorrectedShare(Raw(n, Sum(GroupSquare(all), gs)), TieCorrection(n, TieTerm(TieSizes(all))), n,
                   Between(gs), Total(all));
  }

  lemma CorrectedShare(raw: real, c: real, n: real, between: real, total: real)
    requires n >= 2.0 && Room(n) > 0.0 && Excess(n) > 0.0 && Excess(n) == (n - 1.0) * Room(n)
    requires raw == Scaled(n, between) && c == 12.0 * total / Excess(n) && (c == 0.0 <==> total == 0.0) && c >= 0.0
    requires 0.0 <= between <= total
    ensures total == 0.0 ==> Corrected(raw, c) == 0.0
    ensures total > 0.0 ==>
      Corrected(raw, c) == ShareOf(n, between, total) && 0.0 <= ShareOf(n, between, total) <= n - 1.0
  {
    hide Excess, Room, Scaled, ShareOf;
    ScaledTimes(n, between);
    if total > 0.0 {
      Cross(12.0 * total, Excess(n), c);
      Share(raw, c, Room(n), n, between, total);
    }
  }

  lemma Cross(x: real, e: real, c: real)
    requires e > 0.0 && c == x / e
    ensures c * e == x
  {
  }

  lemma ScaledTimes(n: real, x: real)
    requires Room(n) > 0.0
    ensures Scaled(n, x) * Room(n) == 12.0 * x
    ensures x == 0.0 ==> Scaled(n, x) == 0.0
  {
  }

  /** The quotient of the two scaled spreads. */
  lemma Share(raw: real, c: real, d: real, n: real, between: real, total: real)
    requires d > 0.0 && n > 1.0 && c > 0.0 && total > 0.0 && 0.0 <= between <= total
    requires raw * d == 12.0 * between && c * ((n - 1.0) * d) == 12.0 * total
    ensures raw / c == ShareOf(n, between, total)
    ensures 0.0 <= ShareOf(n, between, total) <= n - 1.0
  {
    var s := between / total;
    var m := n - 1.0;
    Cross(between, total, s);
    QuotientBounds(s, total);
    ShareBounds(m, s);
    ShareProducts(raw, c, d, m, s, between, total);
    SameFactor((m * s) * c, raw, d);
    Quotient(raw, m * s, c);
  }

  lemma ShareBounds(m: real, s: real)
    requires m > 0.0 && 0.0 <= s <= 1.0
    ensures 0.0 <= m * s <= m
  {
  }

  lemma ShareProducts(raw: real, c: real, d: real, m: real, s: real, between: real, total: real)
    requires raw * d == 12.0 * between && c * (m * d) == 12.0 * total && s * total == between
    ensures ((m * s) * c) * d == raw * d
  {
  }

  lemma Quotient(x: real, y: real, b: real)
    requires b > 0.0 && x == y * b
    ensures x / b == y
  {
  }
}
