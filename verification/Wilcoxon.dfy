/**
  The Wilcoxon signed-rank statistic: its tie-corrected variance, and its symmetry under negation.
 */
module Wilcoxon {
  import opened Common
  import opened Sequences
  import opened Sorting
  import opened Ranks

  /** The statistic before the square root: the score is the numerator over the root of the variance. */
  datatype SignedRank =
    | NoPairs
    | Degenerate(n: nat, w: real)
    | Score(n: nat, w: real, numerator: real, variance: real)

  function Kept(deltas: seq<real>, tolerance: real): seq<real> {
    if deltas == [] then []
    else
      var d := deltas[|deltas| - 1];
      Kept(deltas[..|deltas| - 1], tolerance) + if Abs(d) > tolerance then [d] else []
  }

  function Magnitudes(nz: seq<real>): seq<real> { seq(|nz|, i requires 0 <= i < |nz| => Abs(nz[i])) }

  /** The rank a delta adds to the positive rank sum, ranked by magnitude among the given ones. */
  function PositiveRank(magnitudes: seq<real>): real -> real {
    (d: real) => if d > 0.0 then RankOf(magnitudes, Abs(d)) else 0.0
  }

  function PositiveRanks(nz: seq<real>): real { Sum(PositiveRank(Magnitudes(nz)), nz) }

  /** A quarter of the sum of the squared ranks. */
  function RankVariance(nz: seq<real>): real {
    Sum(RankSquarer(Magnitudes(nz)), Magnitudes(nz)) / 4.0
  }

  /** The difference from the mean, moved half a step towards 0. */
  function Corrected(diff: real): real {
    diff - (if diff > 0.0 then 0.5 else if diff < 0.0 then -0.5 else 0.0)
  }

  function Deviation(nz: seq<real>): real { PositiveRanks(nz) - Triangle(|nz| as real) / 2.0 }

  method SumPositive(ranks: array<real>, nz: seq<real>) returns (w: real)
    requires ranks.Length == |nz|
    requires forall i :: 0 <= i < |nz| ==> ranks[i] == RankOf(Magnitudes(nz), Abs(nz[i]))
    ensures w == PositiveRanks(nz)
  {
    hide RankOf;
    ghost var f := PositiveRank(Magnitudes(nz));
    w := 0.0;
    for i := 0 to |nz|
      invariant w == Sum(f, nz[..i])
    {
      SumSnoc(f, nz, i);
      if nz[i] > 0.0 {
        w := w + ranks[i];
      }
    }
    TakeAll(nz);
  }

  method KeepNonZero(deltas: seq<real>, tolerance: real) returns (nz: seq<real>)
    ensures nz == Kept(deltas, tolerance)
  {
    nz := [];
    for i := 0 to |deltas|
      invariant nz == Kept(deltas[..i], tolerance)
    {
      assert deltas[..i + 1][..|deltas[..i + 1]| - 1] == deltas[..i];
      if Abs(deltas[i]) > tolerance {
        nz := nz + [deltas[i]];
      }
    }
    TakeAll(deltas);
  }

  /** The variance computed from the tie sizes. */
  function TieVariance(n: real, tieTerm: real): real { (n * (n + 1.0) * (2.0 * n + 1.0) - tieTerm / 2.0) / 24.0 }

  /** The statistic: whenever a pair is left its variance is a quarter of the sum of the squared ranks, which is
      positive, so the guard against a zero variance is never taken. */
  method WilcoxonSignedRank(deltas: seq<real>, tolerance: real) returns (r: SignedRank)
    ensures r.NoPairs? <==> Kept(deltas, tolerance) == []
    ensures !r.Degenerate?
    ensures r.Score? ==>
      var nz := Kept(deltas, tolerance);
      && r.n == |nz| && r.w == PositiveRanks(nz) && r.numerator == Corrected(Deviation(nz))
      && r.variance == RankVariance(nz) > 0.0
  {
    hide RankOf, Corrected, RankVariance, Kept, TieVariance, PositiveRanks;
    var nz := KeepNonZero(deltas, tolerance);
    var n := |nz|;
    if n == 0 {
      return NoPairs;
    }
    var ranks, tieSizes := RanksTieAveraged(Magnitudes(nz));
    var w := SumPositive(ranks, nz);
    var mean := (n * (n + 1)) as real / 4.0;
    var tieTerm := SumTies(tieSizes);
    var variance := TieVariance(n as real, tieTerm);
    r := Scored(n, w, w - mean, variance);
    VarianceIsRankVariance(nz);
    RankVarianceIsPositive(nz);
    assert w - mean == Deviation(nz);
  }

  function Scored(n: nat, w: real, diff: real, variance: real): SignedRank {
    if variance <= 0.0 then Degenerate(n, w) else Score(n, w, Corrected(diff), variance)
  }

  /** The tie-corrected variance is a quarter of the sum of the squared ranks. */
  lemma VarianceIsRankVariance(nz: seq<real>)
    ensures TieVariance(|nz| as real, TieTerm(TieSizes(Magnitudes(nz)))) == RankVariance(nz)
  {
    hide RankOf;
    RankTotals(Magnitudes(nz));
  }

  lemma {:induction false} SumAtLeast<T>(f: T -> real, xs: seq<T>)
    requires forall i :: 0 <= i < |xs| ==> f(xs[i]) >= 1.0
    ensures Sum(f, xs) >= |xs| as real
  {
    if xs != [] {
      SumAtLeast(f, xs[..|xs| - 1]);
    }
  }

  lemma RankVarianceIsPositive(nz: seq<real>)
    requires nz != []
    ensures RankVariance(nz) > 0.0
  {
    var values := Magnitudes(nz);
    forall i | 0 <= i < |values|
      ensures RankSquarer(values)(values[i]) >= 1.0
    {
      CountOccurs(values[i], values);
      SquareAtLeastOne(RankOf(values, values[i]));
    }
    SumAtLeast(RankSquarer(values), values);
  }

  lemma SquareAtLeastOne(x: real)
    requires x >= 1.0
    ensures Square(x) >= 1.0
  {
  }

  // ---------------------------------------------------------------- negation

  function Negated(deltas: seq<real>): seq<real> { seq(|deltas|, i requires 0 <= i < |deltas| => -deltas[i]) }

  lemma {:induction false} KeptNegated(deltas: seq<real>, tolerance: real)
    ensures Kept(Negated(deltas), tolerance) == Negated(Kept(deltas, tolerance))
  {
    if deltas != [] {
      KeptNegated(deltas[..|deltas| - 1], tolerance);
      assert Negated(deltas)[..|deltas| - 1] == Negated(deltas[..|deltas| - 1]);
    }
  }

  lemma {:induction false} KeptAreNonZero(deltas: seq<real>, tolerance: real)
    requires tolerance >= 0.0
    ensures forall i :: 0 <= i < |Kept(deltas, tolerance)| ==> Kept(deltas, tolerance)[i] != 0.0
  {
    if deltas != [] {
      KeptAreNonZero(deltas[..|deltas| - 1], tolerance);
    }
  }

  /** Each rank is in the positive sum of a sample or of its negation. */
  lemma {:induction false} RankSplit(magnitudes: seq<real>, nz: seq<real>)
    requires forall i :: 0 <= i < |nz| ==> nz[i] != 0.0
    ensures Sum(PositiveRank(magnitudes), nz) + Sum(PositiveRank(magnitudes), Negated(nz))
         == Sum(Ranker(magnitudes), Magnitudes(nz))
  {
    hide RankOf;
    if nz != [] {
      var front := nz[..|nz| - 1];
      RankSplit(magnitudes, front);
      assert Negated(nz)[..|nz| - 1] == Negated(front);
      assert Magnitudes(nz)[..|nz| - 1] == Magnitudes(front);
    }
  }

  /** Negating every delta negates the score and keeps its variance. */
  lemma NegationMirrors(deltas: seq<real>, tolerance: real)
    requires tolerance >= 0.0
    ensures var nz := Kept(deltas, tolerance);
      && var mirrored := Kept(Negated(deltas), tolerance);
      && |mirrored| == |nz|
      && PositiveRanks(nz) + PositiveRanks(mirrored) == Triangle(|nz| as real)
      && Corrected(Deviation(mirrored)) == -Corrected(Deviation(nz))
      && RankVariance(mirrored) == RankVariance(nz)
  {
    hide RankOf;
    var nz := Kept(deltas, tolerance);
    KeptNegated(deltas, tolerance);
    KeptAreNonZero(deltas, tolerance);
    assert Magnitudes(Negated(nz)) == Magnitudes(nz);
    RankSplit(Magnitudes(nz), nz);
    RankTotals(Magnitudes(nz));
  }

  // ---------------------------------------------------------------- the continuity correction

  function Half(h: int): real { h as real / 2.0 }

  ghost predicate IsHalf(x: real) { exists h: int :: x == Half(h) }

  lemma {:induction false} SumOfHalves<T>(f: T -> real, xs: seq<T>)
    requires forall i :: 0 <= i < |xs| ==> IsHalf(f(xs[i]))
    ensures IsHalf(Sum(f, xs))
  {
    if xs == [] {
      assert Half(0) == 0.0;
    } else {
      SumOfHalves(f, xs[..|xs| - 1]);
      var k: int :| Sum(f, xs[..|xs| - 1]) == Half(k);
      var h: int :| f(xs[|xs| - 1]) == Half(h);
      assert Sum(f, xs) == Half(k + h);
    }
  }

  lemma RankIsHalf(values: seq<real>, v: real)
    ensures IsHalf(RankOf(values, v))
  {
    assert RankOf(values, v) == Half(2 * Count(Below(v), values) + Count(Equal(v), values) + 1);
  }

  lemma MeanIsHalf(n: nat)
    ensures IsHalf(Triangle(n as real) / 2.0)
  {
    var k := EvenProduct(n);
    assert (n * (n + 1)) as real == n as real * (n as real + 1.0);
    assert Triangle(n as real) / 2.0 == Half(k);
  }

  lemma EvenProduct(n: nat) returns (k: nat)
    ensures n * (n + 1) == 2 * k
  {
    var m := (n + 1) / 2;
    if n % 2 == 0 {
      k := m * (n + 1);
      assert n == 2 * m;
    } else {
      k := n * m;
      assert n + 1 == 2 * m;
    }
  }

  /** Rank sums move in halves, so the correction never changes the sign of the score. */
  lemma CorrectionKeepsSign(nz: seq<real>)
    ensures Deviation(nz) > 0.0 ==> Corrected(Deviation(nz)) >= 0.0
    ensures Deviation(nz) < 0.0 ==> Corrected(Deviation(nz)) <= 0.0
    ensures Deviation(nz) == 0.0 ==> Corrected(Deviation(nz)) == 0.0
  {
    hide RankOf, IsHalf, Corrected, Triangle;
    var f := PositiveRank(Magnitudes(nz));
    forall i | 0 <= i < |nz|
      ensures IsHalf(f(nz[i]))
    {
      RankIsHalf(Magnitudes(nz), Abs(nz[i]));
      ZeroIsHalf();
    }
    SumOfHalves(f, nz);
    MeanIsHalf(|nz|);
    HalfStep(PositiveRanks(nz), Triangle(|nz| as real) / 2.0);
  }

  lemma ZeroIsHalf()
    ensures IsHalf(0.0)
  {
    assert Half(0) == 0.0;
  }

  lemma HalfStep(x: real, y: real)
    requires IsHalf(x) && IsHalf(y)
    ensures x > y ==> Corrected(x - y) >= 0.0
    ensures x < y ==> Corrected(x - y) <= 0.0
    ensures x == y ==> Corrected(x - y) == 0.0
  {
    var k: int :| x == Half(k);
    var m: int :| y == Half(m);
    assert x - y == Half(k - m);
  }
}
