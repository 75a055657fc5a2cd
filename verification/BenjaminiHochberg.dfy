/**
  The Benjamini-Hochberg step-up correction, and an order-free reference for it.
 */
module BenjaminiHochberg {
  import opened Common
  import opened Sorting

  /** The step-up threshold of rank `k`. */
  function Threshold(k: nat, denom: int, alpha: real): real
    requires denom > 0
  {
    (k as real / denom as real) * alpha
  }

  /** The largest rank at most `k` whose p-value is within its threshold; 0 when there is none. */
  function LastPassing(ranked: seq<real>, denom: int, alpha: real, k: nat): (r: nat)
    requires denom > 0 && k <= |ranked|
    ensures r <= k
  {
    if k == 0 then 0
    else if ranked[k - 1] <= Threshold(k, denom, alpha) then k
    else LastPassing(ranked, denom, alpha, k - 1)
  }

  /** Which hypotheses are rejected; no answer when the family is smaller than the number of p-values. */
  function Correct(p: seq<real>, alpha: real, familySize: Option<int>): Option<seq<bool>> {
    if p == [] then Some([])
    else
      var denom := if familySize.None? then |p| else familySize.value;
      if denom < |p| then None
      else
        var ranked := Ascending(p);
        var last := LastPassing(ranked, denom, alpha, |p|);
        var cut := if last > 0 then ranked[last - 1] else -1.0;
        Some(seq(|p|, i requires 0 <= i < |p| => p[i] <= cut))
  }

  // ---------------------------------------------------------------- the reference

  function CountAtMost(p: seq<real>, c: real): nat { Count(AtMost(c), p) }

  function Line(k: nat, slope: real): real { k as real * slope }

  /** At least `k` of the p-values are within `k` times the slope. */
  predicate Supported(p: seq<real>, slope: real, k: nat) { CountAtMost(p, Line(k, slope)) >= k }

  /** The largest supported number up to `k`. */
  function Steps(p: seq<real>, slope: real, k: nat): (r: nat)
    ensures r <= k && Supported(p, slope, r)
    ensures forall j :: r < j <= k ==> !Supported(p, slope, j)
  {
    if Supported(p, slope, k) then k else Steps(p, slope, k - 1)
  }

  /** Rejected: within the number of rejections times the slope. */
  predicate Rejected(p: seq<real>, slope: real, i: nat)
    requires i < |p|
  {
    var r := Steps(p, slope, |p|);
    r > 0 && p[i] <= Line(r, slope)
  }

  predicate ArePValues(p: seq<real>) { forall i :: 0 <= i < |p| ==> p[i] >= 0.0 }

  // ---------------------------------------------------------------- counting

  lemma AscendingCounts(p: seq<real>, c: real)
    ensures IsAscending(Ascending(p))
    ensures CountAtMost(Ascending(p), c) == CountAtMost(p, c)
    ensures multiset(Ascending(p)) == multiset(p)
  {
    AscendingFacts(p);
    CountPermutation(AtMost(c), Ascending(p), p);
  }

  lemma RankOfValue(p: seq<real>, i: nat) returns (j: nat)
    requires i < |p|
    ensures j < |p| && Ascending(p)[j] == p[i]
  {
    AscendingFacts(p);
    assert p[i] in multiset(Ascending(p));
    j :| 0 <= j < |p| && Ascending(p)[j] == p[i];
  }

  /** In ascending order the p-values within a threshold are a prefix. */
  lemma {:induction false} CountIsPrefix(s: seq<real>, c: real)
    requires IsAscending(s)
    ensures CountAtMost(s, c) <= |s|
    ensures forall i :: 0 <= i < |s| ==> (s[i] <= c <==> i < CountAtMost(s, c))
  {
    if s != [] {
      CountIsPrefix(s[1..], c);
      forall i | 0 <= i < |s|
        ensures s[i] <= c <==> i < CountAtMost(s, c)
      {
        if i > 0 {
          assert s[i] == s[1..][i - 1];
        } else if s[0] > c {
          assert |s| > 1 ==> s[1..][0] > c;
        }
      }
    }
  }

  lemma {:induction false} CountGrows(p: seq<real>, c: real, q: seq<real>, d: real)
    requires |p| == |q| && forall i :: 0 <= i < |p| ==> (p[i] <= c ==> q[i] <= d)
    ensures CountAtMost(p, c) <= CountAtMost(q, d)
  {
    if p != [] {
      CountGrows(p[1..], c, q[1..], d);
    }
  }

  lemma {:induction false} NothingAtMost(p: seq<real>, c: real)
    requires forall i :: 0 <= i < |p| ==> p[i] > c
    ensures CountAtMost(p, c) == 0
  {
    if p != [] {
      NothingAtMost(p[1..], c);
    }
  }

  lemma LineFacts(j: nat, k: nat, slope: real)
    requires j <= k
    ensures slope >= 0.0 ==> Line(j, slope) <= Line(k, slope)
    ensures j > 0 && slope < 0.0 ==> Line(j, slope) < 0.0
  {
  }

  lemma LineIsThreshold(k: nat, denom: int, alpha: real)
    requires denom > 0
    ensures Threshold(k, denom, alpha) == Line(k, alpha / denom as real)
  {
  }

  /** The sorted p-value of a rank is within its threshold exactly when the rank is supported. */
  lemma PassingIsSupported(p: seq<real>, denom: int, alpha: real, k: nat)
    requires denom > 0 && 0 < k <= |p|
    ensures Ascending(p)[k - 1] <= Threshold(k, denom, alpha) <==> Supported(p, alpha / denom as real, k)
  {
    hide Line, Threshold;
    var c := Line(k, alpha / denom as real);
    LineIsThreshold(k, denom, alpha);
    AscendingCounts(p, c);
    CountIsPrefix(Ascending(p), c);
  }

  lemma ZeroIsSupported(p: seq<real>, slope: real)
    ensures Supported(p, slope, 0)
  {
  }

  /** Scanning the sorted p-values finds the reference's number of steps. */
  lemma {:induction false} LastPassingIsSteps(p: seq<real>, denom: int, alpha: real, k: nat)
    requires denom > 0 && k <= |p|
    ensures LastPassing(Ascending(p), denom, alpha, k) == Steps(p, alpha / denom as real, k)
  {
    hide Supported, Threshold;
    if k > 0 {
      PassingIsSupported(p, denom, alpha, k);
      LastPassingIsSteps(p, denom, alpha, k - 1);
    } else {
      ZeroIsSupported(p, alpha / denom as real);
    }
  }

  /** Exactly `r` p-values lie within `r` times the slope. */
  lemma StepsAreRejections(p: seq<real>, slope: real)
    requires ArePValues(p)
    ensures var r := Steps(p, slope, |p|); r > 0 ==> slope >= 0.0 && CountAtMost(p, Line(r, slope)) == r
  {
    hide Line;
    var r := Steps(p, slope, |p|);
    if r > 0 {
      var c := Line(r, slope);
      LineFacts(r, r + 1, slope);
      if slope < 0.0 {
        NothingAtMost(p, c);
      }
      AscendingCounts(p, c);
      CountIsPrefix(Ascending(p), c);
      assert r < |p| ==> !Supported(p, slope, r + 1);
      if CountAtMost(p, c) > r {
        CountGrows(p, c, p, Line(r + 1, slope));
      }
    }
  }

  function CountTrue(bs: seq<bool>): nat {
    if bs == [] then 0 else (if bs[0] then 1 else 0) + CountTrue(bs[1..])
  }

  lemma {:induction false} CountMask(p: seq<real>, c: real, mask: seq<bool>)
    requires |mask| == |p| && forall i :: 0 <= i < |p| ==> mask[i] == (p[i] <= c)
    ensures CountTrue(mask) == CountAtMost(p, c)
  {
    if p != [] {
      CountMask(p[1..], c, mask[1..]);
    }
  }

  // ---------------------------------------------------------------- main results

  predicate Accepts(p: seq<real>, familySize: Option<int>) { familySize.None? || familySize.value >= |p| || p == [] }

  function Slope(p: seq<real>, alpha: real, familySize: Option<int>): real
    requires Accepts(p, familySize) && p != []
  {
    alpha / (if familySize.None? then |p| else familySize.value) as real
  }

  /** The correction refines the reference: it answers unless the family is too small, and rejects exactly what
      the reference rejects, ties or not. */
  lemma CorrectIsStepUp(p: seq<real>, alpha: real, familySize: Option<int>)
    requires ArePValues(p)
    ensures Correct(p, alpha, familySize).Some? <==> Accepts(p, familySize)
    ensures Accepts(p, familySize) && p != [] ==>
      var mask := Correct(p, alpha, familySize).value;
      var slope := Slope(p, alpha, familySize);
      && |mask| == |p|
      && (forall i :: 0 <= i < |p| ==> mask[i] == Rejected(p, slope, i))
      && CountTrue(mask) == Steps(p, slope, |p|)
  {
    hide Line, Supported, Threshold;
    if Accepts(p, familySize) && p != [] {
      var mask := Correct(p, alpha, familySize).value;
      var slope := Slope(p, alpha, familySize);
      var denom := if familySize.None? then |p| else familySize.value;
      var r := Steps(p, slope, |p|);
      LastPassingIsSteps(p, denom, alpha, |p|);
      if r == 0 {
        CountMask(p, -1.0, mask);
        NothingAtMost(p, -1.0);
      } else {
        CutIsLine(p, slope);
        CountMask(p, Line(r, slope), mask);
        StepsAreRejections(p, slope);
      }
    }
  }

  /** Comparing with the last passing p-value is comparing with its threshold. */
  lemma CutIsLine(p: seq<real>, slope: real)
    requires ArePValues(p) && Steps(p, slope, |p|) > 0
    ensures var r := Steps(p, slope, |p|);
      forall i :: 0 <= i < |p| ==> (p[i] <= Ascending(p)[r - 1] <==> p[i] <= Line(r, slope))
  {
    hide Line, Supported, Ascending, CountAtMost, Steps, ArePValues;
    var r := Steps(p, slope, |p|);
    var ranked := Ascending(p);
    StepsAreRejections(p, slope);
    AscendingCounts(p, Line(r, slope));
    CountIsPrefix(ranked, Line(r, slope));
    forall i | 0 <= i < |p|
      ensures p[i] <= ranked[r - 1] <==> p[i] <= Line(r, slope)
    {
      var j := RankOfValue(p, i);
    }
  }

  /** The rejections number the largest rank whose sorted p-value is within its threshold. */
  lemma RejectionsAreTheLargestRank(p: seq<real>, alpha: real, familySize: Option<int>, k: nat)
    requires ArePValues(p) && Accepts(p, familySize) && 0 < k <= |p|
    ensures var denom := if familySize.None? then |p| else familySize.value;
      && var rejections := CountTrue(Correct(p, alpha, familySize).value);
      && (k == rejections ==> Ascending(p)[k - 1] <= Threshold(k, denom, alpha))
      && (k > rejections ==> Ascending(p)[k - 1] > Threshold(k, denom, alpha))
  {
    hide Supported, Threshold, Correct, Rejected;
    var denom := if familySize.None? then |p| else familySize.value;
    CorrectIsStepUp(p, alpha, familySize);
    PassingIsSupported(p, denom, alpha, k);
  }

  /** Easier evidence never loses a rejection: lower p-values and a larger slope keep every rejection. */
  lemma RejectionIsMonotone(p: seq<real>, slope: real, q: seq<real>, slope': real, i: nat)
    requires |p| == |q| && i < |p| && ArePValues(p) && ArePValues(q)
    requires slope <= slope' && forall j :: 0 <= j < |p| ==> q[j] <= p[j]
    requires Rejected(p, slope, i)
    ensures Rejected(q, slope', i)
    ensures Steps(p, slope, |p|) <= Steps(q, slope', |q|)
  {
    hide Line;
    var r := Steps(p, slope, |p|);
    var r' := Steps(q, slope', |q|);
    StepsAreRejections(p, slope);
    SteeperLine(r, slope, slope');
    CountGrows(p, Line(r, slope), q, Line(r, slope'));
    assert Supported(q, slope', r);
    LineFacts(r, r', slope');
  }

  lemma SteeperLine(r: nat, slope: real, slope': real)
    requires slope <= slope'
    ensures Line(r, slope) <= Line(r, slope')
  {
  }

  /** Raising alpha keeps every rejection. */
  lemma GrowsWithAlpha(p: seq<real>, alpha: real, alpha': real, familySize: Option<int>, i: nat)
    requires ArePValues(p) && Accepts(p, familySize) && i < |p| && alpha <= alpha'
    requires Correct(p, alpha, familySize).value[i]
    ensures Correct(p, alpha', familySize).value[i]
  {
    CorrectIsStepUp(p, alpha, familySize);
    CorrectIsStepUp(p, alpha', familySize);
    DivideMonotone(alpha, alpha', (if familySize.None? then |p| else familySize.value) as real);
    RejectionIsMonotone(p, Slope(p, alpha, familySize), p, Slope(p, alpha', familySize), i);
  }

  lemma DivideMonotone(a: real, b: real, d: real)
    requires a <= b && d > 0.0
    ensures a / d <= b / d
  {
  }

  /** Enlarging the family never adds a rejection. */
  lemma ShrinksWithFamily(p: seq<real>, alpha: real, family: int, family': int, i: nat)
    requires ArePValues(p) && i < |p| && |p| <= family <= family'
    requires Correct(p, alpha, Some(family')).value[i]
    ensures Correct(p, alpha, Some(family)).value[i]
  {
    CorrectIsStepUp(p, alpha, Some(family));
    CorrectIsStepUp(p, alpha, Some(family'));
    StepsAreRejections(p, alpha / family' as real);
    assert alpha >= 0.0 by {
      if alpha < 0.0 {
        NegativeQuotient(alpha, family' as real);
      }
    }
    DivideAntitone(alpha, family as real, family' as real);
    RejectionIsMonotone(p, alpha / family' as real, p, alpha / family as real, i);
  }

  lemma NegativeQuotient(a: real, d: real)
    requires a < 0.0 && d > 0.0
    ensures a / d < 0.0
  {
  }

  lemma DivideAntitone(a: real, d: real, e: real)
    requires a >= 0.0 && 0.0 < d <= e
    ensures a / e <= a / d
  {
  }

  /** Lowering p-values loses no rejection. */
  lemma LosesNothing(p: seq<real>, q: seq<real>, alpha: real, familySize: Option<int>, i: nat)
    requires |p| == |q| && ArePValues(p) && ArePValues(q) && Accepts(p, familySize) && i < |p|
    requires forall j :: 0 <= j < |p| ==> q[j] <= p[j]
    requires Correct(p, alpha, familySize).value[i]
    ensures Correct(q, alpha, familySize).Some? && Correct(q, alpha, familySize).value[i]
  {
    CorrectIsStepUp(p, alpha, familySize);
    CorrectIsStepUp(q, alpha, familySize);
    RejectionIsMonotone(p, Slope(p, alpha, familySize), q, Slope(q, alpha, familySize), i);
  }

  lemma FirstLine(slope: real)
    ensures Line(1, slope) == slope
  {
  }

  /** Bonferroni's rejections are among them. */
  lemma ContainsBonferroni(p: seq<real>, alpha: real, familySize: Option<int>, i: nat)
    requires ArePValues(p) && Accepts(p, familySize) && i < |p|
    requires p[i] <= Slope(p, alpha, familySize)
    ensures Correct(p, alpha, familySize).value[i]
  {
    hide Correct, Line;
    var slope := Slope(p, alpha, familySize);
    CorrectIsStepUp(p, alpha, familySize);
    FirstLine(slope);
    AscendingCounts(p, slope);
    CountIsPrefix(Ascending(p), slope);
    var j := RankOfValue(p, i);
    assert Supported(p, slope, 1);
    LineFacts(1, Steps(p, slope, |p|), slope);
  }

  /** The answer for a p-value depends on its value and the multiset of p-values, not on their order. */
  lemma OrderDoesNotMatter(p: seq<real>, q: seq<real>, alpha: real, familySize: Option<int>, i: nat, j: nat)
    requires multiset(p) == multiset(q) && i < |p| && j < |q| && p[i] == q[j] && Accepts(p, familySize)
    ensures |p| == |q| && Correct(q, alpha, familySize).Some?
    ensures Correct(p, alpha, familySize).value[i] == Correct(q, alpha, familySize).value[j]
  {
    assert |multiset(p)| == |p| && |multiset(q)| == |q|;
    AscendingFacts(p);
    AscendingFacts(q);
    SortingForgetsOrder(Ascending(p), Ascending(q));
  }
}
