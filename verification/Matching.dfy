/**
  Position matching in the ledger comparison: the bipartite graph of strong candidate edges
  between booked and simulated positions, its connected components, and the assignment of
  exactly those components that admit one maximum matching.
 */
module Matching {
  import opened Sequences

  /** A strong candidate edge: (index of the booked position, index of the simulated one). */
  type Edge = (nat, nat)

  // ---------------------------------------------------------------- maximum matchings

  ghost predicate IsMatching(M: set<Edge>, E: set<Edge>) {
    && M <= E
    && forall e, f | e in M && f in M && e != f :: e.0 != f.0 && e.1 != f.1
  }

  ghost predicate IsMaximum(M: set<Edge>, E: set<Edge>) {
    && IsMatching(M, E)
    && forall N | IsMatching(N, E) :: |N| <= |M|
  }

  ghost predicate IsUniqueMaximum(M: set<Edge>, E: set<Edge>) {
    && IsMaximum(M, E)
    && forall N | IsMaximum(N, E) :: N == M
  }

  /** C shares no endpoint with the rest of E. */
  ghost predicate Separated(C: set<Edge>, E: set<Edge>) {
    && C <= E
    && forall e, f | e in C && f in E - C :: e.0 != f.0 && e.1 != f.1
  }

  lemma {:induction false} MaximumAbove(M: set<Edge>, E: set<Edge>) returns (N: set<Edge>)
    requires IsMatching(M, E)
    ensures IsMaximum(N, E)
    decreases |E| - |M|
  {
    if !IsMaximum(M, E) {
      var bigger :| IsMatching(bigger, E) && |bigger| > |M|;
      SubsetSize(bigger, E);
      N := MaximumAbove(bigger, E);
    } else {
      N := M;
    }
  }

  /** Every graph has a maximum matching, so "in every maximum matching" is never vacuous. */
  lemma MaximumExists(E: set<Edge>)
    ensures exists M :: IsMaximum(M, E)
  {
    var M := MaximumAbove({}, E);
  }

  /** Maximum matchings decompose over separated parts. */
  lemma MaximumRestricts(M: set<Edge>, C: set<Edge>, E: set<Edge>)
    requires IsMaximum(M, E) && Separated(C, E)
    ensures IsMaximum(M * C, C)
  {
    forall N | IsMatching(N, C)
      ensures |N| <= |M * C|
    {
      var swapped := (M - C) + N;
      assert IsMatching(swapped, E);
      assert M == (M - C) + (M * C);
      assert |swapped| == |M - C| + |N|;
      assert |M| == |M - C| + |M * C|;
    }
  }

  lemma UniqueIsForced(N: set<Edge>, C: set<Edge>, M: set<Edge>, E: set<Edge>)
    requires Separated(C, E) && IsUniqueMaximum(N, C) && IsMaximum(M, E)
    ensures N <= M
  {
    MaximumRestricts(M, C, E);
  }

  /** A unique maximum matching leaves no endpoint of any edge uncovered: swapping one edge
      would give a second maximum matching. */
  lemma UniqueIsPerfect(M: set<Edge>, C: set<Edge>, e: Edge)
    requires IsUniqueMaximum(M, C) && e in C
    ensures exists f :: f in M && f.0 == e.0
    ensures exists f :: f in M && f.1 == e.1
  {
    if forall f | f in M :: f.0 != e.0 && f.1 != e.1 {
      Enlarged(M, C, e);
    }
    if forall f | f in M :: f.0 != e.0 {
      var f: Edge :| f in M && f.1 == e.1;
      Swapped(M, C, f, e);
    }
    if forall f | f in M :: f.1 != e.1 {
      var f :| f in M && f.0 == e.0;
      Swapped(M, C, f, e);
    }
  }

  lemma Enlarged(M: set<Edge>, C: set<Edge>, e: Edge)
    requires IsMatching(M, C) && e in C
    requires forall f | f in M :: f.0 != e.0 && f.1 != e.1
    ensures !IsMaximum(M, C)
  {
    assert IsMatching(M + {e}, C);
    assert |M + {e}| == |M| + 1;
  }

  lemma Swapped(M: set<Edge>, C: set<Edge>, f: Edge, e: Edge)
    requires IsMaximum(M, C) && f in M && e in C && e !in M
    requires forall g | g in M && g != f :: g.0 != e.0 && g.1 != e.1
    ensures IsMaximum(M - {f} + {e}, C) && M - {f} + {e} != M
  {
  }

  // ---------------------------------------------------------------- connected components

  /** No edge leaves the vertex pair (B, S). */
  ghost predicate Closed(B: set<nat>, S: set<nat>, E: set<Edge>) {
    forall e | e in E :: e.0 in B <==> e.1 in S
  }

  /** (B, S) is the connected component of booked vertex `start`: the least closed pair around it. */
  ghost predicate IsComponent(start: nat, B: set<nat>, S: set<nat>, E: set<Edge>) {
    && start in B
    && Closed(B, S, E)
    && forall B', S' | Closed(B', S', E) && start in B' :: B <= B' && S <= S'
  }

  function EdgesAt(B: set<nat>, E: set<Edge>): set<Edge> {
    set e | e in E && e.0 in B
  }

  lemma ComponentSeparated(B: set<nat>, S: set<nat>, E: set<Edge>)
    requires Closed(B, S, E)
    ensures Separated(EdgesAt(B, E), E)
  {
  }

  /** A component that starts outside a closed pair stays outside it. */
  lemma ComponentAvoids(a: nat, B: set<nat>, S: set<nat>, B': set<nat>, S': set<nat>, E: set<Edge>)
    requires IsComponent(a, B, S, E) && Closed(B', S', E) && a !in B'
    ensures B !! B' && S !! S'
  {
    assert Closed(B - B', S - S', E);
    assert a in B - B';
  }

  /** A component is the component of each of its vertices. */
  lemma ComponentReroots(a: nat, b: nat, B: set<nat>, S: set<nat>, E: set<Edge>)
    requires IsComponent(a, B, S, E) && b in B
    ensures IsComponent(b, B, S, E)
  {
    forall B', S' | Closed(B', S', E) && b in B'
      ensures B <= B' && S <= S'
    {
      if a !in B' {
        ComponentAvoids(a, B, S, B', S', E);
      }
    }
  }

  lemma ComponentUnique(a: nat, B: set<nat>, S: set<nat>, B': set<nat>, S': set<nat>, E: set<Edge>)
    requires IsComponent(a, B, S, E) && IsComponent(a, B', S', E)
    ensures B == B' && S == S'
  {
  }

  // ---------------------------------------------------------------- what gets assigned

  /** Larger components are reported, never enumerated. */
  const MAX_COMPONENT_EDGES: nat := 16

  /** The component of booked vertex b is small enough and M is its only maximum matching. */
  ghost predicate Decides(b: nat, M: set<Edge>, E: set<Edge>) {
    exists B, S ::
      && IsComponent(b, B, S, E)
      && |EdgesAt(B, E)| <= MAX_COMPONENT_EDGES
      && IsUniqueMaximum(M, EdgesAt(B, E))
  }

  /** Edge e is assigned; a statement about the graph alone, with no search order in it. */
  ghost predicate Assigned(e: Edge, E: set<Edge>) {
    exists M :: Decides(e.0, M, E) && e in M
  }

  /** Booked vertex b has a candidate but its component does not decide. */
  ghost predicate AmbiguousVertex(b: nat, E: set<Edge>) {
    && (exists e :: e in E && e.0 == b)
    && !exists M :: Decides(b, M, E)
  }

  /** Every assigned edge lies in every maximum matching of the whole candidate graph. */
  lemma AssignedInEveryMaximum(e: Edge, M: set<Edge>, E: set<Edge>)
    requires Assigned(e, E) && IsMaximum(M, E)
    ensures e in M
  {
    var N :| Decides(e.0, N, E) && e in N;
    var B, S :| IsComponent(e.0, B, S, E) && IsUniqueMaximum(N, EdgesAt(B, E));
    ComponentSeparated(B, S, E);
    UniqueIsForced(N, EdgesAt(B, E), M, E);
  }

  /** Hence the assigned edges form a matching. */
  lemma AssignedIsMatching(A: set<Edge>, E: set<Edge>)
    requires forall e | e in A :: Assigned(e, E)
    ensures IsMatching(A, E)
  {
    var M := MaximumAbove({}, E);
    forall e | e in A
      ensures e in M
    {
      AssignedInEveryMaximum(e, M, E);
    }
  }

  /** A booked position is assigned or ambiguous, never both, exactly when it has a candidate edge. */
  lemma BookedTrichotomy(b: nat, E: set<Edge>)
    requires exists e :: e in E && e.0 == b
    ensures (exists e :: Assigned(e, E) && e.0 == b) <==> !AmbiguousVertex(b, E)
  {
    var e :| e in E && e.0 == b;
    if M: set<Edge> :| Decides(b, M, E) {
      var B, S :| IsComponent(b, B, S, E) && IsUniqueMaximum(M, EdgesAt(B, E));
      UniqueIsPerfect(M, EdgesAt(B, E), e);
      var f: Edge :| f in M && f.0 == b;
      assert Assigned(f, E);
    }
  }

  /** In a deciding component the simulated side is fully assigned too. */
  lemma SimulatedCovered(e: Edge, E: set<Edge>)
    requires e in E && !AmbiguousVertex(e.0, E)
    ensures exists f :: Assigned(f, E) && f.1 == e.1
  {
    var M: set<Edge> :| Decides(e.0, M, E);
    var B, S :| IsComponent(e.0, B, S, E) && |EdgesAt(B, E)| <= MAX_COMPONENT_EDGES
                && IsUniqueMaximum(M, EdgesAt(B, E));
    UniqueIsPerfect(M, EdgesAt(B, E), e);
    var f: Edge :| f in M && f.1 == e.1;
    ComponentReroots(e.0, f.0, B, S, E);
    assert Decides(f.0, M, E);
    assert Assigned(f, E);
  }

  // ---------------------------------------------------------------- relabelling

  /** A renumbering of the positions on both sides, with its inverse. */
  datatype Relabel = Relabel(b: nat -> nat, s: nat -> nat, bInv: nat -> nat, sInv: nat -> nat) {
    ghost predicate Valid() {
      && (forall x :: bInv(b(x)) == x && b(bInv(x)) == x)
      && (forall x :: sInv(s(x)) == x && s(sInv(x)) == x)
    }
    function Inverse(): Relabel { Relabel(bInv, sInv, b, s) }
    function Apply(e: Edge): Edge { (b(e.0), s(e.1)) }
    function All(E: set<Edge>): set<Edge> { set e | e in E :: Apply(e) }
  }

  lemma RelabelInverse(r: Relabel, E: set<Edge>)
    requires r.Valid()
    ensures r.Inverse().Valid() && r.Inverse().All(r.All(E)) == E
  {
    forall e | e in E
      ensures e in r.Inverse().All(r.All(E))
    {
      assert r.Apply(e) in r.All(E);
      assert r.Inverse().Apply(r.Apply(e)) == e;
    }
  }

  lemma {:induction false} RelabelSize(r: Relabel, E: set<Edge>)
    requires r.Valid()
    ensures |r.All(E)| == |E|
    decreases |E|
  {
    if E != {} {
      var e :| e in E;
      RelabelSize(r, E - {e});
      assert r.Inverse().Apply(r.Apply(e)) == e;
      forall f | f in E - {e}
        ensures r.Apply(f) != r.Apply(e)
      {
        assert r.Inverse().Apply(r.Apply(f)) == f;
      }
      assert r.All(E) == r.All(E - {e}) + {r.Apply(e)};
    }
  }

  lemma RelabelMatching(r: Relabel, M: set<Edge>, E: set<Edge>)
    requires r.Valid() && IsMatching(M, E)
    ensures IsMatching(r.All(M), r.All(E))
  {
  }

  lemma RelabelMaximum(r: Relabel, M: set<Edge>, E: set<Edge>)
    requires r.Valid() && IsMaximum(M, E)
    ensures IsMaximum(r.All(M), r.All(E))
  {
    RelabelMatching(r, M, E);
    forall N | IsMatching(N, r.All(E))
      ensures |N| <= |r.All(M)|
    {
      RelabelInverse(r, E);
      RelabelMatching(r.Inverse(), N, r.All(E));
      RelabelSize(r.Inverse(), N);
      RelabelSize(r, M);
    }
  }

  lemma RelabelUnique(r: Relabel, M: set<Edge>, E: set<Edge>)
    requires r.Valid() && IsUniqueMaximum(M, E)
    ensures IsUniqueMaximum(r.All(M), r.All(E))
  {
    RelabelMaximum(r, M, E);
    forall N | IsMaximum(N, r.All(E))
      ensures N == r.All(M)
    {
      RelabelInverse(r, E);
      RelabelMaximum(r.Inverse(), N, r.All(E));
      RelabelInverse(r.Inverse(), N);
    }
  }

  function Image(f: nat -> nat, X: set<nat>): set<nat> { set x | x in X :: f(x) }

  lemma RelabelClosed(r: Relabel, B: set<nat>, S: set<nat>, E: set<Edge>)
    requires r.Valid() && Closed(B, S, E)
    ensures Closed(Image(r.b, B), Image(r.s, S), r.All(E))
  {
  }

  lemma RelabelComponent(r: Relabel, b: nat, B: set<nat>, S: set<nat>, E: set<Edge>)
    requires r.Valid() && IsComponent(b, B, S, E)
    ensures IsComponent(r.b(b), Image(r.b, B), Image(r.s, S), r.All(E))
    ensures EdgesAt(Image(r.b, B), r.All(E)) == r.All(EdgesAt(B, E))
  {
    RelabelClosed(r, B, S, E);
    forall B', S' | Closed(B', S', r.All(E)) && r.b(b) in B'
      ensures Image(r.b, B) <= B' && Image(r.s, S) <= S'
    {
      RelabelInverse(r, E);
      RelabelClosed(r.Inverse(), B', S', r.All(E));
      assert r.bInv(r.b(b)) == b;
      assert B <= Image(r.bInv, B') && S <= Image(r.sInv, S');
    }
    forall x
      ensures x in EdgesAt(Image(r.b, B), r.All(E)) <==> x in r.All(EdgesAt(B, E))
    {
      if x in EdgesAt(Image(r.b, B), r.All(E)) {
        var e :| e in E && r.Apply(e) == x;
        assert r.bInv(x.0) == e.0;
        assert e in EdgesAt(B, E);
      }
    }
  }

  /** The assignment does not depend on the order in which positions are listed. */
  lemma AssignedIsEquivariant(r: Relabel, e: Edge, E: set<Edge>)
    requires r.Valid()
    ensures Assigned(e, E) <==> Assigned(r.Apply(e), r.All(E))
  {
    if Assigned(e, E) {
      AssignedCarries(r, e, E);
    }
    if Assigned(r.Apply(e), r.All(E)) {
      RelabelInverse(r, E);
      AssignedCarries(r.Inverse(), r.Apply(e), r.All(E));
    }
  }

  lemma AssignedCarries(r: Relabel, e: Edge, E: set<Edge>)
    requires r.Valid() && Assigned(e, E)
    ensures Assigned(r.Apply(e), r.All(E))
  {
    var M: set<Edge> :| Decides(e.0, M, E) && e in M;
    var B, S :| IsComponent(e.0, B, S, E) && |EdgesAt(B, E)| <= MAX_COMPONENT_EDGES
                && IsUniqueMaximum(M, EdgesAt(B, E));
    RelabelComponent(r, e.0, B, S, E);
    RelabelSize(r, EdgesAt(B, E));
    RelabelUnique(r, M, EdgesAt(B, E));
    assert Decides(r.b(e.0), r.All(M), r.All(E));
    assert r.Apply(e) in r.All(M);
  }

  // ---------------------------------------------------------------- enumeration

  function Prepend<T>(x: T, cs: seq<seq<T>>): seq<seq<T>> {
    seq(|cs|, i requires 0 <= i < |cs| => [x] + cs[i])
  }

  /** The r-element subsequences of s in the order of Python's itertools.combinations. */
  function Combinations<T>(s: seq<T>, r: nat): seq<seq<T>> {
    if r == 0 then [[]]
    else if s == [] then []
    else Prepend(s[0], Combinations(s[1..], r - 1)) + Combinations(s[1..], r)
  }

  lemma {:induction false} CombinationsSound<T>(s: seq<T>, r: nat, k: nat)
    requires Distinct(s) && k < |Combinations(s, r)|
    ensures |Combinations(s, r)[k]| == r && |Elems(Combinations(s, r)[k])| == r
    ensures Elems(Combinations(s, r)[k]) <= Elems(s)
  {
    if r > 0 {
      var front := Combinations(s[1..], r - 1);
      if k < |front| {
        CombinationsSound(s[1..], r - 1, k);
        assert Elems(Combinations(s, r)[k]) == {s[0]} + Elems(front[k]);
      } else {
        CombinationsSound(s[1..], r, k - |front|);
      }
    }
  }

  /** The combinations that begin with s[0] come first. */
  lemma CombinationsHead<T>(s: seq<T>, r: nat, k: nat)
    requires Distinct(s) && s != [] && r > 0 && k < |Combinations(s[1..], r - 1)|
    ensures k < |Combinations(s, r)|
    ensures Elems(Combinations(s, r)[k]) == {s[0]} + Elems(Combinations(s[1..], r - 1)[k])
    ensures s[0] !in Elems(Combinations(s[1..], r - 1)[k])
  {
    CombinationsSound(s[1..], r - 1, k);
    assert Combinations(s, r)[k] == [s[0]] + Combinations(s[1..], r - 1)[k];
  }

  lemma CombinationsTail<T>(s: seq<T>, r: nat, k: nat)
    requires Distinct(s) && s != [] && r > 0
    requires k < |Combinations(s[1..], r)|
    ensures |Combinations(s[1..], r - 1)| + k < |Combinations(s, r)|
    ensures Combinations(s, r)[|Combinations(s[1..], r - 1)| + k] == Combinations(s[1..], r)[k]
    ensures s[0] !in Elems(Combinations(s[1..], r)[k])
  {
    hide Elems, Distinct;
    UnconsElems(s);
    CombinationsSound(s[1..], r, k);
  }

  lemma CombinationsZero<T>(s: seq<T>)
    ensures Combinations(s, 0) == [[]] && Elems(Combinations(s, 0)[0]) == {}
  {
  }

  lemma {:induction false} CombinationsComplete<T>(s: seq<T>, r: nat, X: set<T>) returns (k: nat)
    requires Distinct(s) && X <= Elems(s) && |X| == r
    ensures k < |Combinations(s, r)| && Elems(Combinations(s, r)[k]) == X
    decreases |s|
  {
    hide Combinations, Elems, Distinct;
    if r == 0 {
      k := 0;
      CombinationsZero(s);
    } else if s == [] {
      NoElems(s);
    } else {
      UnconsElems(s);
      if s[0] in X {
        k := CombinationsComplete(s[1..], r - 1, X - {s[0]});
        CombinationsHead(s, r, k);
      } else {
        k := CombinationsComplete(s[1..], r, X);
        CombinationsTail(s, r, k);
        k := |Combinations(s[1..], r - 1)| + k;
      }
    }
  }

  lemma CombinationsSize<T>(s: seq<T>, r: nat)
    ensures |Combinations(s, r)| > 1 ==> s != [] && r > 0
    ensures s != [] && r > 0 ==>
              |Combinations(s, r)| == |Combinations(s[1..], r - 1)| + |Combinations(s[1..], r)|
  {
  }

  lemma {:induction false} CombinationsUnique<T>(s: seq<T>, r: nat, i: nat, j: nat)
    requires Distinct(s) && i < j < |Combinations(s, r)|
    ensures Elems(Combinations(s, r)[i]) != Elems(Combinations(s, r)[j])
    decreases |s|
  {
    hide Combinations, Elems, Distinct;
    CombinationsSize(s, r);
    UnconsElems(s);
    var n := |Combinations(s[1..], r - 1)|;
    if j < n {
      CombinationsUnique(s[1..], r - 1, i, j);
      CombinationsHead(s, r, i);
      CombinationsHead(s, r, j);
    } else if i >= n {
      CombinationsTail(s, r, i - n);
      CombinationsTail(s, r, j - n);
      CombinationsUnique(s[1..], r, i - n, j - n);
    } else {
      CombinationsHead(s, r, i);
      CombinationsTail(s, r, j - n);
    }
  }

  function End(e: Edge, booked: bool): nat { if booked then e.0 else e.1 }

  function Ends(X: set<Edge>, booked: bool): set<nat> { set e | e in X :: End(e, booked) }

  /** The two set-size tests of the enumeration. */
  predicate DistinctEnds(combo: seq<Edge>, r: nat) {
    |Ends(Elems(combo), true)| == r && |Ends(Elems(combo), false)| == r
  }

  lemma {:induction false} EndsSize(X: set<Edge>, booked: bool)
    ensures |Ends(X, booked)| <= |X|
    ensures |Ends(X, booked)| == |X| <==>
            (forall x, y | x in X && y in X && x != y :: End(x, booked) != End(y, booked))
    decreases |X|
  {
    if X != {} {
      var z :| z in X;
      EndsSize(X - {z}, booked);
      assert Ends(X, booked) == Ends(X - {z}, booked) + {End(z, booked)};
      if End(z, booked) in Ends(X - {z}, booked) {
        assert Ends(X, booked) == Ends(X - {z}, booked);
      }
    }
  }

  /** The size tests accept a combination exactly when it is a matching. */
  lemma DistinctEndsIsMatching(combo: seq<Edge>, r: nat, E: set<Edge>)
    requires |Elems(combo)| == r && Elems(combo) <= E
    ensures DistinctEnds(combo, r) <==> IsMatching(Elems(combo), E)
  {
    var X := Elems(combo);
    EndsSize(X, true);
    EndsSize(X, false);
    assert forall x: Edge, y: Edge :: End(x, true) != End(y, true) <==> x.0 != y.0;
    assert forall x: Edge, y: Edge :: End(x, false) != End(y, false) <==> x.1 != y.1;
    if IsMatching(X, E) {
      assert forall x, y | x in X && y in X && x != y :: End(x, true) != End(y, true);
      assert forall x, y | x in X && y in X && x != y :: End(x, false) != End(y, false);
    }
  }

  lemma MatchingFits(M: set<Edge>, E: set<Edge>, B: set<nat>, S: set<nat>)
    requires IsMatching(M, E) && forall e | e in E :: e.0 in B && e.1 in S
    ensures |M| <= |B| && |M| <= |S|
  {
    EndsSize(M, true);
    EndsSize(M, false);
    assert forall x, y | x in M && y in M && x != y :: End(x, true) != End(y, true);
    assert forall x, y | x in M && y in M && x != y :: End(x, false) != End(y, false);
    SubsetSize(Ends(M, true), B);
    SubsetSize(Ends(M, false), S);
  }

  ghost predicate DistinctSets(sets: seq<seq<Edge>>) {
    forall i, j :: 0 <= i < j < |sets| ==> Elems(sets[i]) != Elems(sets[j])
  }

  /** `sets` lists every r-edge matching of E, each once. */
  ghost predicate ListsMatchings(sets: seq<seq<Edge>>, r: nat, E: set<Edge>) {
    && (forall c | c in sets :: IsMatching(Elems(c), E) && |Elems(c)| == |c| == r)
    && (forall M | IsMatching(M, E) && |M| == r :: exists c :: c in sets && Elems(c) == M)
    && DistinctSets(sets)
  }

  ghost function Accepted(combos: seq<seq<Edge>>, r: nat): seq<seq<Edge>> {
    if combos == [] then []
    else
      var last := combos[|combos| - 1];
      Accepted(combos[..|combos| - 1], r) + if DistinctEnds(last, r) then [last] else []
  }

  lemma {:induction false} AcceptedFilters(combos: seq<seq<Edge>>, r: nat)
    ensures forall c :: c in Accepted(combos, r) <==> c in combos && DistinctEnds(c, r)
    ensures DistinctSets(combos) ==> DistinctSets(Accepted(combos, r))
  {
    if combos != [] {
      var front := combos[..|combos| - 1];
      AcceptedFilters(front, r);
      if DistinctSets(combos) {
        assert DistinctSets(front);
        forall c | c in Accepted(front, r)
          ensures Elems(c) != Elems(combos[|combos| - 1])
        {
          var i :| 0 <= i < |front| && front[i] == c;
        }
      }
    }
  }

  lemma AcceptedLists(s: seq<Edge>, r: nat)
    requires Distinct(s)
    ensures ListsMatchings(Accepted(Combinations(s, r), r), r, Elems(s))
  {
    var combos := Combinations(s, r);
    var E := Elems(s);
    forall i, j | 0 <= i < j < |combos|
      ensures Elems(combos[i]) != Elems(combos[j])
    {
      CombinationsUnique(s, r, i, j);
    }
    AcceptedFilters(combos, r);
    forall c | c in combos && DistinctEnds(c, r)
      ensures IsMatching(Elems(c), E) && |Elems(c)| == |c| == r
    {
      var k :| 0 <= k < |combos| && combos[k] == c;
      CombinationsSound(s, r, k);
      DistinctEndsIsMatching(c, r, E);
    }
    forall M | IsMatching(M, E) && |M| == r
      ensures exists c :: c in Accepted(combos, r) && Elems(c) == M
    {
      var k := CombinationsComplete(s, r, M);
      DistinctEndsIsMatching(combos[k], r, E);
      assert combos[k] in Accepted(combos, r);
    }
  }

  method MatchingsOfSize(compEdges: seq<Edge>, r: nat) returns (sets: seq<seq<Edge>>)
    requires Distinct(compEdges)
    ensures ListsMatchings(sets, r, Elems(compEdges))
  {
    sets := [];
    var combos := Combinations(compEdges, r);
    for k := 0 to |combos|
      invariant sets == Accepted(combos[..k], r)
    {
      if DistinctEnds(combos[k], r) {
        sets := sets + [combos[k]];
      }
      assert combos[..k + 1][..k] == combos[..k];
    }
    assert combos[..|combos|] == combos;
    AcceptedLists(compEdges, r);
  }

  /** The search from the largest possible size down finds all maximum matchings, each once. */
  method MaximumMatchings(compEdges: seq<Edge>, B: set<nat>, S: set<nat>) returns (best: nat, bestSets: seq<seq<Edge>>)
    requires Distinct(compEdges) && compEdges != []
    requires forall e | e in compEdges :: e.0 in B && e.1 in S
    ensures ListsMatchings(bestSets, best, Elems(compEdges)) && |bestSets| >= 1
    ensures forall M :: IsMaximum(M, Elems(compEdges)) <==> IsMatching(M, Elems(compEdges)) && |M| == best
    ensures |bestSets| == 1 ==> IsUniqueMaximum(Elems(bestSets[0]), Elems(compEdges))
    ensures |bestSets| != 1 ==> !exists M :: IsUniqueMaximum(M, Elems(compEdges))
  {
    ghost var E := Elems(compEdges);
    best, bestSets := 0, [];
    var r := if |B| <= |S| then |B| else |S|;
    forall M | IsMatching(M, E)
      ensures |M| <= r
    {
      MatchingFits(M, E, B, S);
    }
    assert IsMatching({compEdges[0]}, E);
    while r > 0
      invariant bestSets == []
      invariant 1 <= r
      invariant forall M | IsMatching(M, E) :: |M| <= r
    {
      bestSets := MatchingsOfSize(compEdges, r);
      if bestSets != [] {
        best := r;
        break;
      }
      assert |{compEdges[0]}| == 1;
      r := r - 1;
    }
    assert IsMatching(Elems(bestSets[0]), E);
    assert IsMaximum(Elems(bestSets[0]), E);
    if |bestSets| != 1 {
      assert IsMaximum(Elems(bestSets[1]), E);
    }
  }

  // ---------------------------------------------------------------- component search

  /** adjB and adjS are the two adjacency maps of E. */
  ghost predicate Adjacency(adjB: map<nat, set<nat>>, adjS: map<nat, set<nat>>, E: set<Edge>) {
    && (forall b, s :: (b, s) in E <==> b in adjB && s in adjB[b])
    && (forall b, s :: (b, s) in E <==> s in adjS && b in adjS[s])
    && (forall b | b in adjB :: adjB[b] != {})
    && (forall s | s in adjS :: adjS[s] != {})
  }

  method BuildAdjacency(edges: seq<Edge>) returns (adjB: map<nat, set<nat>>, adjS: map<nat, set<nat>>)
    ensures Adjacency(adjB, adjS, Elems(edges))
  {
    hide Adjacency;
    adjB, adjS := map[], map[];
    NoAdjacency();
    assert Elems(edges[..0]) == {};
    for i := 0 to |edges|
      invariant Adjacency(adjB, adjS, Elems(edges[..i]))
    {
      var (b, s) := edges[i];
      AdjacencyStep(b, s, adjB, adjS, Elems(edges[..i]));
      adjB := adjB[b := (if b in adjB then adjB[b] else {}) + {s}];
      adjS := adjS[s := (if s in adjS then adjS[s] else {}) + {b}];
      assert Elems(edges[..i + 1]) == Elems(edges[..i]) + {(b, s)};
    }
    TakeAll(edges);
  }

  lemma NoAdjacency()
    ensures Adjacency(map[], map[], {})
  {
  }

  lemma AdjacencyStep(b: nat, s: nat, adjB: map<nat, set<nat>>, adjS: map<nat, set<nat>>, E: set<Edge>)
    requires Adjacency(adjB, adjS, E)
    ensures Adjacency(adjB[b := (if b in adjB then adjB[b] else {}) + {s}],
                      adjS[s := (if s in adjS then adjS[s] else {}) + {b}], E + {(b, s)})
  {
  }

  /** A stack entry: the side (booked or simulated) and the index of a position. */
  datatype Vertex = Booked(n: nat) | Simulated(n: nat)

  ghost predicate Inside(v: Vertex, B: set<nat>, S: set<nat>) {
    if v.Booked? then v.n in B else v.n in S
  }

  /** `out` holds the entries of `stack` and one for each neighbour on the given side. */
  ghost predicate Pushed(stack: seq<Vertex>, neighbours: set<nat>, booked: bool, out: seq<Vertex>) {
    forall v :: v in out <==> v in stack || (v.n in neighbours && v.Booked? == booked)
  }

  method PushAll(stack: seq<Vertex>, neighbours: set<nat>, booked: bool) returns (out: seq<Vertex>)
    ensures Pushed(stack, neighbours, booked, out)
  {
    out := stack;
    var rest := neighbours;
    while rest != {}
      invariant rest <= neighbours
      invariant Pushed(stack, neighbours - rest, booked, out)
      decreases |rest|
    {
      var m :| m in rest;
      out := out + [if booked then Booked(m) else Simulated(m)];
      rest := rest - {m};
    }
  }

  /** Every neighbour of a visited vertex is visited or waiting on the stack. */
  ghost predicate Frontier(B: set<nat>, S: set<nat>, stack: seq<Vertex>, E: set<Edge>) {
    && (forall e | e in E && e.0 in B :: e.1 in S || Simulated(e.1) in stack)
    && (forall e | e in E && e.1 in S :: e.0 in B || Booked(e.0) in stack)
  }

  /** What the search maintains: it has visited, or stacked, only vertices of the component. */
  ghost predicate Searching(start: nat, B: set<nat>, S: set<nat>, stack: seq<Vertex>,
                            adjB: map<nat, set<nat>>, adjS: map<nat, set<nat>>, E: set<Edge>) {
    && B <= adjB.Keys && S <= adjS.Keys
    && (forall v | v in stack :: Inside(v, adjB.Keys, adjS.Keys))
    && (start in B || Booked(start) in stack)
    && Frontier(B, S, stack, E)
    && forall B', S' | Closed(B', S', E) && start in B' ::
         B <= B' && S <= S' && forall v | v in stack :: Inside(v, B', S')
  }

  /** Popping booked vertex n, marking it and stacking its neighbours keeps the search going. */
  lemma VisitedBooked(start: nat, B: set<nat>, S: set<nat>, rest: seq<Vertex>, n: nat, stack: seq<Vertex>,
                      adjB: map<nat, set<nat>>, adjS: map<nat, set<nat>>, E: set<Edge>)
    requires Adjacency(adjB, adjS, E) && n in adjB
    requires Searching(start, B, S, rest + [Booked(n)], adjB, adjS, E)
    requires Pushed(rest, adjB[n], false, stack)
    ensures Searching(start, B + {n}, S, stack, adjB, adjS, E)
  {
    assert Booked(n) in rest + [Booked(n)];
    assert forall u | u in rest :: u in rest + [Booked(n)];
    assert forall u | u in rest + [Booked(n)] :: u in rest || u == Booked(n);
    forall B', S' | Closed(B', S', E) && start in B'
      ensures n in B' && forall u | u in stack :: Inside(u, B', S')
    {
      assert Inside(Booked(n), B', S');
    }
  }

  lemma VisitedSimulated(start: nat, B: set<nat>, S: set<nat>, rest: seq<Vertex>, n: nat, stack: seq<Vertex>,
                         adjB: map<nat, set<nat>>, adjS: map<nat, set<nat>>, E: set<Edge>)
    requires Adjacency(adjB, adjS, E) && n in adjS
    requires Searching(start, B, S, rest + [Simulated(n)], adjB, adjS, E)
    requires Pushed(rest, adjS[n], true, stack)
    ensures Searching(start, B, S + {n}, stack, adjB, adjS, E)
  {
    assert Simulated(n) in rest + [Simulated(n)];
    assert forall u | u in rest :: u in rest + [Simulated(n)];
    assert forall u | u in rest + [Simulated(n)] :: u in rest || u == Simulated(n);
    forall B', S' | Closed(B', S', E) && start in B'
      ensures n in S' && forall u | u in stack :: Inside(u, B', S')
    {
      assert Inside(Simulated(n), B', S');
    }
  }

  /** Popping a vertex that is already marked changes nothing else. */
  lemma Skipped(start: nat, B: set<nat>, S: set<nat>, rest: seq<Vertex>, v: Vertex,
                adjB: map<nat, set<nat>>, adjS: map<nat, set<nat>>, E: set<Edge>)
    requires Searching(start, B, S, rest + [v], adjB, adjS, E) && Inside(v, B, S)
    ensures Searching(start, B, S, rest, adjB, adjS, E)
  {
  }

  lemma SearchStarts(start: nat, adjB: map<nat, set<nat>>, adjS: map<nat, set<nat>>, E: set<Edge>)
    requires Adjacency(adjB, adjS, E) && start in adjB
    ensures Searching(start, {}, {}, [Booked(start)], adjB, adjS, E)
  {
  }

  lemma SearchTop(start: nat, B: set<nat>, S: set<nat>, rest: seq<Vertex>, v: Vertex,
                  adjB: map<nat, set<nat>>, adjS: map<nat, set<nat>>, E: set<Edge>)
    requires Searching(start, B, S, rest + [v], adjB, adjS, E)
    ensures Inside(v, adjB.Keys, adjS.Keys)
  {
  }

  lemma SearchEnds(start: nat, B: set<nat>, S: set<nat>,
                   adjB: map<nat, set<nat>>, adjS: map<nat, set<nat>>, E: set<Edge>)
    requires Searching(start, B, S, [], adjB, adjS, E)
    ensures IsComponent(start, B, S, E)
    ensures start in B && B <= adjB.Keys && S <= adjS.Keys
  {
  }

  /** The explicit-stack search returns the true connected component of its start. */
  method ExploreComponent(start: nat, adjB: map<nat, set<nat>>, adjS: map<nat, set<nat>>, ghost E: set<Edge>)
    returns (compB: set<nat>, compS: set<nat>)
    requires Adjacency(adjB, adjS, E) && start in adjB
    ensures IsComponent(start, compB, compS, E)
    ensures start in compB && compB <= adjB.Keys && compS <= adjS.Keys
  {
    compB, compS := {}, {};
    var stack := [Booked(start)];
    hide Searching, IsComponent, Adjacency, Pushed;
    SearchStarts(start, adjB, adjS, E);
    while stack != []
      invariant Searching(start, compB, compS, stack, adjB, adjS, E)
      decreases |adjB.Keys - compB| + |adjS.Keys - compS|, |stack|
    {
      var v := stack[|stack| - 1];
      var rest := stack[..|stack| - 1];
      LastSplit(stack);
      SearchTop(start, compB, compS, rest, v, adjB, adjS, E);
      if v.Booked? && v.n !in compB {
        stack := PushAll(rest, adjB[v.n], false);
        VisitedBooked(start, compB, compS, rest, v.n, stack, adjB, adjS, E);
        MarkingShrinks(adjB.Keys, compB, v.n);
        compB := compB + {v.n};
      } else if v.Simulated? && v.n !in compS {
        stack := PushAll(rest, adjS[v.n], true);
        VisitedSimulated(start, compB, compS, rest, v.n, stack, adjB, adjS, E);
        MarkingShrinks(adjS.Keys, compS, v.n);
        compS := compS + {v.n};
      } else {
        Skipped(start, compB, compS, rest, v, adjB, adjS, E);
        stack := rest;
      }
    }
    SearchEnds(start, compB, compS, adjB, adjS, E);
  }

  // ---------------------------------------------------------------- the assignment

  /** The members of X below n, in increasing order. */
  function Sorted(X: set<nat>, n: nat): (s: seq<nat>)
    ensures forall i :: i in s <==> i in X && i < n
    ensures Distinct(s)
  {
    if n == 0 then [] else Sorted(X, n - 1) + if n - 1 in X then [n - 1] else []
  }

  function SelectAt(edges: seq<Edge>, B: set<nat>): (out: seq<Edge>)
    ensures Elems(out) == EdgesAt(B, Elems(edges))
    ensures Distinct(edges) ==> Distinct(out)
  {
    if edges == [] then []
    else
      var last := edges[|edges| - 1];
      var front := SelectAt(edges[..|edges| - 1], B);
      assert edges == edges[..|edges| - 1] + [last];
      assert Elems(edges) == Elems(edges[..|edges| - 1]) + {last};
      assert Elems(front + [last]) == Elems(front) + {last};
      assert Distinct(edges) ==> last !in edges[..|edges| - 1];
      assert forall e | e in front :: e in Elems(front);
      if last.0 in B then front + [last] else front
  }

  datatype Ambiguity =
    | ComponentTooLarge(booked: seq<nat>, simulated: seq<nat>, edges: seq<Edge>)
    | EquallySupported(booked: seq<nat>, simulated: seq<nat>, edges: seq<Edge>,
                       maximumMatchingSize: nat, alternatives: nat)

  /** The report names a whole component with all its edges, and its reason is the true one. */
  ghost predicate WellReported(a: Ambiguity, E: set<Edge>) {
    && Distinct(a.booked) && Distinct(a.simulated) && Distinct(a.edges)
    && (forall b | b in a.booked :: IsComponent(b, Elems(a.booked), Elems(a.simulated), E))
    && Elems(a.edges) == EdgesAt(Elems(a.booked), E) != {}
    && (a.ComponentTooLarge? <==> |a.edges| > MAX_COMPONENT_EDGES)
    && (a.EquallySupported? ==>
          && a.alternatives > 1
          && exists sets :: |sets| == a.alternatives && ListsMatchings(sets, a.maximumMatchingSize, Elems(a.edges))
               && forall M :: IsMaximum(M, Elems(a.edges)) <==>
                              IsMatching(M, Elems(a.edges)) && |M| == a.maximumMatchingSize)
  }

  ghost predicate Reported(b: nat, ambiguous: seq<Ambiguity>) {
    exists a :: a in ambiguous && b in a.booked
  }

  ghost predicate Disjoint(ambiguous: seq<Ambiguity>) {
    forall i, j | 0 <= i < j < |ambiguous| ::
      && Elems(ambiguous[i].booked) !! Elems(ambiguous[j].booked)
      && Elems(ambiguous[i].simulated) !! Elems(ambiguous[j].simulated)
  }

  /** The state of the search once the components inside (B, S) are handled. */
  ghost predicate Handled(B: set<nat>, S: set<nat>, pairs: seq<Edge>, ambiguous: seq<Ambiguity>, E: set<Edge>) {
    && Closed(B, S, E)
    && PairsWithin(B, pairs, E)
    && ReportsWithin(B, S, ambiguous, E)
  }

  ghost predicate PairsWithin(B: set<nat>, pairs: seq<Edge>, E: set<Edge>) {
    && Distinct(pairs)
    && forall e :: e in pairs <==> e.0 in B && Assigned(e, E)
  }

  ghost predicate ReportsWithin(B: set<nat>, S: set<nat>, ambiguous: seq<Ambiguity>, E: set<Edge>) {
    && (forall a | a in ambiguous :: WellReported(a, E) && Elems(a.booked) <= B && Elems(a.simulated) <= S)
    && (forall b | b in B :: AmbiguousVertex(b, E) <==> Reported(b, ambiguous))
    && Disjoint(ambiguous)
  }

  /** Within one component all vertices share the same verdict. */
  lemma ComponentVerdict(start: nat, B: set<nat>, S: set<nat>, E: set<Edge>, M: set<Edge>, b: nat)
    requires IsComponent(start, B, S, E) && b in B
    ensures Decides(b, M, E) <==> |EdgesAt(B, E)| <= MAX_COMPONENT_EDGES && IsUniqueMaximum(M, EdgesAt(B, E))
  {
    ComponentReroots(start, b, B, S, E);
    if Decides(b, M, E) {
      var B', S' :| IsComponent(b, B', S', E) && |EdgesAt(B', E)| <= MAX_COMPONENT_EDGES
                    && IsUniqueMaximum(M, EdgesAt(B', E));
      ComponentUnique(b, B, S, B', S', E);
    }
  }

  /** Every vertex of a component with an edge at its start has an edge. */
  lemma ComponentHasEdges(start: nat, B: set<nat>, S: set<nat>, E: set<Edge>, b: nat)
    requires IsComponent(start, B, S, E) && b in B
    requires exists e :: e in E && e.0 == start
    ensures exists e :: e in E && e.0 == b
  {
    if forall e | e in E :: e.0 != b {
      ClosedWithout(b, B, S, E);
    }
  }

  lemma ClosedWithout(b: nat, B: set<nat>, S: set<nat>, E: set<Edge>)
    requires Closed(B, S, E) && forall e | e in E :: e.0 != b
    ensures Closed(B - {b}, S, E)
  {
  }

  lemma HandledDeciding(start: nat, compB: set<nat>, compS: set<nat>, M: seq<Edge>, B: set<nat>, S: set<nat>,
                        pairs: seq<Edge>, ambiguous: seq<Ambiguity>, E: set<Edge>)
    requires Handled(B, S, pairs, ambiguous, E) && start !in B
    requires IsComponent(start, compB, compS, E)
    requires |EdgesAt(compB, E)| <= MAX_COMPONENT_EDGES
    requires Distinct(M) && IsUniqueMaximum(Elems(M), EdgesAt(compB, E))
    ensures Handled(B + compB, S + compS, pairs + M, ambiguous, E)
  {
    ComponentAvoids(start, compB, compS, B, S, E);
    forall b, N | b in compB
      ensures Decides(b, N, E) <==> N == Elems(M)
    {
      ComponentVerdict(start, compB, compS, E, N, b);
    }
    PairsGrow(B, compB, M, pairs, E);
    forall b | b in compB
      ensures !AmbiguousVertex(b, E)
    {
      assert Decides(b, Elems(M), E);
    }
    ReportsKept(B, compB, S, compS, ambiguous, E);
  }

  lemma PairsGrow(B: set<nat>, compB: set<nat>, M: seq<Edge>, pairs: seq<Edge>, E: set<Edge>)
    requires PairsWithin(B, pairs, E) && B !! compB && Distinct(M)
    requires forall e | e in M :: e in EdgesAt(compB, E)
    requires forall b, N | b in compB :: Decides(b, N, E) <==> N == Elems(M)
    ensures PairsWithin(B + compB, pairs + M, E)
  {
    forall e
      ensures e in pairs + M <==> e.0 in B + compB && Assigned(e, E)
    {
      if e in M {
        assert e in Elems(M);
        assert Decides(e.0, Elems(M), E);
      }
    }
    assert forall e | e in M :: e !in pairs;
  }

  lemma ReportsKept(B: set<nat>, compB: set<nat>, S: set<nat>, compS: set<nat>,
                    ambiguous: seq<Ambiguity>, E: set<Edge>)
    requires ReportsWithin(B, S, ambiguous, E) && B !! compB
    requires forall b | b in compB :: !AmbiguousVertex(b, E)
    ensures ReportsWithin(B + compB, S + compS, ambiguous, E)
  {
  }

  lemma HandledAmbiguous(start: nat, a: Ambiguity, B: set<nat>, S: set<nat>,
                         pairs: seq<Edge>, ambiguous: seq<Ambiguity>, E: set<Edge>)
    requires Handled(B, S, pairs, ambiguous, E) && start !in B && start in a.booked
    requires exists e :: e in E && e.0 == start
    requires WellReported(a, E)
    requires |a.edges| > MAX_COMPONENT_EDGES || !exists M :: IsUniqueMaximum(M, Elems(a.edges))
    ensures Handled(B + Elems(a.booked), S + Elems(a.simulated), pairs, ambiguous + [a], E)
  {
    var compB, compS := Elems(a.booked), Elems(a.simulated);
    ComponentAvoids(start, compB, compS, B, S, E);
    DistinctElems(a.edges);
    forall b, N | b in compB
      ensures !Decides(b, N, E)
    {
      ComponentVerdict(start, compB, compS, E, N, b);
    }
    forall b | b in compB
      ensures AmbiguousVertex(b, E)
    {
      ComponentHasEdges(start, compB, compS, E, b);
    }
    forall e: Edge | e.0 in compB
      ensures !Assigned(e, E)
    {
    }
    ReportsGrow(B, S, a, ambiguous, E);
  }

  lemma ReportsGrow(B: set<nat>, S: set<nat>, a: Ambiguity, ambiguous: seq<Ambiguity>, E: set<Edge>)
    requires ReportsWithin(B, S, ambiguous, E) && WellReported(a, E)
    requires B !! Elems(a.booked) && S !! Elems(a.simulated)
    requires forall b | b in a.booked :: AmbiguousVertex(b, E)
    ensures ReportsWithin(B + Elems(a.booked), S + Elems(a.simulated), ambiguous + [a], E)
  {
    hide AmbiguousVertex, WellReported;
    forall b | b in B + Elems(a.booked)
      ensures AmbiguousVertex(b, E) <==> Reported(b, ambiguous + [a])
    {
      if b in a.booked {
        assert a in ambiguous + [a] && b in a.booked;
      } else if Reported(b, ambiguous) {
        var x :| x in ambiguous && b in x.booked;
        assert x in ambiguous + [a];
      }
    }
  }

  /** The outcome of one component: its only maximum matching, or one true report. */
  ghost predicate Outcome(compB: set<nat>, compS: set<nat>, E: set<Edge>,
                          pairs: seq<Edge>, ambiguous: seq<Ambiguity>) {
    if ambiguous == [] then
      && |EdgesAt(compB, E)| <= MAX_COMPONENT_EDGES
      && Distinct(pairs)
      && IsUniqueMaximum(Elems(pairs), EdgesAt(compB, E))
    else
      && pairs == []
      && |ambiguous| == 1
      && WellReported(ambiguous[0], E)
      && Elems(ambiguous[0].booked) == compB
      && Elems(ambiguous[0].simulated) == compS
      && (|ambiguous[0].edges| > MAX_COMPONENT_EDGES || !exists M :: IsUniqueMaximum(M, Elems(ambiguous[0].edges)))
  }

  method DecideComponent(compB: set<nat>, compS: set<nat>, compEdges: seq<Edge>, booked: seq<nat>, simulated: seq<nat>,
                         ghost E: set<Edge>)
    returns (pairs: seq<Edge>, ambiguous: seq<Ambiguity>)
    requires Distinct(compEdges) && Elems(compEdges) == EdgesAt(compB, E) != {}
    requires Distinct(booked) && Elems(booked) == compB && Distinct(simulated) && Elems(simulated) == compS
    requires forall b | b in compB :: IsComponent(b, compB, compS, E)
    ensures Outcome(compB, compS, E, pairs, ambiguous)
  {
    DistinctElems(compEdges);
    if |compEdges| > MAX_COMPONENT_EDGES {
      return [], [ComponentTooLarge(booked, simulated, compEdges)];
    }
    forall e | e in compEdges
      ensures e.0 in compB && e.1 in compS
    {
      assert e in Elems(compEdges);
      assert IsComponent(e.0, compB, compS, E);
    }
    var best, bestSets := MaximumMatchings(compEdges, compB, compS);
    if |bestSets| == 1 {
      ElemsDistinct(bestSets[0]);
      return bestSets[0], [];
    }
    return [], [EquallySupported(booked, simulated, compEdges, best, |bestSets|)];
  }

  lemma HandledComponent(start: nat, compB: set<nat>, compS: set<nat>, found: seq<Edge>, unclear: seq<Ambiguity>,
                         B: set<nat>, S: set<nat>, pairs: seq<Edge>, ambiguous: seq<Ambiguity>, E: set<Edge>)
    requires Handled(B, S, pairs, ambiguous, E) && start !in B
    requires IsComponent(start, compB, compS, E) && EdgesAt({start}, E) != {}
    requires Outcome(compB, compS, E, found, unclear)
    ensures Handled(B + compB, S + compS, pairs + found, ambiguous + unclear, E)
  {
    hide Handled;
    var e :| e in EdgesAt({start}, E);
    if unclear == [] {
      HandledDeciding(start, compB, compS, found, B, S, pairs, ambiguous, E);
      assert ambiguous + unclear == ambiguous;
    } else {
      assert start in Elems(unclear[0].booked);
      HandledAmbiguous(start, unclear[0], B, S, pairs, ambiguous, E);
      assert pairs + found == pairs;
      assert unclear == [unclear[0]];
    }
  }

  /** One turn of the assignment loop: find the component of `start` and decide it. */
  method HandleComponent(start: nat, edges: seq<Edge>, nb: nat, ns: nat, adjB: map<nat, set<nat>>, adjS: map<nat, set<nat>>)
    returns (compB: set<nat>, compS: set<nat>, found: seq<Edge>, unclear: seq<Ambiguity>)
    requires Distinct(edges) && forall e | e in edges :: e.0 < nb && e.1 < ns
    requires Adjacency(adjB, adjS, Elems(edges)) && start in adjB
    ensures start in compB && IsComponent(start, compB, compS, Elems(edges))
    ensures Outcome(compB, compS, Elems(edges), found, unclear)
    ensures EdgesAt({start}, Elems(edges)) != {}
  {
    hide IsComponent, Adjacency, Outcome;
    compB, compS := ExploreComponent(start, adjB, adjS, Elems(edges));
    var compEdges := SelectAt(edges, compB);
    ReportedComponent(start, compB, compS, nb, ns, adjB, adjS, Elems(edges));
    found, unclear := DecideComponent(compB, compS, compEdges, Sorted(compB, nb), Sorted(compS, ns), Elems(edges));
    StartHasEdge(start, adjB, adjS, Elems(edges));
  }

  /** The assignment loop over `sorted(adj_b)`. `nb` and `ns` are the numbers of positions;
      `edges` is the key list of the edge dictionary, which the candidate loops fill in sorted order. */
  method MatchPositions(edges: seq<Edge>, nb: nat, ns: nat) returns (pairs: seq<Edge>, ambiguous: seq<Ambiguity>)
    requires Distinct(edges) && forall e | e in edges :: e.0 < nb && e.1 < ns
    ensures Distinct(pairs)
    ensures forall e :: e in pairs <==> Assigned(e, Elems(edges))
    ensures forall b :: AmbiguousVertex(b, Elems(edges)) <==> Reported(b, ambiguous)
    ensures forall a | a in ambiguous :: WellReported(a, Elems(edges))
    ensures Disjoint(ambiguous)
  {
    hide Handled, Adjacency, Outcome, IsComponent, WellReported, Assigned, AmbiguousVertex, Reported, Disjoint, IsUniqueMaximum;
    ghost var E := Elems(edges);
    var adjB, adjS := BuildAdjacency(edges);
    var seenB: set<nat>, seenS: set<nat> := {}, {};
    pairs, ambiguous := [], [];
    NothingHandled(E);
    for start := 0 to nb
      invariant Handled(seenB, seenS, pairs, ambiguous, E)
      invariant forall b | b in adjB && b < start :: b in seenB
    {
      if start in adjB && start !in seenB {
        var compB, compS, found, unclear := HandleComponent(start, edges, nb, ns, adjB, adjS);
        HandledComponent(start, compB, compS, found, unclear, seenB, seenS, pairs, ambiguous, E);
        pairs, ambiguous := pairs + found, ambiguous + unclear;
        seenB, seenS := seenB + compB, seenS + compS;
      }
    }
    forall e | e in E
      ensures e.0 in seenB
    {
      EdgeIsAdjacent(e, adjB, adjS, E);
    }
    AllHandled(seenB, seenS, pairs, ambiguous, E);
  }

  lemma StartHasEdge(start: nat, adjB: map<nat, set<nat>>, adjS: map<nat, set<nat>>, E: set<Edge>)
    requires Adjacency(adjB, adjS, E)
    ensures start in adjB <==> EdgesAt({start}, E) != {}
  {
    if start in adjB {
      var s :| s in adjB[start];
      assert (start, s) in EdgesAt({start}, E);
    } else if e :| e in EdgesAt({start}, E) {
      EdgeIsAdjacent(e, adjB, adjS, E);
    }
  }

  lemma EdgeIsAdjacent(e: Edge, adjB: map<nat, set<nat>>, adjS: map<nat, set<nat>>, E: set<Edge>)
    requires Adjacency(adjB, adjS, E) && e in E
    ensures e.0 in adjB
  {
  }

  lemma ReportedComponent(start: nat, compB: set<nat>, compS: set<nat>, nb: nat, ns: nat,
                          adjB: map<nat, set<nat>>, adjS: map<nat, set<nat>>, E: set<Edge>)
    requires Adjacency(adjB, adjS, E) && IsComponent(start, compB, compS, E)
    requires compB <= adjB.Keys && compS <= adjS.Keys
    requires forall e | e in E :: e.0 < nb && e.1 < ns
    ensures Elems(Sorted(compB, nb)) == compB && Elems(Sorted(compS, ns)) == compS
    ensures forall b | b in compB :: IsComponent(b, compB, compS, E)
    ensures start in adjB ==> EdgesAt(compB, E) != {}
  {
    if start in adjB {
      var s :| s in adjB[start];
      assert (start, s) in EdgesAt(compB, E);
    }
    forall b | b in compB
      ensures b < nb && IsComponent(b, compB, compS, E)
    {
      var s :| s in adjB[b];
      assert (b, s) in E;
      ComponentReroots(start, b, compB, compS, E);
    }
    forall s | s in compS
      ensures s < ns
    {
      var b :| b in adjS[s];
      assert (b, s) in E;
    }
  }

  lemma NothingHandled(E: set<Edge>)
    ensures Handled({}, {}, [], [], E)
  {
  }

  lemma AllHandled(B: set<nat>, S: set<nat>, pairs: seq<Edge>, ambiguous: seq<Ambiguity>, E: set<Edge>)
    requires Handled(B, S, pairs, ambiguous, E)
    requires forall e | e in E :: e.0 in B
    ensures forall e :: e in pairs <==> Assigned(e, E)
    ensures forall b :: AmbiguousVertex(b, E) <==> Reported(b, ambiguous)
    ensures Distinct(pairs) && Disjoint(ambiguous)
    ensures forall a | a in ambiguous :: WellReported(a, E)
  {
  }
}
