/**
  The simulated side of the comparison: events grouped into positions, and the one disposition each event gets.
 */
module SimulatedLedger {
  import opened Common
  import opened Sequences
  import opened LedgerBooking
  import opened LedgerComparison
  import M = Matching

  datatype RowKind = Trading | FundingRow | SyntheticRow

  /** One event of the simulation's envelope. */
  datatype Row = Row(event: SimEvent, kind: RowKind, positionId: nat, side: Side)

  datatype SimDisposition = SimMatched | SimUnmatched | SimAmbiguous | SimFunding | SimSynthetic

  ghost predicate DistinctIds(rows: seq<Row>) {
    forall i, j | 0 <= i < j < |rows| :: rows[i].event.id != rows[j].event.id
  }

  // ---------------------------------------------------------------- grouping

  predicate BelongsTo(r: Row, pid: nat) { r.kind == Trading && r.positionId == pid }

  /** The events of a position, in order. */
  function EventsOf(rows: seq<Row>, pid: nat): seq<SimEvent> {
    if rows == [] then []
    else
      var r := rows[|rows| - 1];
      EventsOf(rows[..|rows| - 1], pid) + if BelongsTo(r, pid) then [r.event] else []
  }

  /** The side its first event gives a position. */
  function FirstSide(rows: seq<Row>, pid: nat): Option<Side> {
    if rows == [] then None
    else
      var earlier := FirstSide(rows[..|rows| - 1], pid);
      var r := rows[|rows| - 1];
      if earlier.Some? then earlier else if BelongsTo(r, pid) then Some(r.side) else None
  }

  function EarlyOf(kind: RowKind): SimDisposition { if kind == FundingRow then SimFunding else SimSynthetic }

  ghost predicate IsGroup(p: SimPosition, pid: nat, rows: seq<Row>) {
    && p.id == pid && p.events == EventsOf(rows, pid) != []
    && FirstSide(rows, pid) == Some(p.side)
  }

  ghost predicate Grouped(groups: map<nat, SimPosition>, rows: seq<Row>) {
    && (forall pid :: pid in groups <==> EventsOf(rows, pid) != [])
    && (forall pid | pid in groups :: IsGroup(groups[pid], pid, rows))
  }

  /** The positions are the groups of the trading rows, ordered by their id. */
  ghost predicate TruePositions(sps: seq<SimPosition>, rows: seq<Row>) {
    && (forall i, j | 0 <= i < j < |sps| :: sps[i].id < sps[j].id)
    && (forall k | 0 <= k < |sps| :: IsGroup(sps[k], sps[k].id, rows))
    && (forall r | r in rows && r.kind == Trading :: exists k :: 0 <= k < |sps| && sps[k].id == r.positionId)
  }

  /** Exactly the rows outside positions have their disposition. */
  ghost predicate TrueEarly(early: map<nat, SimDisposition>, rows: seq<Row>) {
    && (forall id :: id in early <==> exists r :: r in rows && r.kind != Trading && r.event.id == id)
    && (forall r | r in rows && r.kind != Trading && r.event.id in early :: early[r.event.id] == EarlyOf(r.kind))
  }

  lemma RowsSnoc(rows: seq<Row>, r: Row, pid: nat)
    ensures EventsOf(rows + [r], pid) == EventsOf(rows, pid) + if BelongsTo(r, pid) then [r.event] else []
    ensures FirstSide(rows + [r], pid)
         == if FirstSide(rows, pid).Some? then FirstSide(rows, pid) else if BelongsTo(r, pid) then Some(r.side) else None
  {
  }

  lemma {:induction false} SideIffEvents(rows: seq<Row>, pid: nat)
    ensures FirstSide(rows, pid).Some? <==> EventsOf(rows, pid) != []
  {
    if rows != [] {
      SideIffEvents(rows[..|rows| - 1], pid);
    }
  }

  /** The group of a trading row after the row. */
  function Joined(groups: map<nat, SimPosition>, r: Row): SimPosition {
    if r.positionId in groups
    then groups[r.positionId].(events := groups[r.positionId].events + [r.event])
    else SimPosition(r.positionId, r.side, [r.event])
  }

  lemma GroupedNext(groups: map<nat, SimPosition>, rows: seq<Row>, r: Row)
    requires Grouped(groups, rows)
    ensures Grouped(if r.kind == Trading then groups[r.positionId := Joined(groups, r)] else groups, rows + [r])
  {
    hide EventsOf, FirstSide;
    forall pid: nat
      ensures EventsOf(rows + [r], pid) == EventsOf(rows, pid) + if BelongsTo(r, pid) then [r.event] else []
      ensures FirstSide(rows + [r], pid)
           == if FirstSide(rows, pid).Some? then FirstSide(rows, pid)
              else if BelongsTo(r, pid) then Some(r.side) else None
      ensures FirstSide(rows, pid).Some? <==> EventsOf(rows, pid) != []
    {
      RowsSnoc(rows, r, pid);
      SideIffEvents(rows, pid);
    }
  }

  lemma EarlyNext(early: map<nat, SimDisposition>, rows: seq<Row>, r: Row)
    requires TrueEarly(early, rows) && DistinctIds(rows + [r])
    ensures TrueEarly(if r.kind == Trading then early else early[r.event.id := EarlyOf(r.kind)], rows + [r])
  {
    var all := rows + [r];
    assert all[|rows|] == r;
    forall x | x in rows
      ensures x.event.id != r.event.id && x in all
    {
      var i :| 0 <= i < |rows| && rows[i] == x;
      assert all[i] == x;
    }
  }

  /** The loop over the envelope: trading rows join their position, the others are settled at once; then the positions
      in the order of their ids. */
  method NormalizeSimulated(rows: seq<Row>) returns (sps: seq<SimPosition>, early: map<nat, SimDisposition>)
    requires DistinctIds(rows)
    ensures TruePositions(sps, rows) && TrueEarly(early, rows)
  {
    hide Grouped, TrueEarly, Joined;
    var groups: map<nat, SimPosition> := map[];
    var order: seq<nat> := [];
    early := map[];
    NothingGrouped();
    for i := 0 to |rows|
      invariant Grouped(groups, rows[..i]) && TrueEarly(early, rows[..i])
      invariant Elems(order) == groups.Keys && Distinct(order)
    {
      var r := rows[i];
      assert rows[..i + 1] == rows[..i] + [r];
      GroupedNext(groups, rows[..i], r);
      EarlyNext(early, rows[..i], r);
      if r.kind == Trading {
        if r.positionId !in groups {
          assert Elems(order + [r.positionId]) == Elems(order) + {r.positionId};
          order := order + [r.positionId];
        }
        groups := groups[r.positionId := Joined(groups, r)];
      } else {
        early := early[r.event.id := EarlyOf(r.kind)];
      }
    }
    TakeAll(rows);
    var ids := SortBy(AtMostId, order);
    SortByCounts(AtMostId, order);
    SortBySorts(AtMostId, order);
    SameMultisetListing(order, ids);
    assert forall k | 0 <= k < |ids| :: ids[k] in groups by {
      assert forall k | 0 <= k < |ids| :: ids[k] in ids && ids[k] in order;
    }
    sps := seq(|ids|, k requires 0 <= k < |ids| => groups[ids[k]]);
    PositionsOf(groups, ids, sps, rows);
  }

  predicate AtMostId(a: nat, b: nat) { a <= b }

  lemma NothingGrouped()
    ensures Grouped(map[], []) && TrueEarly(map[], [])
  {
  }

  lemma PositionsOf(groups: map<nat, SimPosition>, ids: seq<nat>, sps: seq<SimPosition>, rows: seq<Row>)
    requires Grouped(groups, rows) && Elems(ids) == groups.Keys && Distinct(ids)
    requires SortedBy(AtMostId, ids)
    requires |sps| == |ids| && forall k | 0 <= k < |ids| :: ids[k] in groups && sps[k] == groups[ids[k]]
    ensures TruePositions(sps, rows)
  {
    hide EventsOf, FirstSide;
    forall r | r in rows && r.kind == Trading
      ensures exists k :: 0 <= k < |sps| && sps[k].id == r.positionId
    {
      EventIsListed(rows, r);
      assert r.positionId in Elems(ids);
      var k :| 0 <= k < |ids| && ids[k] == r.positionId;
      assert sps[k].id == r.positionId;
    }
  }

  lemma {:induction false} EventIsListed(rows: seq<Row>, r: Row)
    requires r in rows && r.kind == Trading
    ensures r.event in EventsOf(rows, r.positionId)
  {
    if rows[|rows| - 1] != r {
      LastSplit(rows);
      EventIsListed(rows[..|rows| - 1], r);
    }
  }

  lemma {:induction false} ListedIsRow(rows: seq<Row>, pid: nat, e: SimEvent) returns (r: Row)
    requires e in EventsOf(rows, pid)
    ensures r in rows && BelongsTo(r, pid) && r.event == e
  {
    r := rows[|rows| - 1];
    if !(BelongsTo(r, pid) && r.event == e) {
      r := ListedIsRow(rows[..|rows| - 1], pid, e);
    }
  }

  // ---------------------------------------------------------------- the rule

  /** Simulated position j belongs to a component that is not decided. */
  ghost predicate Undecided(j: nat, c: Case) {
    exists i: nat :: (i, j) in c.edges && M.AmbiguousVertex(i, c.edges)
  }

  /** What an event of simulated position j gets; stated from the candidate graph, without the run. */
  ghost function SimVerdict(e: SimEvent, j: nat, c: Case): SimDisposition {
    if exists i: nat :: PairedWith(i, j, c) && e in ComparedSims(c.bps[i], c.sims.value[j]) then SimMatched
    else if exists i: nat :: PairedWith(i, j, c) then SimUnmatched
    else if Undecided(j, c) then SimAmbiguous
    else SimUnmatched
  }

  /** A simulated position is paired with at most one booked position, and then its component is decided. */
  lemma TakenOnce(i: nat, j: nat, c: Case)
    requires PairedWith(i, j, c)
    ensures !Undecided(j, c)
    ensures forall i': nat | PairedWith(i', j, c) :: i' == i
  {
    forall i': nat | PairedWith(i', j, c)
      ensures i' == i
    {
      var both := {(i, j), (i', j)};
      M.AssignedIsMatching(both, c.edges);
      assert (i, j) in both && (i', j) in both;
    }
    forall i': nat | (i', j) in c.edges
      ensures !M.AmbiguousVertex(i', c.edges)
    {
      DecidedTogether((i, j), (i', j), c.edges);
    }
  }

  /** A component decides for all its vertices. */
  lemma DecidedTogether(e: M.Edge, f: M.Edge, E: set<M.Edge>)
    requires M.Assigned(e, E) && f in E && f.1 == e.1
    ensures !M.AmbiguousVertex(f.0, E)
  {
    var N :| M.Decides(e.0, N, E) && e in N;
    var B, S :| M.IsComponent(e.0, B, S, E) && |M.EdgesAt(B, E)| <= M.MAX_COMPONENT_EDGES
                && M.IsUniqueMaximum(N, M.EdgesAt(B, E));
    assert e in E && e.1 in S;
    assert f.0 in B;
    M.ComponentReroots(e.0, f.0, B, S, E);
    assert M.Decides(f.0, N, E);
  }

  /** The undecided simulated positions are exactly those the reports name. */
  lemma ReportedSides(ambiguous: seq<M.Ambiguity>, c: Case, pairs: seq<M.Edge>, j: nat)
    requires TrueSearch(pairs, ambiguous, c) && c.sims.Some?
    ensures Undecided(j, c) <==> exists a :: a in ambiguous && j in a.simulated
  {
    hide M.Assigned, M.AmbiguousVertex, M.Disjoint;
    if i: nat :| (i, j) in c.edges && M.AmbiguousVertex(i, c.edges) {
      assert M.Reported(i, ambiguous);
      var a :| a in ambiguous && i in a.booked;
      InReport(a, i, j, c.edges);
    }
    if a :| a in ambiguous && j in a.simulated {
      var i := SomeEdge(a, j, c.edges);
      assert M.Reported(i, ambiguous);
    }
  }

  lemma InReport(a: M.Ambiguity, i: nat, j: nat, E: set<M.Edge>)
    requires M.WellReported(a, E) && i in a.booked && (i, j) in E
    ensures j in a.simulated
  {
    assert M.IsComponent(i, Elems(a.booked), Elems(a.simulated), E);
    assert (i, j).0 in Elems(a.booked);
    assert (i, j).1 in Elems(a.simulated);
  }

  /** Every simulated position of a component has a candidate in it. */
  lemma SomeEdge(a: M.Ambiguity, j: nat, E: set<M.Edge>) returns (i: nat)
    requires M.WellReported(a, E) && j in a.simulated
    ensures i in a.booked && (i, j) in E
  {
    var B, S := Elems(a.booked), Elems(a.simulated);
    var e: M.Edge :| e in M.EdgesAt(B, E);
    var b := e.0;
    assert b in a.booked && M.IsComponent(b, B, S, E);
    if forall f | f in E :: f.1 != j {
      assert M.Closed(B, S - {j}, E);
      assert false;
    }
    var f: M.Edge :| f in E && f.1 == j;
    i := f.0;
    assert f == (i, j);
  }

  // ---------------------------------------------------------------- the loops

  function IdsOf(evs: seq<SimEvent>): set<nat> { set e | e in evs :: e.id }

  ghost function HandledIds(handled: set<nat>, sps: seq<SimPosition>): set<nat> {
    set j, e | j in handled && j < |sps| && e in sps[j].events :: e.id
  }

  /** No two events of the positions share an id, and none has a disposition yet. */
  ghost predicate SeparateIds(sps: seq<SimPosition>, early: map<nat, SimDisposition>) {
    && (forall j, k, e, f | 0 <= j < |sps| && 0 <= k < |sps| && e in sps[j].events && f in sps[k].events && e.id == f.id ::
          j == k && e == f)
    && (forall j, e | 0 <= j < |sps| && e in sps[j].events :: e.id !in early)
  }

  /** Exactly the events of the handled positions have been added, each with its verdict. */
  ghost predicate SimDisposed(disp: map<nat, SimDisposition>, handled: set<nat>, early: map<nat, SimDisposition>, c: Case)
    requires c.sims.Some?
  {
    && disp.Keys == early.Keys + HandledIds(handled, c.sims.value)
    && (forall j, e | j in handled && 0 <= j < |c.sims.value| && e in c.sims.value[j].events && e.id in disp ::
          disp[e.id] == SimVerdict(e, j, c))
    && (forall id | id in early && id in disp :: disp[id] == early[id])
  }

  ghost predicate SimMarked(disp: map<nat, SimDisposition>, evs: seq<SimEvent>, compared: set<nat>,
                            otherwise: SimDisposition, out: map<nat, SimDisposition>)
  {
    && out.Keys == disp.Keys + IdsOf(evs)
    && (forall e | e in evs && e.id in out :: out[e.id] == if e.id in compared then SimMatched else otherwise)
    && (forall id | id in disp && id in out && id !in IdsOf(evs) :: out[id] == disp[id])
  }

  lemma NoneMarked(disp: map<nat, SimDisposition>, evs: seq<SimEvent>, compared: set<nat>, otherwise: SimDisposition)
    ensures SimMarked(disp, evs[..0], compared, otherwise, disp)
  {
  }

  lemma MarkedNext(disp: map<nat, SimDisposition>, evs: seq<SimEvent>, n: nat, compared: set<nat>,
                   otherwise: SimDisposition, out: map<nat, SimDisposition>)
    requires n < |evs| && SimMarked(disp, evs[..n], compared, otherwise, out)
    ensures SimMarked(disp, evs[..n + 1], compared, otherwise,
                      out[evs[n].id := if evs[n].id in compared then SimMatched else otherwise])
  {
    assert evs[..n + 1] == evs[..n] + [evs[n]];
    assert IdsOf(evs[..n + 1]) == IdsOf(evs[..n]) + {evs[n].id};
    hide IdsOf;
  }

  method MarkSims(disp: map<nat, SimDisposition>, evs: seq<SimEvent>, compared: set<nat>, otherwise: SimDisposition)
    returns (out: map<nat, SimDisposition>)
    ensures SimMarked(disp, evs, compared, otherwise, out)
  {
    hide SimMarked;
    out := disp;
    NoneMarked(disp, evs, compared, otherwise);
    for n := 0 to |evs|
      invariant SimMarked(disp, evs[..n], compared, otherwise, out)
    {
      MarkedNext(disp, evs, n, compared, otherwise, out);
      out := out[evs[n].id := if evs[n].id in compared then SimMatched else otherwise];
    }
    TakeAll(evs);
  }

  /** Marking the events of one position with their verdicts handles it. */
  lemma MarkedHandles(disp: map<nat, SimDisposition>, handled: set<nat>, early: map<nat, SimDisposition>, c: Case, j: nat,
                      compared: set<nat>, otherwise: SimDisposition, out: map<nat, SimDisposition>)
    requires c.sims.Some? && j < |c.sims.value| && SeparateIds(c.sims.value, early)
    requires SimDisposed(disp, handled, early, c)
    requires SimMarked(disp, c.sims.value[j].events, compared, otherwise, out)
    requires forall e | e in c.sims.value[j].events ::
               SimVerdict(e, j, c) == if e.id in compared then SimMatched else otherwise
    ensures SimDisposed(out, handled + {j}, early, c)
  {
    hide SimVerdict, SeparateIds, HandledIds, IdsOf;
    var sps := c.sims.value;
    HandledOneMore(handled, j, sps);
    forall k, e | k in handled + {j} && 0 <= k < |sps| && e in sps[k].events && e.id in out
      ensures out[e.id] == SimVerdict(e, k, c)
    {
      OwnEvent(sps, early, handled, j, k, e);
    }
    forall id | id in early
      ensures id !in IdsOf(sps[j].events)
    {
      EarlyApart(sps, early, j, id);
    }
  }

  lemma HandledOneMore(handled: set<nat>, j: nat, sps: seq<SimPosition>)
    requires j < |sps|
    ensures HandledIds(handled + {j}, sps) == HandledIds(handled, sps) + IdsOf(sps[j].events)
  {
  }

  /** An event whose id position j has is that position's; any other event is an earlier handled one. */
  lemma OwnEvent(sps: seq<SimPosition>, early: map<nat, SimDisposition>, handled: set<nat>, j: nat, k: nat, e: SimEvent)
    requires SeparateIds(sps, early) && j < |sps| && k < |sps| && k in handled + {j} && e in sps[k].events
    ensures e.id in IdsOf(sps[j].events) ==> k == j
    ensures e.id !in IdsOf(sps[j].events) ==> k in handled && e.id in HandledIds(handled, sps)
  {
  }

  lemma EarlyApart(sps: seq<SimPosition>, early: map<nat, SimDisposition>, j: nat, id: nat)
    requires SeparateIds(sps, early) && j < |sps| && id in early
    ensures id !in IdsOf(sps[j].events)
  {
  }

  lemma ComparedAreEvents(bp: Position, sp: SimPosition)
    ensures forall e | e in ComparedSims(bp, sp) :: e in sp.events
  {
    hide Filter;
  }

  /** What a pair decides for the events of its simulated position. */
  lemma PairSimVerdict(i: nat, j: nat, c: Case, early: map<nat, SimDisposition>, compared: set<nat>)
    requires PairedWith(i, j, c) && SeparateIds(c.sims.value, early)
    requires compared == IdsOf(ComparedSims(c.bps[i], c.sims.value[j]))
    ensures forall e | e in c.sims.value[j].events ::
              SimVerdict(e, j, c) == if e.id in compared then SimMatched else SimUnmatched
  {
    hide M.Assigned, M.AmbiguousVertex, ComparedSims;
    TakenOnce(i, j, c);
    ComparedAreEvents(c.bps[i], c.sims.value[j]);
  }

  lemma ReadyToStart(early: map<nat, SimDisposition>, c: Case)
    requires c.sims.Some?
    ensures SimDisposed(early, {}, early, c)
  {
    assert HandledIds({}, c.sims.value) == {};
  }

  function Seconds(pairs: seq<M.Edge>): (out: seq<nat>)
    ensures |out| == |pairs| && forall k | 0 <= k < |pairs| :: out[k] == pairs[k].1
  {
    seq(|pairs|, k requires 0 <= k < |pairs| => pairs[k].1)
  }

  /** The simulated half of the pair loop. */
  method DisposeSimPairs(r: Report, early: map<nat, SimDisposition>) returns (disp: map<nat, SimDisposition>)
    requires TrueMatches(r) && r.bookedCase.sims.Some? && SeparateIds(r.bookedCase.sims.value, early)
    ensures SimDisposed(disp, Elems(Seconds(r.pairs)), early, r.bookedCase)
  {
    hide SimDisposed, TrueSearch, PairedWith, SeparateIds, SimMarked, SimVerdict, PairsInOrder, ComparedSims, IdsOf,
         SimulatedOf;
    var c := r.bookedCase;
    disp := early;
    ReadyToStart(early, c);
    assert Elems(Seconds(r.pairs)[..0]) == {};
    for n := 0 to |r.pairs|
      invariant SimDisposed(disp, Elems(Seconds(r.pairs)[..n]), early, c)
    {
      var (i, j) := r.pairs[n];
      PairInRange(i, j, c);
      SimRows(r.matched[n], c.bps[i], c.sims.value[j]);
      var compared := IdsOf(SimulatedOf(r.matched[n].components));
      PairSimVerdict(i, j, c, early, compared);
      var marked := MarkSims(disp, c.sims.value[j].events, compared, SimUnmatched);
      MarkedHandles(disp, Elems(Seconds(r.pairs)[..n]), early, c, j, compared, SimUnmatched, marked);
      ElemsTake(Seconds(r.pairs), n);
      disp := marked;
    }
    TakeAll(Seconds(r.pairs));
  }

  lemma PairInRange(i: nat, j: nat, c: Case)
    requires PairedWith(i, j, c)
    ensures c.sims.Some? && i < |c.bps| && j < |c.sims.value|
  {
  }

  lemma SimRows(p: PairReport, bp: Position, sp: SimPosition)
    requires PairsInOrder(p, bp, sp)
    ensures SimulatedOf(p.components) == ComparedSims(bp, sp)
  {
  }

  /** The loops that give all events of the listed positions one disposition. */
  method DisposeSims(idx: seq<nat>, d: SimDisposition, c: Case, early: map<nat, SimDisposition>,
                     before: map<nat, SimDisposition>, ghost handled: set<nat>)
    returns (disp: map<nat, SimDisposition>)
    requires c.sims.Some? && SeparateIds(c.sims.value, early) && SimDisposed(before, handled, early, c)
    requires forall j | j in idx :: j < |c.sims.value| && forall e :: SimVerdict(e, j, c) == d
    ensures SimDisposed(disp, handled + Elems(idx), early, c)
  {
    hide SimDisposed, SeparateIds, SimMarked, SimVerdict;
    disp := before;
    assert handled + Elems(idx[..0]) == handled;
    for n := 0 to |idx|
      invariant SimDisposed(disp, handled + Elems(idx[..n]), early, c)
    {
      assert idx[n] in idx;
      var marked := MarkSims(disp, c.sims.value[idx[n]].events, {}, d);
      MarkedHandles(disp, handled + Elems(idx[..n]), early, c, idx[n], {}, d, marked);
      ElemsTake(idx, n);
      assert handled + Elems(idx[..n + 1]) == handled + Elems(idx[..n]) + {idx[n]};
      disp := marked;
    }
    TakeAll(idx);
  }

  function SimulatedLists(ambiguous: seq<M.Ambiguity>): (out: seq<seq<nat>>)
    ensures |out| == |ambiguous| && forall k | 0 <= k < |out| :: out[k] == ambiguous[k].simulated
  {
    seq(|ambiguous|, k requires 0 <= k < |ambiguous| => ambiguous[k].simulated)
  }

  lemma ListedSides(ambiguous: seq<M.Ambiguity>, j: nat)
    ensures j in Flatten(SimulatedLists(ambiguous)) <==> exists a :: a in ambiguous && j in a.simulated
  {
    var lists := SimulatedLists(ambiguous);
    FlattenMember(lists, j);
    if a :| a in ambiguous && j in a.simulated {
      var k :| 0 <= k < |ambiguous| && ambiguous[k] == a;
      assert j in lists[k];
    }
  }

  lemma WholeVerdict(r: Report, e: SimEvent, j: nat)
    requires TrueMatches(r) && r.bookedCase.sims.Some? && TrueCase(r.bookedCase)
    ensures j in Flatten(SimulatedLists(r.ambiguous)) ==>
              j < |r.bookedCase.sims.value| && SimVerdict(e, j, r.bookedCase) == SimAmbiguous
    ensures j !in Flatten(SimulatedLists(r.ambiguous)) && j !in Seconds(r.pairs) ==>
              SimVerdict(e, j, r.bookedCase) == SimUnmatched
  {
    hide M.Assigned, M.AmbiguousVertex, PairsInOrder, TruePosition, ComparedSims;
    var c := r.bookedCase;
    ListedSides(r.ambiguous, j);
    ReportedSides(r.ambiguous, c, r.pairs, j);
    forall i: nat | PairedWith(i, j, c)
      ensures j in Seconds(r.pairs) && !Undecided(j, c)
    {
      TakenOnce(i, j, c);
      var k :| 0 <= k < |r.pairs| && r.pairs[k] == (i, j);
      assert Seconds(r.pairs)[k] == j;
    }
  }

  /** The dispositions the whole-position loops may write. */
  lemma WholeVerdicts(r: Report, undecided: seq<nat>, rest: seq<nat>)
    requires TrueMatches(r) && r.bookedCase.sims.Some? && TrueCase(r.bookedCase)
    requires undecided == Flatten(SimulatedLists(r.ambiguous))
    requires rest == Remaining(|r.bookedCase.sims.value|, Elems(Seconds(r.pairs)) + Elems(undecided))
    ensures forall j | j in undecided ::
              j < |r.bookedCase.sims.value| && forall e :: SimVerdict(e, j, r.bookedCase) == SimAmbiguous
    ensures forall j | j in rest ::
              j < |r.bookedCase.sims.value| && forall e :: SimVerdict(e, j, r.bookedCase) == SimUnmatched
  {
    hide TrueMatches, TrueCase, Flatten, SimVerdict;
    var c := r.bookedCase;
    forall e, j: nat | j in undecided || j in rest
      ensures SimVerdict(e, j, c) == if j in undecided then SimAmbiguous else SimUnmatched
    {
      WholeVerdict(r, e, j);
    }
    forall j | j in undecided
      ensures j < |c.sims.value|
    {
      WholeVerdict(r, SimEvent(0, 0.0, false, SimOpen, 0.0, 0.0, 0.0), j);
    }
  }

  /** The whole simulated side: pairs, then undecided components, then the rest. */
  method DisposeSimulated(r: Report, early: map<nat, SimDisposition>) returns (disp: map<nat, SimDisposition>)
    requires TrueCase(r.bookedCase) && TrueMatches(r) && r.bookedCase.sims.Some?
    requires SeparateIds(r.bookedCase.sims.value, early)
    ensures AllSimDisposed(disp, early, r.bookedCase)
  {
    hide TrueCase, TrueMatches, SeparateIds, SimVerdict, SimDisposed, Flatten;
    var c := r.bookedCase;
    var taken, undecided := Elems(Seconds(r.pairs)), Flatten(SimulatedLists(r.ambiguous));
    var rest := Remaining(|c.sims.value|, taken + Elems(undecided));
    WholeVerdicts(r, undecided, rest);
    disp := DisposeSimPairs(r, early);
    disp := DisposeSims(undecided, SimAmbiguous, c, early, disp, taken);
    disp := DisposeSims(rest, SimUnmatched, c, early, disp, taken + Elems(undecided));
  }

  ghost predicate AllHandled(handled: set<nat>, c: Case)
    requires c.sims.Some?
  {
    forall j: nat | j < |c.sims.value| :: j in handled
  }

  ghost predicate AllSimDisposed(disp: map<nat, SimDisposition>, early: map<nat, SimDisposition>, c: Case)
    requires c.sims.Some?
  {
    exists handled :: AllHandled(handled, c) && SimDisposed(disp, handled, early, c)
  }

  // ---------------------------------------------------------------- one disposition for every event

  /** The disposition of a row: what its kind says, or the verdict of its position. */
  ghost predicate RightlyDisposed(r: Row, d: SimDisposition, c: Case)
    requires c.sims.Some?
  {
    if r.kind != Trading then d == EarlyOf(r.kind)
    else forall j | 0 <= j < |c.sims.value| && c.sims.value[j].id == r.positionId :: d == SimVerdict(r.event, j, c)
  }

  lemma IdsAreSeparate(rows: seq<Row>, sps: seq<SimPosition>, early: map<nat, SimDisposition>)
    requires DistinctIds(rows) && TruePositions(sps, rows) && TrueEarly(early, rows)
    ensures SeparateIds(sps, early)
  {
    hide EventsOf, FirstSide;
    forall j, k, e, f | 0 <= j < |sps| && 0 <= k < |sps| && e in sps[j].events && f in sps[k].events && e.id == f.id
      ensures j == k && e == f
    {
      var r := ListedIsRow(rows, sps[j].id, e);
      var s := ListedIsRow(rows, sps[k].id, f);
    }
    forall j, e | 0 <= j < |sps| && e in sps[j].events
      ensures e.id !in early
    {
      var r := ListedIsRow(rows, sps[j].id, e);
    }
  }

  /** The disposition dictionary holds exactly the events of the envelope, each with the disposition the rules give. */
  lemma EachEventOnce(rows: seq<Row>, sps: seq<SimPosition>, early: map<nat, SimDisposition>,
                      disp: map<nat, SimDisposition>, c: Case)
    requires DistinctIds(rows) && TruePositions(sps, rows) && TrueEarly(early, rows)
    requires c.sims == Some(sps) && AllSimDisposed(disp, early, c)
    ensures forall id :: id in disp <==> exists r :: r in rows && r.event.id == id
    ensures forall r | r in rows && r.event.id in disp :: RightlyDisposed(r, disp[r.event.id], c)
  {
    hide EventsOf, FirstSide, SimVerdict;
    var handled :| AllHandled(handled, c) && SimDisposed(disp, handled, early, c);
    forall r | r in rows
      ensures r.event.id in disp && RightlyDisposed(r, disp[r.event.id], c)
    {
      RowIsDisposed(rows, sps, early, disp, handled, c, r);
    }
    forall id | id in disp
      ensures exists r :: r in rows && r.event.id == id
    {
      if id !in early {
        assert id in HandledIds(handled, sps);
        var j, e :| j in handled && j < |sps| && e in sps[j].events && e.id == id;
        var r := ListedIsRow(rows, sps[j].id, e);
      }
    }
  }

  lemma RowIsDisposed(rows: seq<Row>, sps: seq<SimPosition>, early: map<nat, SimDisposition>,
                      disp: map<nat, SimDisposition>, handled: set<nat>, c: Case, r: Row)
    requires DistinctIds(rows) && TruePositions(sps, rows) && TrueEarly(early, rows) && r in rows
    requires c.sims == Some(sps) && AllHandled(handled, c)
    requires SimDisposed(disp, handled, early, c)
    ensures r.event.id in disp && RightlyDisposed(r, disp[r.event.id], c)
  {
    hide EventsOf, FirstSide, SimVerdict;
    if r.kind == Trading {
      EventIsListed(rows, r);
      var j :| 0 <= j < |sps| && sps[j].id == r.positionId;
      assert r.event in sps[j].events;
      assert r.event.id in HandledIds(handled, sps);
    } else {
      assert r.event.id in early;
    }
  }

  /** The simulated side of a comparison, from the grouped envelope and the report. */
  method DisposeEnvelope(ghost rows: seq<Row>, sps: seq<SimPosition>, early: map<nat, SimDisposition>, r: Report)
    returns (disp: map<nat, SimDisposition>)
    requires DistinctIds(rows) && TruePositions(sps, rows) && TrueEarly(early, rows)
    requires TrueCase(r.bookedCase) && TrueMatches(r) && r.bookedCase.sims == Some(sps)
    ensures forall id :: id in disp <==> exists row :: row in rows && row.event.id == id
    ensures forall row | row in rows && row.event.id in disp :: RightlyDisposed(row, disp[row.event.id], r.bookedCase)
  {
    hide TrueCase, TrueMatches, SeparateIds, TruePositions, TrueEarly, AllSimDisposed, RightlyDisposed;
    IdsAreSeparate(rows, sps, early);
    disp := DisposeSimulated(r, early);
    EachEventOnce(rows, sps, early, disp, r.bookedCase);
  }
}
