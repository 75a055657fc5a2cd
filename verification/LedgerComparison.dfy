/**
  The comparison report: candidate edges, pair reconciliation, the disposition of every booked row
  and the report sections that the conservation checks read back.
 */
module LedgerComparison {
  import opened Common
  import opened Sequences
  import opened LedgerBooking
  import M = Matching

  // ---------------------------------------------------------------- simulated side

  datatype SimKind = SimOpen | SimScaleIn | SimClose

  datatype SimEvent = SimEvent(id: nat, bar: real, intrabar: bool, kind: SimKind,
                               price: real, quantity: real, fee: real)

  datatype SimPosition = SimPosition(id: nat, side: Side, events: seq<SimEvent>)

  datatype Tolerances = Tolerances(time: real, priceRelative: real, quantity: real, money: real)

  predicate IsSimOpening(s: SimEvent) { s.kind != SimClose }

  /** The recorder starts every position with an opening event. */
  predicate HasOpening(sp: SimPosition) {
    Filter(sp.events, IsSimOpening) != []
  }

  // ---------------------------------------------------------------- component comparison

  datatype Component = Component(booked: Event, simulated: SimEvent,
                                 timeOk: bool, priceOk: bool, quantityOk: bool, feeOk: bool)

  function Compat(b: Event, s: SimEvent, step: real, tol: Tolerances): Component
    requires b.price.Some? && b.quantity.Some?
  {
    var width := if s.intrabar then step else 0.0;
    var dt := b.ts - s.bar;
    Component(
      b, s,
      -tol.time <= dt <= width + tol.time,
      s.price != 0.0 && Abs(b.price.value - s.price) / s.price <= tol.priceRelative,
      Abs(b.quantity.value - s.quantity) <= tol.quantity,
      Abs(b.fee - s.fee) <= tol.money)
  }

  predicate IsOpening(e: Event) { e.kind != Close }

  predicate IsClosing(e: Event) { e.kind == Close }

  function Opens(evs: seq<Event>): seq<Event> { Filter(evs, IsOpening) }

  function Closes(evs: seq<Event>): seq<Event> { Filter(evs, IsClosing) }

  /** Every row of the position carries a price and a quantity. */
  predicate Priced(evs: seq<Event>) {
    forall e | e in evs :: e.price.Some? && e.quantity.Some?
  }

  /** The first opening row of the position inside the interval against the first simulated opening. */
  predicate Strong(bp: Position, sp: SimPosition, step: real, tol: Tolerances)
    requires Priced(bp.inside) && HasOpening(sp)
  {
    && bp.side == Some(sp.side)
    && Opens(bp.inside) != []
    && var c := Compat(Opens(bp.inside)[0], Filter(sp.events, IsSimOpening)[0], step, tol);
    c.timeOk && c.priceOk && c.quantityOk
  }

  predicate LexBefore(e: M.Edge, f: M.Edge) { e.0 < f.0 || (e.0 == f.0 && e.1 < f.1) }

  ghost predicate StrongEdges(edges: seq<M.Edge>, bps: seq<Position>, sps: seq<SimPosition>, step: real, tol: Tolerances)
    requires forall bp | bp in bps :: Priced(bp.inside)
    requires forall sp | sp in sps :: HasOpening(sp)
  {
    && (forall i, j | 0 <= i < j < |edges| :: LexBefore(edges[i], edges[j]))
    && forall e :: e in edges <==> e.0 < |bps| && e.1 < |sps| && Strong(bps[e.0], sps[e.1], step, tol)
  }

  method CandidateEdges(bps: seq<Position>, sps: seq<SimPosition>, step: real, tol: Tolerances)
    returns (edges: seq<M.Edge>)
    requires forall bp | bp in bps :: Priced(bp.inside)
    requires forall sp | sp in sps :: HasOpening(sp)
    ensures StrongEdges(edges, bps, sps, step, tol)
    ensures Distinct(edges) && forall e | e in edges :: e.0 < |bps| && e.1 < |sps|
  {
    hide Strong;
    edges := [];
    for bi := 0 to |bps|
      invariant forall i, j | 0 <= i < j < |edges| :: LexBefore(edges[i], edges[j])
      invariant forall e :: e in edges <==> e.0 < bi && e.1 < |sps| && Strong(bps[e.0], sps[e.1], step, tol)
    {
      for si := 0 to |sps|
        invariant forall i, j | 0 <= i < j < |edges| :: LexBefore(edges[i], edges[j])
        invariant forall e :: e in edges <==>
                    e.1 < |sps| && (e.0 < bi || (e.0 == bi && e.1 < si)) && Strong(bps[e.0], sps[e.1], step, tol)
      {
        if Strong(bps[bi], sps[si], step, tol) {
          edges := edges + [(bi, si)];
        }
      }
    }
  }

  // ---------------------------------------------------------------- pair reconciliation

  datatype PairReport = PairReport(components: seq<Component>, leftoverBooked: seq<Event>,
                                   leftoverSimulated: seq<SimEvent>)

  function Shorter(a: nat, b: nat): nat { if a <= b then a else b }

  function SimOpens(sp: SimPosition): seq<SimEvent> { Filter(sp.events, IsSimOpening) }

  function SimCloses(sp: SimPosition): seq<SimEvent> { Filter(sp.events, (s: SimEvent) => s.kind == SimClose) }

  /** The booked rows that get a simulated partner: the k-th opening with the k-th opening, the k-th
      close with the k-th close. */
  function Compared(bp: Position, sp: SimPosition): seq<Event> {
    var o, c := Opens(bp.inside), Closes(bp.inside);
    o[..Shorter(|o|, |SimOpens(sp)|)] + c[..Shorter(|c|, |SimCloses(sp)|)]
  }

  function Leftover(bp: Position, sp: SimPosition): seq<Event> {
    var o, c := Opens(bp.inside), Closes(bp.inside);
    o[Shorter(|o|, |SimOpens(sp)|)..] + c[Shorter(|c|, |SimCloses(sp)|)..]
  }

  /** The simulated rows that get a booked partner, in the same order as their partners. */
  function ComparedSims(bp: Position, sp: SimPosition): seq<SimEvent> {
    var o, c := SimOpens(sp), SimCloses(sp);
    o[..Shorter(|Opens(bp.inside)|, |o|)] + c[..Shorter(|Closes(bp.inside)|, |c|)]
  }

  function LeftoverSims(bp: Position, sp: SimPosition): seq<SimEvent> {
    var o, c := SimOpens(sp), SimCloses(sp);
    o[Shorter(|Opens(bp.inside)|, |o|)..] + c[Shorter(|Closes(bp.inside)|, |c|)..]
  }

  function BookedOf(cs: seq<Component>): seq<Event> {
    seq(|cs|, i requires 0 <= i < |cs| => cs[i].booked)
  }

  function SimulatedOf(cs: seq<Component>): seq<SimEvent> {
    seq(|cs|, i requires 0 <= i < |cs| => cs[i].simulated)
  }

  method ZipComponents(bs: seq<Event>, ss: seq<SimEvent>, step: real, tol: Tolerances) returns (cs: seq<Component>)
    requires Priced(bs)
    ensures |cs| == Shorter(|bs|, |ss|)
    ensures forall k | 0 <= k < |cs| :: cs[k] == Compat(bs[k], ss[k], step, tol)
    ensures BookedOf(cs) == bs[..|cs|] && SimulatedOf(cs) == ss[..|cs|]
    ensures forall c | c in cs :: c.booked in bs && c == Compat(c.booked, c.simulated, step, tol)
  {
    hide Compat;
    cs := [];
    for k := 0 to Shorter(|bs|, |ss|)
      invariant |cs| == k
      invariant forall i | 0 <= i < k :: cs[i] == Compat(bs[i], ss[i], step, tol)
    {
      cs := cs + [Compat(bs[k], ss[k], step, tol)];
    }
    ComponentsOf(cs, bs, ss, step, tol);
  }

  /** The report pairs openings with openings and closes with closes in order; both sides' surplus is left over. */
  ghost predicate PairsInOrder(r: PairReport, bp: Position, sp: SimPosition) {
    && BookedOf(r.components) == Compared(bp, sp) && SimulatedOf(r.components) == ComparedSims(bp, sp)
    && r.leftoverBooked == Leftover(bp, sp) && r.leftoverSimulated == LeftoverSims(bp, sp)
  }

  lemma PairRows(r: PairReport, bp: Position, sp: SimPosition)
    requires PairsInOrder(r, bp, sp)
    ensures BookedOf(r.components) == Compared(bp, sp) && r.leftoverBooked == Leftover(bp, sp)
  {
  }

  lemma JoinComponents(entries: seq<Component>, exits: seq<Component>)
    ensures BookedOf(entries + exits) == BookedOf(entries) + BookedOf(exits)
    ensures SimulatedOf(entries + exits) == SimulatedOf(entries) + SimulatedOf(exits)
  {
  }

  lemma ComponentsOf(cs: seq<Component>, bs: seq<Event>, ss: seq<SimEvent>, step: real, tol: Tolerances)
    requires Priced(bs) && |cs| <= |bs| && |cs| <= |ss|
    requires forall k | 0 <= k < |cs| :: cs[k] == Compat(bs[k], ss[k], step, tol)
    ensures BookedOf(cs) == bs[..|cs|] && SimulatedOf(cs) == ss[..|cs|]
    ensures forall c | c in cs :: c.booked in bs && c == Compat(c.booked, c.simulated, step, tol)
  {
  }

  method ReconcilePair(bp: Position, sp: SimPosition, step: real, tol: Tolerances) returns (r: PairReport)
    requires Priced(bp.inside)
    ensures PairsInOrder(r, bp, sp)
    ensures forall c | c in r.components :: c.booked in bp.inside && c == Compat(c.booked, c.simulated, step, tol)
  {
    hide Compat, BookedOf, SimulatedOf, Filter;
    var bo, so := Opens(bp.inside), SimOpens(sp);
    var entries := ZipComponents(bo, so, step, tol);
    var bc, sc := Closes(bp.inside), SimCloses(sp);
    var exits := ZipComponents(bc, sc, step, tol);
    r := PairReport(entries + exits, bo[|entries|..] + bc[|exits|..], so[|entries|..] + sc[|exits|..]);
    JoinComponents(entries, exits);
  }

  /** Compared and left-over rows together are exactly the rows of the position in the interval, each once. */
  lemma PairIsWhole(bp: Position, sp: SimPosition)
    requires Distinct(bp.inside)
    ensures Distinct(Compared(bp, sp)) && Distinct(Leftover(bp, sp))
    ensures forall e | e in Compared(bp, sp) :: e !in Leftover(bp, sp)
    ensures forall e :: e in Compared(bp, sp) || e in Leftover(bp, sp) <==> e in bp.inside
  {
    hide Filter, Distinct;
    var o, c := Opens(bp.inside), Closes(bp.inside);
    CutDistinct(o, Shorter(|o|, |SimOpens(sp)|));
    CutDistinct(c, Shorter(|c|, |SimCloses(sp)|));
    DistinctConcat(o[..Shorter(|o|, |SimOpens(sp)|)], c[..Shorter(|c|, |SimCloses(sp)|)]);
    DistinctConcat(o[Shorter(|o|, |SimOpens(sp)|)..], c[Shorter(|c|, |SimCloses(sp)|)..]);
  }

  lemma CutDistinct<T>(xs: seq<T>, m: nat)
    requires Distinct(xs) && m <= |xs|
    ensures Distinct(xs[..m]) && Distinct(xs[m..])
    ensures forall x | x in xs[..m] :: x !in xs[m..]
    ensures forall x :: x in xs[..m] || x in xs[m..] <==> x in xs
  {
  }

  /** The pair's components and leftovers add up to the position's in-interval totals, for any per-row amount. */
  lemma PairConserves(bp: Position, sp: SimPosition, amount: Event -> real)
    ensures Sum(amount, Compared(bp, sp) + Leftover(bp, sp)) ==
            Sum(amount, Opens(bp.inside)) + Sum(amount, Closes(bp.inside))
  {
    hide Sum, Filter;
    var o, c := Opens(bp.inside), Closes(bp.inside);
    var m, n := Shorter(|o|, |SimOpens(sp)|), Shorter(|c|, |SimCloses(sp)|);
    SumAppend(amount, Compared(bp, sp), Leftover(bp, sp));
    SumAppend(amount, o[..m], c[..n]);
    SumAppend(amount, o[m..], c[n..]);
    SumCut(amount, o, m);
    SumCut(amount, c, n);
  }

  lemma SumCut<T>(f: T -> real, xs: seq<T>, m: nat)
    requires m <= |xs|
    ensures Sum(f, xs) == Sum(f, xs[..m]) + Sum(f, xs[m..])
  {
    assert xs == xs[..m] + xs[m..];
    SumAppend(f, xs[..m], xs[m..]);
  }

  // ---------------------------------------------------------------- the verdict on one row

  datatype Section =
    | MatchedComponents | PairLeftovers | AmbiguousRows | UnmatchedBooked
    | FundingRows | UnresolvedRows | OutsideRows | NotComparableRows

  /** The table of dispositions each report section may hold. */
  predicate Agrees(s: Section, d: Disposition) {
    match s
    case MatchedComponents => d == Matched
    case PairLeftovers => d == Unmatched
    case AmbiguousRows => d == Ambiguous
    case UnmatchedBooked => d in {Unmatched, NotSimulated}
    case FundingRows => d == StrategyFunding
    case UnresolvedRows => d == UnresolvedIdentity
    case OutsideRows => d == OutsideInterval
    case NotComparableRows => d == NotComparable
  }

  /** One comparison: the ledger, its comparable positions, and the simulated positions if a simulation ran. */
  datatype Case = Case(records: seq<Event>, scope: Scope, bps: seq<Position>, sims: Option<seq<SimPosition>>,
                       edges: set<M.Edge>)

  ghost predicate Waits(e: Event, i: nat, c: Case) {
    i < |c.bps| && e in c.bps[i].inside
  }

  ghost predicate TrueCase(c: Case) {
    && DistinctKeys(c.records)
    && (forall i | 0 <= i < |c.bps| :: TruePosition(c.bps[i], c.records, c.scope) && c.bps[i].status == Comparable)
    && (forall i, j | 0 <= i < j < |c.bps| :: c.bps[i].id != c.bps[j].id)
    && (forall e :: Pending(e, c.records, c.scope) <==> exists i: nat :: Waits(e, i, c))
    && (c.sims.Some? ==> forall e | e in c.edges :: e.0 < |c.bps| && e.1 < |c.sims.value|)
  }

  ghost predicate PairedWith(i: nat, j: nat, c: Case) {
    c.sims.Some? && i < |c.bps| && j < |c.sims.value| && M.Assigned((i, j), c.edges)
  }

  datatype Verdict = Verdict(section: Section, disposition: Disposition)

  /** Where a row of comparable position i belongs; stated from the candidate graph, without the run. */
  ghost function PendingVerdict(e: Event, i: nat, c: Case): Verdict {
    if c.sims.None? then Verdict(UnmatchedBooked, NotSimulated)
    else if M.AmbiguousVertex(i, c.edges) then Verdict(AmbiguousRows, Ambiguous)
    else if exists j: nat :: PairedWith(i, j, c) && e in Compared(c.bps[i], c.sims.value[j]) then
      Verdict(MatchedComponents, Matched)
    else if exists j: nat :: PairedWith(i, j, c) then Verdict(PairLeftovers, Unmatched)
    else Verdict(UnmatchedBooked, Unmatched)
  }

  lemma VerdictAgrees(e: Event, i: nat, c: Case)
    ensures Agrees(PendingVerdict(e, i, c).section, PendingVerdict(e, i, c).disposition)
  {
  }

  lemma WaitsFacts(e: Event, i: nat, c: Case)
    requires TrueCase(c) && Waits(e, i, c)
    ensures e in c.records && IsFill(e, c.scope) && e.positionId == Some(c.bps[i].id)
    ensures Pending(e, c.records, c.scope)
    ensures Distinct(c.bps[i].inside) && Priced(c.bps[i].inside)
    ensures forall j: nat | Waits(e, j, c) :: j == i
  {
  }

  lemma PositionPriced(i: nat, c: Case)
    requires TrueCase(c) && i < |c.bps|
    ensures Distinct(c.bps[i].inside) && Priced(c.bps[i].inside)
  {
  }

  /** A booked position is paired with at most one simulated position, and then it is not ambiguous. */
  lemma PairedOnce(i: nat, j: nat, c: Case)
    requires PairedWith(i, j, c)
    ensures !M.AmbiguousVertex(i, c.edges)
    ensures forall j': nat | PairedWith(i, j', c) :: j' == j
  {
    PairedEdge((i, j), c.edges);
    M.BookedTrichotomy(i, c.edges);
    forall j': nat | PairedWith(i, j', c)
      ensures j' == j
    {
      var both := {(i, j), (i, j')};
      M.AssignedIsMatching(both, c.edges);
      assert (i, j) in both && (i, j') in both;
    }
  }

  /** What a pair decides for the rows of its booked position. */
  lemma PairVerdict(e: Event, i: nat, j: nat, c: Case)
    requires PairedWith(i, j, c)
    ensures PendingVerdict(e, i, c) ==
            if e in Compared(c.bps[i], c.sims.value[j]) then Verdict(MatchedComponents, Matched)
            else Verdict(PairLeftovers, Unmatched)
  {
    hide M.Assigned, M.AmbiguousVertex, Compared;
    PairedOnce(i, j, c);
  }

  lemma PairedEdge(e: M.Edge, E: set<M.Edge>)
    requires M.Assigned(e, E)
    ensures e in E
  {
  }

  // ---------------------------------------------------------------- the disposition dictionary

  ghost function Keys(es: set<Event>): set<nat> {
    set e | e in es :: e.key
  }

  /** The rows whose disposition is known: those settled by normalisation and those of handled positions. */
  ghost function Ready(handled: set<nat>, c: Case): set<Event> {
    Settled(c.records, c.scope) + set e, i | i in handled && i < |c.bps| && e in c.bps[i].inside :: e
  }

  /** The disposition the rules give to a row that is ready. */
  ghost predicate Right(e: Event, d: Disposition, c: Case) {
    && (e in Settled(c.records, c.scope) ==> Provisional(e, c.records, c.scope) == Some(d))
    && (forall i: nat | Waits(e, i, c) :: PendingVerdict(e, i, c).disposition == d)
  }

  /** The dictionary holds exactly the rows that are ready, each with its right disposition. */
  ghost predicate Disposed(disp: map<nat, Disposition>, handled: set<nat>, c: Case) {
    && disp.Keys == Keys(Ready(handled, c))
    && forall e | e in Ready(handled, c) && e.key in disp :: Right(e, disp[e.key], c)
  }

  /** `out` is `disp` with every row of evs marked: Matched when compared, `otherwise` when not. */
  ghost predicate Marked(disp: map<nat, Disposition>, evs: seq<Event>, compared: seq<Event>, otherwise: Disposition,
                         out: map<nat, Disposition>) {
    && out.Keys == disp.Keys + Keys(Elems(evs))
    && (forall e | e in evs && e.key in out :: out[e.key] == if e in compared then Matched else otherwise)
    && (forall k | k in disp.Keys - Keys(Elems(evs)) && k in out :: out[k] == disp[k])
  }

  method MarkAll(disp: map<nat, Disposition>, evs: seq<Event>, compared: seq<Event>, otherwise: Disposition)
    returns (out: map<nat, Disposition>)
    requires DistinctKeys(evs)
    ensures Marked(disp, evs, compared, otherwise, out)
  {
    hide Marked;
    out := disp;
    NothingMarked(disp, evs, compared, otherwise);
    for n := 0 to |evs|
      invariant Marked(disp, evs[..n], compared, otherwise, out)
    {
      MarkStep(disp, evs, n, compared, otherwise, out);
      out := out[evs[n].key := if evs[n] in compared then Matched else otherwise];
    }
    TakeAll(evs);
  }

  lemma NothingMarked(disp: map<nat, Disposition>, evs: seq<Event>, compared: seq<Event>, otherwise: Disposition)
    ensures Marked(disp, evs[..0], compared, otherwise, disp)
  {
  }

  lemma MarkStep(disp: map<nat, Disposition>, evs: seq<Event>, n: nat, compared: seq<Event>, otherwise: Disposition,
                 out: map<nat, Disposition>)
    requires DistinctKeys(evs) && n < |evs| && Marked(disp, evs[..n], compared, otherwise, out)
    ensures Marked(disp, evs[..n + 1], compared, otherwise,
                   out[evs[n].key := if evs[n] in compared then Matched else otherwise])
  {
    NextKey(evs, n);
    hide Keys, DistinctKeys;
    assert evs[..n + 1] == evs[..n] + [evs[n]];
  }

  lemma NextKey(evs: seq<Event>, n: nat)
    requires DistinctKeys(evs) && n < |evs|
    ensures Keys(Elems(evs[..n + 1])) == Keys(Elems(evs[..n])) + {evs[n].key}
    ensures forall e | e in evs[..n] :: e.key != evs[n].key
  {
    assert Elems(evs[..n + 1]) == Elems(evs[..n]) + {evs[n]};
    forall e | e in evs[..n]
      ensures e.key != evs[n].key
    {
      assert e in evs && e != evs[n];
    }
  }

  /** Marking the rows of an unhandled position with their verdicts extends the dictionary. */
  lemma MarkedIsDisposed(disp: map<nat, Disposition>, handled: set<nat>, i: nat, compared: seq<Event>,
                         otherwise: Disposition, out: map<nat, Disposition>, c: Case)
    requires TrueCase(c) && Disposed(disp, handled, c) && i < |c.bps|
    requires Marked(disp, c.bps[i].inside, compared, otherwise, out)
    requires forall e | Waits(e, i, c) ::
               PendingVerdict(e, i, c).disposition == if e in compared then Matched else otherwise
    ensures Disposed(out, handled + {i}, c)
  {
    hide PendingVerdict, TrueCase, Provisional, Settled;
    ReadyGrows(handled, i, c);
    hide Ready;
    assert Keys(Ready(handled + {i}, c)) == Keys(Ready(handled, c)) + Keys(Elems(c.bps[i].inside));
    forall e | e in Ready(handled + {i}, c) && e.key in out
      ensures Right(e, out[e.key], c)
    {
      if e in c.bps[i].inside {
        MarkedRow(e, i, out[e.key], c);
      } else {
        KeyApart(e, handled, i, c);
      }
    }
  }

  lemma MarkedRow(e: Event, i: nat, d: Disposition, c: Case)
    requires TrueCase(c) && Waits(e, i, c) && d == PendingVerdict(e, i, c).disposition
    ensures Right(e, d, c)
  {
    hide PendingVerdict;
    WaitsFacts(e, i, c);
  }

  /** A ready row that is not one of a position's shares no key with it. */
  lemma KeyApart(e: Event, handled: set<nat>, i: nat, c: Case)
    requires TrueCase(c) && e in Ready(handled, c) && i < |c.bps| && e !in c.bps[i].inside
    ensures e.key !in Keys(Elems(c.bps[i].inside))
  {
    ReadyKnown(e, handled, c);
    forall f | f in c.bps[i].inside
      ensures f.key != e.key
    {
      assert Waits(f, i, c);
      WaitsFacts(f, i, c);
    }
  }

  lemma ReadyGrows(handled: set<nat>, i: nat, c: Case)
    requires i < |c.bps|
    ensures Ready(handled + {i}, c) == Ready(handled, c) + Elems(c.bps[i].inside)
  {
  }

  lemma ReadyKnown(e: Event, handled: set<nat>, c: Case)
    requires TrueCase(c) && e in Ready(handled, c)
    ensures e in c.records
  {
    if e !in Settled(c.records, c.scope) {
      var i :| i in handled && i < |c.bps| && e in c.bps[i].inside;
      assert Waits(e, i, c);
      WaitsFacts(e, i, c);
    }
  }

  // ---------------------------------------------------------------- the report sections

  /** `list` holds exactly the rows whose verdict is this section, each once. */
  ghost predicate ListsVerdict(list: seq<Event>, s: Section, c: Case) {
    && Distinct(list)
    && forall e :: e in list <==> exists i: nat :: Waits(e, i, c) && PendingVerdict(e, i, c).section == s
  }

  /** Concatenating the per-position parts of a section lists it. */
  lemma PartsList(parts: seq<seq<Event>>, idx: seq<nat>, s: Section, c: Case)
    requires TrueCase(c) && |parts| == |idx| && Distinct(idx)
    requires forall k | 0 <= k < |idx| :: Distinct(parts[k])
    requires forall k, e | 0 <= k < |idx| ::
               e in parts[k] <==> Waits(e, idx[k], c) && PendingVerdict(e, idx[k], c).section == s
    requires forall e, i: nat | Waits(e, i, c) && PendingVerdict(e, i, c).section == s :: i in idx
    ensures ListsVerdict(Flatten(parts), s, c)
  {
    hide PendingVerdict, TrueCase;
    forall j, k | 0 <= j < k < |parts|
      ensures Elems(parts[j]) !! Elems(parts[k])
    {
      forall e | e in parts[j] && e in parts[k]
        ensures false
      {
        WaitsFacts(e, idx[j], c);
      }
    }
    FlattenDistinct(parts);
    forall e
      ensures e in Flatten(parts) <==> exists i: nat :: Waits(e, i, c) && PendingVerdict(e, i, c).section == s
    {
      FlattenMember(parts, e);
      if k :| 0 <= k < |parts| && e in parts[k] {
        assert Waits(e, idx[k], c);
      }
      if i: nat :| Waits(e, i, c) && PendingVerdict(e, i, c).section == s {
        var k :| 0 <= k < |idx| && idx[k] == i;
        assert e in parts[k];
      }
    }
  }

  datatype Sections = Sections(matched: seq<Event>, leftovers: seq<Event>, ambiguous: seq<Event>, unmatched: seq<Event>,
                               funding: seq<Event>, unresolved: seq<Event>, outside: seq<Event>,
                               notComparable: seq<Event>) {
    function Get(s: Section): seq<Event> {
      match s
      case MatchedComponents => matched
      case PairLeftovers => leftovers
      case AmbiguousRows => ambiguous
      case UnmatchedBooked => unmatched
      case FundingRows => funding
      case UnresolvedRows => unresolved
      case OutsideRows => outside
      case NotComparableRows => notComparable
    }

    function All(): seq<seq<Event>> {
      [matched, leftovers, ambiguous, unmatched, funding, unresolved, outside, notComparable]
    }
  }

  function Home(d: Disposition): Section
    requires Early(d)
  {
    match d
    case StrategyFunding => FundingRows
    case UnresolvedIdentity => UnresolvedRows
    case OutsideInterval => OutsideRows
    case NotComparable => NotComparableRows
  }

  /** Row e belongs to section s. */
  ghost predicate Belongs(e: Event, s: Section, c: Case) {
    || (exists i: nat :: Waits(e, i, c) && PendingVerdict(e, i, c).section == s)
    || (e in Settled(c.records, c.scope) && Home(Provisional(e, c.records, c.scope).value) == s)
  }

  /** Every section lists exactly its rows, each once. */
  ghost predicate TrueSections(r: Sections, c: Case) {
    && ListsVerdict(r.matched, MatchedComponents, c)
    && ListsVerdict(r.leftovers, PairLeftovers, c)
    && ListsVerdict(r.ambiguous, AmbiguousRows, c)
    && ListsVerdict(r.unmatched, UnmatchedBooked, c)
    && ListsExactly(r.funding, Settled(c.records, c.scope), StrategyFunding, c.records, c.scope)
    && ListsExactly(r.unresolved, Settled(c.records, c.scope), UnresolvedIdentity, c.records, c.scope)
    && ListsExactly(r.outside, Settled(c.records, c.scope), OutsideInterval, c.records, c.scope)
    && ListsExactly(r.notComparable, Settled(c.records, c.scope), NotComparable, c.records, c.scope)
  }

  /** The sections of rows that wait for the matching, and those of settled rows, do not mix. */
  lemma BelongsByKind(e: Event, s: Section, c: Case)
    requires TrueCase(c)
    ensures s in {MatchedComponents, PairLeftovers, AmbiguousRows, UnmatchedBooked} ==>
              (Belongs(e, s, c) <==> exists i: nat :: Waits(e, i, c) && PendingVerdict(e, i, c).section == s)
    ensures forall d | Early(d) && Home(d) == s ::
              Belongs(e, s, c) <==> e in Settled(c.records, c.scope) && Provisional(e, c.records, c.scope) == Some(d)
  {
    hide Provisional, TrueCase;
    forall i: nat
      ensures PendingVerdict(e, i, c).section in {MatchedComponents, PairLeftovers, AmbiguousRows, UnmatchedBooked}
    {
    }
  }

  lemma SectionHolds(r: Sections, c: Case, s: Section)
    requires TrueCase(c) && TrueSections(r, c)
    ensures Distinct(r.Get(s))
    ensures forall e :: e in r.Get(s) <==> Belongs(e, s, c)
  {
    hide Provisional, PendingVerdict, TrueCase, Settled, Belongs;
    forall e
      ensures e in r.Get(s) <==> Belongs(e, s, c)
    {
      BelongsByKind(e, s, c);
      assert Home(StrategyFunding) == FundingRows && Home(UnresolvedIdentity) == UnresolvedRows;
      assert Home(OutsideInterval) == OutsideRows && Home(NotComparable) == NotComparableRows;
    }
  }

  lemma BelongsOnce(e: Event, c: Case, s: Section, t: Section)
    requires TrueCase(c) && Belongs(e, s, c) && Belongs(e, t, c)
    ensures s == t
  {
    hide PendingVerdict, Provisional;
    if i: nat :| Waits(e, i, c) {
      WaitsFacts(e, i, c);
    }
  }

  lemma BelongsSomewhere(e: Event, c: Case)
    requires TrueCase(c)
    ensures e in c.records <==> exists s :: Belongs(e, s, c)
  {
    hide PendingVerdict;
    if e in c.records {
      if Provisional(e, c.records, c.scope).Some? {
        assert Belongs(e, Home(Provisional(e, c.records, c.scope).value), c);
      } else {
        assert Pending(e, c.records, c.scope);
        var i: nat :| Waits(e, i, c);
        assert Belongs(e, PendingVerdict(e, i, c).section, c);
      }
    }
    if s :| Belongs(e, s, c) {
      if i: nat :| Waits(e, i, c) {
        WaitsFacts(e, i, c);
      }
    }
  }

  const SECTION_ORDER: seq<Section> := [MatchedComponents, PairLeftovers, AmbiguousRows, UnmatchedBooked,
                                        FundingRows, UnresolvedRows, OutsideRows, NotComparableRows]

  lemma AllInOrder(r: Sections)
    ensures |r.All()| == |SECTION_ORDER|
    ensures forall k | 0 <= k < |SECTION_ORDER| :: r.All()[k] == r.Get(SECTION_ORDER[k])
    ensures forall s :: s in SECTION_ORDER
    ensures Distinct(SECTION_ORDER)
  {
    forall s
      ensures s in SECTION_ORDER
    {
      match s
      case MatchedComponents => assert SECTION_ORDER[0] == s;
      case PairLeftovers => assert SECTION_ORDER[1] == s;
      case AmbiguousRows => assert SECTION_ORDER[2] == s;
      case UnmatchedBooked => assert SECTION_ORDER[3] == s;
      case FundingRows => assert SECTION_ORDER[4] == s;
      case UnresolvedRows => assert SECTION_ORDER[5] == s;
      case OutsideRows => assert SECTION_ORDER[6] == s;
      case NotComparableRows => assert SECTION_ORDER[7] == s;
    }
  }

  /** The sections together list every booked row exactly once: they are a permutation of the ledger. */
  lemma SectionsPartition(r: Sections, c: Case)
    requires TrueCase(c) && TrueSections(r, c)
    ensures multiset(Flatten(r.All())) == multiset(c.records)
  {
    hide TrueSections, Belongs, SECTION_ORDER, Flatten;
    var parts := r.All();
    AllInOrder(r);
    forall s
      ensures Distinct(r.Get(s)) && forall e :: e in r.Get(s) <==> Belongs(e, s, c)
    {
      SectionHolds(r, c, s);
    }
    forall j, k | 0 <= j < k < |parts|
      ensures Elems(parts[j]) !! Elems(parts[k])
    {
      assert SECTION_ORDER[j] != SECTION_ORDER[k];
      SectionsDisjoint(r, c, SECTION_ORDER[j], SECTION_ORDER[k]);
    }
    FlattenDistinct(parts);
    forall e
      ensures e in Flatten(parts) <==> e in c.records
    {
      FlattenMember(parts, e);
      BelongsSomewhere(e, c);
      if s :| Belongs(e, s, c) {
        assert s in SECTION_ORDER;
        var k :| 0 <= k < |SECTION_ORDER| && SECTION_ORDER[k] == s;
        assert e in parts[k];
      }
    }
    SameListing(Flatten(parts), c.records);
  }

  lemma SectionsDisjoint(r: Sections, c: Case, s: Section, t: Section)
    requires TrueCase(c) && TrueSections(r, c) && s != t
    ensures Elems(r.Get(s)) !! Elems(r.Get(t))
  {
    hide Belongs, TrueSections;
    SectionHolds(r, c, s);
    SectionHolds(r, c, t);
    forall e | e in r.Get(s) && e in r.Get(t)
      ensures false
    {
      BelongsOnce(e, c, s, t);
    }
  }

  /** Hence any per-row amount (fees, ledger deltas) summed over the sections equals its ledger total. */
  lemma SectionsConserve(r: Sections, c: Case, amount: Event -> real)
    requires TrueCase(c) && TrueSections(r, c)
    ensures Sum(amount, Flatten(r.All())) == Sum(amount, c.records)
  {
    SectionsPartition(r, c);
    SumPermutation(amount, Flatten(r.All()), c.records);
  }

  // ---------------------------------------------------------------- the run-time partition check

  function KeysOf(evs: seq<Event>): (ks: seq<nat>)
    ensures |ks| == |evs| && forall i | 0 <= i < |evs| :: ks[i] == evs[i].key
  {
    seq(|evs|, i requires 0 <= i < |evs| => evs[i].key)
  }

  lemma {:induction false} KeysPermutation(xs: seq<Event>, ys: seq<Event>)
    requires multiset(xs) == multiset(ys)
    ensures multiset(KeysOf(xs)) == multiset(KeysOf(ys))
    decreases |xs|
  {
    if xs == [] {
      assert |multiset(ys)| == 0;
    } else {
      var x := xs[|xs| - 1];
      assert x in multiset(ys);
      var front, back := Extract(ys, x);
      LastSplit(xs);
      assert multiset(xs[..|xs| - 1]) == multiset(xs) - multiset{x};
      KeysPermutation(xs[..|xs| - 1], front + back);
      hide KeysOf;
      KeysAppend(xs[..|xs| - 1], [x]);
      KeysAppend(front, [x]);
      KeysAppend(front + [x], back);
      KeysAppend(front, back);
    }
  }

  lemma KeysAppend(xs: seq<Event>, ys: seq<Event>)
    ensures KeysOf(xs + ys) == KeysOf(xs) + KeysOf(ys)
  {
  }

  lemma NoKeys()
    ensures KeysOf([]) == []
  {
  }

  lemma KeysSnoc(xs: seq<Event>, x: Event)
    ensures multiset(KeysOf(xs + [x])) == multiset(KeysOf(xs)) + multiset{x.key}
  {
    KeysAppend(xs, [x]);
    assert KeysOf([x]) == [x.key];
  }

  lemma RecordKeysOnce(records: seq<Event>)
    requires DistinctKeys(records)
    ensures Distinct(KeysOf(records))
  {
  }

  /** Every listed row agrees with its disposition. */
  ghost predicate AllAgree(r: Sections, disp: map<nat, Disposition>) {
    forall s, e | e in r.Get(s) :: e.key in disp && Agrees(s, disp[e.key])
  }

  /** Counts the rows of one section and looks for a disposition the section may not hold. */
  method CountSection(rows: seq<Event>, s: Section, disp: map<nat, Disposition>, before: multiset<nat>)
    returns (listed: multiset<nat>, agree: bool)
    ensures listed == before + multiset(KeysOf(rows))
    ensures agree <==> forall e | e in rows :: e.key in disp && Agrees(s, disp[e.key])
  {
    NoKeys();
    hide Agrees, KeysOf;
    listed, agree := before, true;
    for i := 0 to |rows|
      invariant listed == before + multiset(KeysOf(rows[..i]))
      invariant agree <==> forall e | e in rows[..i] :: e.key in disp && Agrees(s, disp[e.key])
    {
      assert rows[..i + 1] == rows[..i] + [rows[i]];
      KeysSnoc(rows[..i], rows[i]);
      listed := listed + multiset{rows[i].key};
      if !(rows[i].key in disp && Agrees(s, disp[rows[i].key])) {
        agree := false;
      }
    }
    TakeAll(rows);
  }

  /** The check that every booked event is listed in exactly one section that agrees with its
      disposition; `listed` is the counting dictionary. It passes exactly on true partitions. */
  method CheckSections(r: Sections, disp: map<nat, Disposition>, records: seq<Event>) returns (ok: bool)
    requires DistinctKeys(records)
    ensures ok <==> multiset(KeysOf(Flatten(r.All()))) == multiset(KeysOf(records)) && AllAgree(r, disp)
  {
    hide Agrees, Flatten, DistinctKeys, KeysOf;
    AllInOrder(r);
    var keys := KeysOf(records);
    var listed: multiset<nat> := multiset{};
    var agree := true;
    FlattenNone(r.All());
    for n := 0 to |SECTION_ORDER|
      invariant listed == multiset(KeysOf(Flatten(r.All()[..n])))
      invariant agree <==> forall k | 0 <= k < n :: SectionAgrees(r.All()[k], SECTION_ORDER[k], disp)
    {
      var sectionAgrees;
      listed, sectionAgrees := CountSection(r.Get(SECTION_ORDER[n]), SECTION_ORDER[n], disp, listed);
      FlattenTake(r.All(), n);
      KeysAppend(Flatten(r.All()[..n]), r.All()[n]);
      agree := agree && sectionAgrees;
    }
    TakeAll(r.All());
    AgreeInOrder(r, disp);
    RecordKeysOnce(records);
    CountsOnce(listed, keys);
    ok := (forall k | k in keys :: listed[k] == 1) && (forall k | k in listed :: k in keys) && agree;
  }

  ghost predicate SectionAgrees(rows: seq<Event>, s: Section, disp: map<nat, Disposition>) {
    forall e | e in rows :: e.key in disp && Agrees(s, disp[e.key])
  }

  lemma FlattenNone(parts: seq<seq<Event>>)
    ensures Flatten(parts[..0]) == [] && KeysOf(Flatten(parts[..0])) == []
  {
  }

  lemma FlattenTake(parts: seq<seq<Event>>, n: nat)
    requires n < |parts|
    ensures Flatten(parts[..n + 1]) == Flatten(parts[..n]) + parts[n]
  {
    assert parts[..n + 1] == parts[..n] + [parts[n]];
    FlattenSnoc(parts[..n], parts[n]);
  }

  lemma AgreeInOrder(r: Sections, disp: map<nat, Disposition>)
    ensures AllAgree(r, disp) <==>
            forall k | 0 <= k < |SECTION_ORDER| :: SectionAgrees(r.All()[k], SECTION_ORDER[k], disp)
  {
    hide Agrees;
    AllInOrder(r);
    forall s, e | e in r.Get(s)
      ensures exists k :: 0 <= k < |SECTION_ORDER| && SECTION_ORDER[k] == s && e in r.All()[k]
    {
      assert s in SECTION_ORDER;
      var k :| 0 <= k < |SECTION_ORDER| && SECTION_ORDER[k] == s;
      assert r.All()[k] == r.Get(s);
    }
  }

  lemma CountsOnce(listed: multiset<nat>, keys: seq<nat>)
    requires Distinct(keys)
    ensures listed == multiset(keys) <==> (forall k | k in keys :: listed[k] == 1) && (forall k | k in listed :: k in keys)
  {
    forall k
      ensures multiset(keys)[k] == if k in keys then 1 else 0
    {
      DistinctCount(keys, k);
    }
  }

  // ---------------------------------------------------------------- the comparison

  predicate IsComparable(p: Position) { p.status == Comparable }

  lemma CaseFromNormalization(n: Normalized, events: seq<Event>, c: Case)
    requires TrueNormalization(n, events, c.scope) && DistinctKeys(n.records)
    requires c.records == n.records && c.bps == Filter(n.positions, IsComparable)
    requires c.sims.Some? ==> forall e | e in c.edges :: e.0 < |c.bps| && e.1 < |c.sims.value|
    ensures TrueCase(c) && Disposed(n.lists.dispositions, {}, c)
  {
    hide Provisional, Consistent, TruePosition, Filter, Pending;
    ComparableIds(n.positions, c.bps);
    assert forall p | p in n.positions :: TruePosition(p, c.records, c.scope);
    forall e
      ensures Pending(e, c.records, c.scope) <==> exists i: nat :: Waits(e, i, c)
    {
      PendingIsFiled(e, n, events, c);
    }
    SettledDisposed(n.lists, c);
  }

  lemma ComparableIds(all: seq<Position>, bps: seq<Position>)
    requires bps == Filter(all, IsComparable)
    requires forall i, j | 0 <= i < j < |all| :: all[i].id != all[j].id
    ensures forall i, j | 0 <= i < j < |bps| :: bps[i].id != bps[j].id
    ensures forall k | 0 <= k < |bps| :: bps[k] in all && bps[k].status == Comparable
  {
    assert Distinct(all);
    forall k | 0 <= k < |bps|
      ensures bps[k] in all && bps[k].status == Comparable
    {
      assert bps[k] in bps;
    }
  }

  lemma PendingIsFiled(e: Event, n: Normalized, events: seq<Event>, c: Case)
    requires TrueNormalization(n, events, c.scope) && DistinctKeys(n.records)
    requires c.records == n.records && c.bps == Filter(n.positions, IsComparable)
    ensures Pending(e, c.records, c.scope) <==> exists i: nat :: Waits(e, i, c)
  {
    hide TrueNormalization, DistinctKeys, IsFill, Provisional, TruePosition, Filter;
    if Pending(e, c.records, c.scope) {
      var p := FiledPosition(e, n, events, c.scope);
      var i :| 0 <= i < |c.bps| && c.bps[i] == p;
      assert Waits(e, i, c);
    }
    if i: nat :| Waits(e, i, c) {
      ComparableRows(i, n, events, c);
    }
  }

  lemma FiledPosition(e: Event, n: Normalized, events: seq<Event>, scope: Scope) returns (p: Position)
    requires TrueNormalization(n, events, scope) && DistinctKeys(n.records)
    requires Pending(e, n.records, scope)
    ensures p in Filter(n.positions, IsComparable) && e in p.inside
  {
    hide TrueNormalization, TruePosition, Provisional, Filter, IsFill, DistinctKeys;
    PendingIsFill(e, n.records, scope);
    p := PositionOf(e, n, events, scope);
    PositionRows(p, n.records, scope);
    InsideIsComparable(p, n.records, scope);
  }

  lemma PendingIsFill(e: Event, records: seq<Event>, scope: Scope)
    requires Pending(e, records, scope)
    ensures IsFill(e, scope) && e.positionId.Some? && RelationOf(e, scope) == In
  {
  }

  lemma PositionOf(e: Event, n: Normalized, events: seq<Event>, scope: Scope) returns (p: Position)
    requires TrueNormalization(n, events, scope) && e in n.records && IsFill(e, scope)
    ensures p in n.positions && e.positionId == Some(p.id) && TruePosition(p, n.records, scope)
  {
    hide Consistent, TruePosition;
    var k :| 0 <= k < |n.positions| && n.positions[k].id == e.positionId.value;
    p := n.positions[k];
  }

  lemma InsideIsComparable(p: Position, records: seq<Event>, scope: Scope)
    requires TruePosition(p, records, scope) && p.inside != [] && p.side.Some?
    ensures IsComparable(p)
  {
  }

  lemma ComparableRows(i: nat, n: Normalized, events: seq<Event>, c: Case)
    requires TrueNormalization(n, events, c.scope) && DistinctKeys(n.records)
    requires c.records == n.records && c.bps == Filter(n.positions, IsComparable) && i < |c.bps|
    ensures forall e | e in c.bps[i].inside :: Pending(e, c.records, c.scope)
  {
    hide Consistent, Direction;
    assert c.bps[i] in c.bps;
    PositionRows(c.bps[i], c.records, c.scope);
  }

  lemma SettledDisposed(l: Lists, c: Case)
    requires Consistent(l, Settled(c.records, c.scope), c.records, c.scope)
    requires forall e :: Pending(e, c.records, c.scope) <==> exists i: nat :: Waits(e, i, c)
    ensures Disposed(l.dispositions, {}, c)
  {
    hide PendingVerdict;
    assert Ready({}, c) == Settled(c.records, c.scope);
    forall k
      ensures k in l.dispositions <==> k in Keys(Ready({}, c))
    {
    }
    forall e, i: nat | Waits(e, i, c)
      ensures Pending(e, c.records, c.scope)
    {
    }
  }

  /** The `for bi, si in assigned` loop: reconcile each pair and mark its booked rows. */
  method DisposePairs(pairs: seq<M.Edge>, c: Case, step: real, tol: Tolerances, before: map<nat, Disposition>)
    returns (matched: seq<PairReport>, disp: map<nat, Disposition>)
    requires TrueCase(c) && Disposed(before, {}, c)
    requires forall e | e in pairs :: PairedWith(e.0, e.1, c)
    requires Distinct(Firsts(pairs))
    ensures Disposed(disp, Elems(Firsts(pairs)), c)
    ensures |matched| == |pairs|
    ensures forall k | 0 <= k < |pairs| :: PairedWith(pairs[k].0, pairs[k].1, c)
              && PairsInOrder(matched[k], c.bps[pairs[k].0], c.sims.value[pairs[k].1])
  {
    hide Disposed, TrueCase, Marked, PendingVerdict, Compared, Leftover, Compat, DistinctKeys, PairsInOrder, BookedOf;
    matched, disp := [], before;
    assert Elems(Firsts(pairs)[..0]) == {};
    for n := 0 to |pairs|
      invariant |matched| == n
      invariant Disposed(disp, Elems(Firsts(pairs)[..n]), c)
      invariant forall k | 0 <= k < n :: PairedWith(pairs[k].0, pairs[k].1, c)
                  && PairsInOrder(matched[k], c.bps[pairs[k].0], c.sims.value[pairs[k].1])
    {
      var (bi, si) := pairs[n];
      assert PairedWith(bi, si, c);
      PositionReady(bi, c);
      var r := ReconcilePair(c.bps[bi], c.sims.value[si], step, tol);
      PairRows(r, c.bps[bi], c.sims.value[si]);
      var marked := MarkAll(disp, c.bps[bi].inside, BookedOf(r.components), Unmatched);
      forall e
        ensures PendingVerdict(e, bi, c).disposition == if e in BookedOf(r.components) then Matched else Unmatched
      {
        PairVerdict(e, bi, si, c);
      }
      MarkedIsDisposed(disp, Elems(Firsts(pairs)[..n]), bi, BookedOf(r.components), Unmatched, marked, c);
      ElemsTake(Firsts(pairs), n);
      matched, disp := matched + [r], marked;
    }
    TakeAll(Firsts(pairs));
  }

  function Firsts(pairs: seq<M.Edge>): (out: seq<nat>)
    ensures |out| == |pairs| && forall k | 0 <= k < |pairs| :: out[k] == pairs[k].0
  {
    seq(|pairs|, k requires 0 <= k < |pairs| => pairs[k].0)
  }

  lemma ElemsTake<T>(xs: seq<T>, n: nat)
    requires n < |xs|
    ensures Elems(xs[..n + 1]) == Elems(xs[..n]) + {xs[n]}
  {
  }

  lemma PositionReady(i: nat, c: Case)
    requires TrueCase(c) && i < |c.bps|
    ensures DistinctKeys(c.bps[i].inside) && Priced(c.bps[i].inside)
  {
  }

  /** The loops that give all in-interval rows of the listed positions one disposition. */
  method DisposePositions(idx: seq<nat>, d: Disposition, c: Case, before: map<nat, Disposition>, ghost handled: set<nat>)
    returns (disp: map<nat, Disposition>)
    requires TrueCase(c) && Disposed(before, handled, c)
    requires forall i | i in idx :: i < |c.bps| && forall e :: PendingVerdict(e, i, c).disposition == d
    ensures Disposed(disp, handled + Elems(idx), c)
  {
    hide Disposed, TrueCase, Marked, PendingVerdict, DistinctKeys;
    disp := before;
    assert handled + Elems(idx[..0]) == handled;
    for n := 0 to |idx|
      invariant Disposed(disp, handled + Elems(idx[..n]), c)
    {
      var i := idx[n];
      assert i in idx;
      PositionReady(i, c);
      var marked := MarkAll(disp, c.bps[i].inside, [], d);
      MarkedIsDisposed(disp, handled + Elems(idx[..n]), i, [], d, marked, c);
      ElemsTake(idx, n);
      assert handled + Elems(idx[..n]) + {i} == handled + Elems(idx[..n + 1]);
      disp := marked;
    }
    TakeAll(idx);
  }

  /** The positions below n outside `taken`, in order. */
  function Remaining(n: nat, taken: set<nat>): (idx: seq<nat>)
    ensures Distinct(idx) && forall i: nat :: i in idx <==> i < n && i !in taken
  {
    if n == 0 then [] else Remaining(n - 1, taken) + if n - 1 in taken then [] else [n - 1]
  }

  function BookedLists(ambiguous: seq<M.Ambiguity>): (out: seq<seq<nat>>)
    ensures |out| == |ambiguous| && forall k | 0 <= k < |out| :: out[k] == ambiguous[k].booked
  {
    seq(|ambiguous|, k requires 0 <= k < |ambiguous| => ambiguous[k].booked)
  }

  function InsideOf(idx: seq<nat>, bps: seq<Position>): (out: seq<seq<Event>>)
    requires forall k | 0 <= k < |idx| :: idx[k] < |bps|
    ensures |out| == |idx| && forall k | 0 <= k < |idx| :: out[k] == bps[idx[k]].inside
  {
    seq(|idx|, k requires 0 <= k < |idx| => bps[idx[k]].inside)
  }

  function ComponentRows(matched: seq<PairReport>): (out: seq<seq<Event>>)
    ensures |out| == |matched| && forall k | 0 <= k < |out| :: out[k] == BookedOf(matched[k].components)
  {
    seq(|matched|, k requires 0 <= k < |matched| => BookedOf(matched[k].components))
  }

  function LeftoverRows(matched: seq<PairReport>): (out: seq<seq<Event>>)
    ensures |out| == |matched| && forall k | 0 <= k < |out| :: out[k] == matched[k].leftoverBooked
  {
    seq(|matched|, k requires 0 <= k < |matched| => matched[k].leftoverBooked)
  }

  /** The positions an ambiguity report names are the ambiguous vertices, each once. */
  lemma AmbiguousIndexes(ambiguous: seq<M.Ambiguity>, E: set<M.Edge>)
    requires forall a | a in ambiguous :: M.WellReported(a, E)
    requires M.Disjoint(ambiguous)
    requires forall b: nat :: M.AmbiguousVertex(b, E) <==> M.Reported(b, ambiguous)
    ensures Distinct(Flatten(BookedLists(ambiguous)))
    ensures forall i: nat :: i in Flatten(BookedLists(ambiguous)) <==> M.AmbiguousVertex(i, E)
  {
    hide M.AmbiguousVertex;
    var lists := BookedLists(ambiguous);
    assert forall k | 0 <= k < |lists| :: ambiguous[k] in ambiguous;
    FlattenDistinct(lists);
    forall i: nat
      ensures i in Flatten(lists) <==> M.Reported(i, ambiguous)
    {
      FlattenMember(lists, i);
      if M.Reported(i, ambiguous) {
        var a :| a in ambiguous && i in a.booked;
        var k :| 0 <= k < |ambiguous| && ambiguous[k] == a;
        assert i in lists[k];
      }
    }
  }

  /** What the matching step hands over, as facts about the case. */
  ghost predicate TrueMatching(pairs: seq<M.Edge>, amb: seq<nat>, c: Case) {
    && Distinct(Firsts(pairs))
    && (forall e | e in pairs :: PairedWith(e.0, e.1, c))
    && (forall i: nat, j: nat | PairedWith(i, j, c) :: i in Firsts(pairs))
    && Distinct(amb)
    && (forall k | 0 <= k < |amb| :: amb[k] < |c.bps|)
    && (forall i: nat :: i in amb <==> i < |c.bps| && c.sims.Some? && M.AmbiguousVertex(i, c.edges))
  }

  lemma MatchingIsTrue(pairs: seq<M.Edge>, ambiguous: seq<M.Ambiguity>, c: Case)
    requires TrueCase(c) && c.sims.Some?
    requires Distinct(pairs) && forall e :: e in pairs <==> M.Assigned(e, c.edges)
    requires forall a | a in ambiguous :: M.WellReported(a, c.edges)
    requires M.Disjoint(ambiguous)
    requires forall b: nat :: M.AmbiguousVertex(b, c.edges) <==> M.Reported(b, ambiguous)
    ensures TrueMatching(pairs, Flatten(BookedLists(ambiguous)), c)
    ensures TrueSearch(pairs, ambiguous, c)
  {
    hide M.Assigned, M.WellReported;
    AmbiguousIndexes(ambiguous, c.edges);
    var amb := Flatten(BookedLists(ambiguous));
    forall i: nat
      ensures i in amb <==> i < |c.bps| && M.AmbiguousVertex(i, c.edges)
    {
    }
    assert forall k | 0 <= k < |amb| :: amb[k] in amb;
    forall e | e in pairs
      ensures PairedWith(e.0, e.1, c)
    {
      PairedEdge(e, c.edges);
    }
    M.AssignedIsMatching(Elems(pairs), c.edges);
    forall i, j | 0 <= i < j < |pairs|
      ensures Firsts(pairs)[i] != Firsts(pairs)[j]
    {
      assert pairs[i] in Elems(pairs) && pairs[j] in Elems(pairs);
    }
    forall i: nat, j: nat | PairedWith(i, j, c)
      ensures i in Firsts(pairs)
    {
      var k :| 0 <= k < |pairs| && pairs[k] == (i, j);
      assert Firsts(pairs)[k] == i;
    }
  }

  /** The rows of one pair by section. */
  lemma PairParts(i: nat, j: nat, r: PairReport, c: Case)
    requires TrueCase(c) && PairedWith(i, j, c) && PairsInOrder(r, c.bps[i], c.sims.value[j])
    ensures Distinct(BookedOf(r.components)) && Distinct(r.leftoverBooked)
    ensures forall e :: e in BookedOf(r.components) <==>
              Waits(e, i, c) && PendingVerdict(e, i, c).section == MatchedComponents
    ensures forall e :: e in r.leftoverBooked <==>
              Waits(e, i, c) && PendingVerdict(e, i, c).section == PairLeftovers
  {
    hide Compared, Leftover, M.Assigned, M.AmbiguousVertex, TrueCase, PairsInOrder, BookedOf, PendingVerdict;
    PositionPriced(i, c);
    PairRows(r, c.bps[i], c.sims.value[j]);
    PairIsWhole(c.bps[i], c.sims.value[j]);
    forall e
      ensures PendingVerdict(e, i, c) == if e in Compared(c.bps[i], c.sims.value[j])
              then Verdict(MatchedComponents, Matched) else Verdict(PairLeftovers, Unmatched)
    {
      PairVerdict(e, i, j, c);
    }
  }

  lemma Partner(e: Event, i: nat, c: Case) returns (j: nat)
    requires PendingVerdict(e, i, c).section in {MatchedComponents, PairLeftovers}
    ensures PairedWith(i, j, c)
  {
    j :| PairedWith(i, j, c);
  }

  lemma PairSections(pairs: seq<M.Edge>, matched: seq<PairReport>, amb: seq<nat>, c: Case)
    requires TrueCase(c) && TrueMatching(pairs, amb, c) && |matched| == |pairs|
    requires forall k | 0 <= k < |pairs| :: PairedWith(pairs[k].0, pairs[k].1, c)
               && PairsInOrder(matched[k], c.bps[pairs[k].0], c.sims.value[pairs[k].1])
    ensures ListsVerdict(Flatten(ComponentRows(matched)), MatchedComponents, c)
    ensures ListsVerdict(Flatten(LeftoverRows(matched)), PairLeftovers, c)
  {
    hide Compared, Leftover, M.Assigned, M.AmbiguousVertex, TruePosition, PairsInOrder, BookedOf, PendingVerdict,
         ListsVerdict;
    forall k | 0 <= k < |pairs|
      ensures Distinct(ComponentRows(matched)[k]) && Distinct(LeftoverRows(matched)[k])
      ensures forall e :: e in ComponentRows(matched)[k] <==>
                Waits(e, pairs[k].0, c) && PendingVerdict(e, pairs[k].0, c).section == MatchedComponents
      ensures forall e :: e in LeftoverRows(matched)[k] <==>
                Waits(e, pairs[k].0, c) && PendingVerdict(e, pairs[k].0, c).section == PairLeftovers
    {
      PairParts(pairs[k].0, pairs[k].1, matched[k], c);
    }
    forall e, i: nat | Waits(e, i, c) && PendingVerdict(e, i, c).section in {MatchedComponents, PairLeftovers}
      ensures i in Firsts(pairs)
    {
      var j := Partner(e, i, c);
    }
    PartsList(ComponentRows(matched), Firsts(pairs), MatchedComponents, c);
    PartsList(LeftoverRows(matched), Firsts(pairs), PairLeftovers, c);
  }

  /** The dispositions the whole-position loops may write. */
  lemma PositionDispositions(pairs: seq<M.Edge>, amb: seq<nat>, rest: seq<nat>, c: Case)
    requires TrueMatching(pairs, amb, c)
    requires rest == Remaining(|c.bps|, Elems(Firsts(pairs)) + Elems(amb))
    ensures forall i | i in amb :: i < |c.bps| && forall e :: PendingVerdict(e, i, c).disposition == Ambiguous
    ensures forall i | i in rest :: i < |c.bps| && forall e ::
              PendingVerdict(e, i, c).disposition == if c.sims.Some? then Unmatched else NotSimulated
    ensures forall k | 0 <= k < |rest| :: rest[k] < |c.bps|
    ensures Distinct(amb) && forall k | 0 <= k < |amb| :: amb[k] < |c.bps|
    ensures Distinct(Firsts(pairs)) && forall e | e in pairs :: PairedWith(e.0, e.1, c)
  {
    hide Compared, M.Assigned, M.AmbiguousVertex, PendingVerdict;
    forall e, i: nat | i in amb || i in rest
      ensures PendingVerdict(e, i, c) == if i in amb then Verdict(AmbiguousRows, Ambiguous)
              else Verdict(UnmatchedBooked, if c.sims.Some? then Unmatched else NotSimulated)
    {
      VerdictOfPosition(e, i, pairs, amb, c);
    }
    assert forall k | 0 <= k < |rest| :: rest[k] in rest;
  }

  /** A section made of whole positions. */
  lemma WholePositions(idx: seq<nat>, s: Section, pairs: seq<M.Edge>, amb: seq<nat>, c: Case)
    requires TrueCase(c) && TrueMatching(pairs, amb, c) && Distinct(idx)
    requires forall k | 0 <= k < |idx| :: idx[k] < |c.bps|
    requires s in {AmbiguousRows, UnmatchedBooked}
    requires idx == if s == AmbiguousRows then amb else Remaining(|c.bps|, Elems(Firsts(pairs)) + Elems(amb))
    ensures ListsVerdict(Flatten(InsideOf(idx, c.bps)), s, c)
  {
    hide Compared, M.Assigned, M.AmbiguousVertex, TruePosition, PendingVerdict, ListsVerdict;
    forall e, i: nat | i < |c.bps|
      ensures PendingVerdict(e, i, c).section == s <==> i in idx
    {
      VerdictOfPosition(e, i, pairs, amb, c);
    }
    forall k | 0 <= k < |idx|
      ensures Distinct(InsideOf(idx, c.bps)[k])
    {
      PositionPriced(idx[k], c);
    }
    forall k, e | 0 <= k < |idx|
      ensures e in InsideOf(idx, c.bps)[k] <==> Waits(e, idx[k], c) && PendingVerdict(e, idx[k], c).section == s
    {
      assert idx[k] in idx;
    }
    PartsList(InsideOf(idx, c.bps), idx, s, c);
  }

  /** The verdict of a whole position depends only on whether it is paired or ambiguous. */
  lemma VerdictOfPosition(e: Event, i: nat, pairs: seq<M.Edge>, amb: seq<nat>, c: Case)
    requires TrueMatching(pairs, amb, c) && i < |c.bps|
    ensures i in Firsts(pairs) ==> i !in amb && PendingVerdict(e, i, c).section in {MatchedComponents, PairLeftovers}
    ensures i in amb ==> PendingVerdict(e, i, c) == Verdict(AmbiguousRows, Ambiguous)
    ensures i !in Firsts(pairs) && i !in amb ==>
              PendingVerdict(e, i, c) == Verdict(UnmatchedBooked, if c.sims.Some? then Unmatched else NotSimulated)
  {
  }

  datatype Report = Report(bookedCase: Case, pairs: seq<M.Edge>, ambiguous: seq<M.Ambiguity>, unmatched: seq<nat>,
                           matched: seq<PairReport>, sections: Sections, dispositions: map<nat, Disposition>)

  /** Every disposition and every section of the report is the one the rules give. */
  ghost predicate TrueReport(r: Report) {
    && TrueCase(r.bookedCase)
    && TrueSections(r.sections, r.bookedCase)
    && exists handled :: AllPositions(handled, r.bookedCase) && Disposed(r.dispositions, handled, r.bookedCase)
  }

  /** Every pair's report is of its positions, in order. */
  ghost predicate PairsReported(pairs: seq<M.Edge>, matched: seq<PairReport>, c: Case) {
    && |matched| == |pairs|
    && forall k | 0 <= k < |pairs| :: PairedWith(pairs[k].0, pairs[k].1, c)
         && PairsInOrder(matched[k], c.bps[pairs[k].0], c.sims.value[pairs[k].1])
  }

  /** The pairs are the assigned edges, each once; the ambiguities are the undecided components. */
  ghost predicate TrueSearch(pairs: seq<M.Edge>, ambiguous: seq<M.Ambiguity>, c: Case) {
    && Distinct(pairs) && (forall e :: e in pairs <==> c.sims.Some? && M.Assigned(e, c.edges))
    && (forall a | a in ambiguous :: M.WellReported(a, c.edges))
    && M.Disjoint(ambiguous)
    && (forall b: nat :: M.Reported(b, ambiguous) <==> c.sims.Some? && M.AmbiguousVertex(b, c.edges))
  }

  ghost predicate TrueMatches(r: Report) {
    TrueSearch(r.pairs, r.ambiguous, r.bookedCase) && PairsReported(r.pairs, r.matched, r.bookedCase)
  }

  ghost predicate AllPositions(handled: set<nat>, c: Case) {
    forall i: nat | i < |c.bps| :: i in handled
  }

  method Assemble(c: Case, lists: Lists, pairs: seq<M.Edge>, ambiguous: seq<M.Ambiguity>, step: real, tol: Tolerances)
    returns (r: Report)
    requires TrueCase(c) && Disposed(lists.dispositions, {}, c)
    requires Consistent(lists, Settled(c.records, c.scope), c.records, c.scope)
    requires TrueMatching(pairs, Flatten(BookedLists(ambiguous)), c)
    ensures TrueReport(r) && r.bookedCase == c && r.pairs == pairs && r.ambiguous == ambiguous
    ensures PairsReported(pairs, r.matched, c)
  {
    hide TrueCase, Disposed, PendingVerdict, PairedWith, ListsVerdict, Compared, Leftover, TrueSections, TrueReport,
         TrueMatching, Consistent, PairsInOrder, Flatten, Settled;
    var amb := Flatten(BookedLists(ambiguous));
    var rest := Remaining(|c.bps|, Elems(Firsts(pairs)) + Elems(amb));
    PositionDispositions(pairs, amb, rest, c);
    WholePositions(amb, AmbiguousRows, pairs, amb, c);
    WholePositions(rest, UnmatchedBooked, pairs, amb, c);
    var matched, d1 := DisposePairs(pairs, c, step, tol, lists.dispositions);
    PairSections(pairs, matched, amb, c);
    var d2 := DisposePositions(amb, Ambiguous, c, d1, Elems(Firsts(pairs)));
    var d3 := DisposePositions(rest, if c.sims.Some? then Unmatched else NotSimulated, c, d2,
                               Elems(Firsts(pairs)) + Elems(amb));
    var sections := Sections(
      Flatten(ComponentRows(matched)), Flatten(LeftoverRows(matched)),
      Flatten(InsideOf(amb, c.bps)), Flatten(InsideOf(rest, c.bps)),
      lists.funding, lists.unresolved, lists.outside, lists.notComparable);
    r := Report(c, pairs, ambiguous, rest, matched, sections, d3);
    ReportIsTrue(r, lists, Elems(Firsts(pairs)) + Elems(amb) + Elems(rest));
  }

  lemma ReportIsTrue(r: Report, lists: Lists, handled: set<nat>)
    requires TrueCase(r.bookedCase) && AllPositions(handled, r.bookedCase)
    requires Disposed(r.dispositions, handled, r.bookedCase)
    requires ListsVerdict(r.sections.matched, MatchedComponents, r.bookedCase)
    requires ListsVerdict(r.sections.leftovers, PairLeftovers, r.bookedCase)
    requires ListsVerdict(r.sections.ambiguous, AmbiguousRows, r.bookedCase)
    requires ListsVerdict(r.sections.unmatched, UnmatchedBooked, r.bookedCase)
    requires Consistent(lists, Settled(r.bookedCase.records, r.bookedCase.scope), r.bookedCase.records, r.bookedCase.scope)
    requires r.sections.funding == lists.funding && r.sections.unresolved == lists.unresolved
    requires r.sections.outside == lists.outside && r.sections.notComparable == lists.notComparable
    ensures TrueReport(r)
  {
  }

  /** In a true report every booked row has exactly one disposition, and it agrees with its section. */
  lemma ReportAgrees(r: Report)
    requires TrueReport(r)
    ensures r.dispositions.Keys == Keys(Elems(r.bookedCase.records))
    ensures AllAgree(r.sections, r.dispositions)
  {
    hide PendingVerdict, TrueSections, Agrees;
    var c := r.bookedCase;
    var handled :| AllPositions(handled, c) && Disposed(r.dispositions, handled, c);
    EverythingReady(handled, c);
    forall s, e | e in r.sections.Get(s)
      ensures e.key in r.dispositions && Agrees(s, r.dispositions[e.key])
    {
      SectionHolds(r.sections, c, s);
      BelongsSomewhere(e, c);
      BelongingAgrees(e, s, r.dispositions[e.key], c);
    }
  }

  lemma EverythingReady(handled: set<nat>, c: Case)
    requires TrueCase(c) && AllPositions(handled, c)
    ensures Ready(handled, c) == Elems(c.records)
  {
    hide Provisional, TruePosition;
    forall e | e in c.records
      ensures e in Ready(handled, c)
    {
      if Provisional(e, c.records, c.scope) == None {
        assert Pending(e, c.records, c.scope);
        var i: nat :| Waits(e, i, c);
      }
    }
    forall e | e in Ready(handled, c)
      ensures e in c.records
    {
      ReadyKnown(e, handled, c);
    }
  }

  lemma BelongingAgrees(e: Event, s: Section, d: Disposition, c: Case)
    requires TrueCase(c) && Belongs(e, s, c) && Right(e, d, c)
    ensures Agrees(s, d)
  {
    hide PendingVerdict, Agrees, Home, Provisional, TrueCase;
    if i: nat :| Waits(e, i, c) && PendingVerdict(e, i, c).section == s {
      VerdictAgrees(e, i, c);
    } else {
      HomeAgrees(d);
    }
  }

  lemma HomeAgrees(d: Disposition)
    ensures Early(d) ==> Agrees(Home(d), d)
  {
  }

  /** The comparison of a valid export with an optional simulation. The partition check of the
      conservation step runs last and always passes. */
  method Compare(events: seq<Event>, scope: Scope, sims: Option<seq<SimPosition>>, step: real, tol: Tolerances)
    returns (r: Report, passed: bool)
    requires DistinctKeys(events)
    requires sims.Some? ==> forall sp | sp in sims.value :: HasOpening(sp)
    ensures TrueReport(r) && TrueMatches(r) && passed
    ensures multiset(r.bookedCase.records) == multiset(events) && SortedBy(RecordBefore, r.bookedCase.records)
    ensures r.bookedCase.scope == scope && r.bookedCase.sims == sims
    ensures sims.Some? ==> exists edges ::
              && Elems(edges) == r.bookedCase.edges
              && (forall bp | bp in r.bookedCase.bps :: Priced(bp.inside))
              && StrongEdges(edges, r.bookedCase.bps, sims.value, step, tol)
  {
    hide TrueCase, Disposed, Consistent, TrueMatching, TrueReport, StrongEdges, Strong, M.Assigned, M.WellReported,
         M.AmbiguousVertex, DistinctKeys, PairsReported, M.Disjoint, TrueSearch;
    var n := NormalizeBooked(events, scope);
    var bps := Filter(n.positions, IsComparable);
    var edges: seq<M.Edge> := [];
    var pairs: seq<M.Edge> := [];
    var ambiguous: seq<M.Ambiguity> := [];
    ComparablePriced(n, events, scope);
    if sims.Some? {
      edges := CandidateEdges(bps, sims.value, step, tol);
      pairs, ambiguous := M.MatchPositions(edges, |bps|, |sims.value|);
    }
    var c := Case(n.records, scope, bps, sims, Elems(edges));
    CaseFromNormalization(n, events, c);
    if sims.Some? {
      MatchingIsTrue(pairs, ambiguous, c);
    } else {
      NothingMatched(c);
    }
    r := Assemble(c, n.lists, pairs, ambiguous, step, tol);
    passed := CheckSections(r.sections, r.dispositions, n.records);
    ReportPasses(r);
  }

  lemma ComparablePriced(n: Normalized, events: seq<Event>, scope: Scope)
    requires TrueNormalization(n, events, scope) && DistinctKeys(n.records)
    ensures forall bp | bp in Filter(n.positions, IsComparable) :: Priced(bp.inside)
    ensures Consistent(n.lists, Settled(n.records, scope), n.records, scope)
    ensures multiset(n.records) == multiset(events) && SortedBy(RecordBefore, n.records)
  {
  }

  lemma NothingMatched(c: Case)
    requires c.sims.None?
    ensures TrueMatching([], Flatten(BookedLists([])), c) && TrueSearch([], [], c)
  {
  }

  lemma ReportPasses(r: Report)
    requires TrueReport(r)
    ensures DistinctKeys(r.bookedCase.records)
    ensures multiset(KeysOf(Flatten(r.sections.All()))) == multiset(KeysOf(r.bookedCase.records))
    ensures AllAgree(r.sections, r.dispositions)
  {
    SectionsPartition(r.sections, r.bookedCase);
    KeysPermutation(Flatten(r.sections.All()), r.bookedCase.records);
    ReportAgrees(r);
  }
}
