/**
  Normalising the booked ledger: every exported row gets a disposition, either at once or through
  the position it belongs to, and fills are grouped into positions.
 */
module LedgerBooking {
  import opened Common
  import opened Sequences

  datatype Kind = NonClose | ScaleIn | Close | Funding | OtherKind
  datatype Action = Buy | Sell | OtherAction

  /** An exported row. Keys, position ids and symbols are strings in the source and ordered tokens
      here; an absent or empty position id is None. Times are in seconds. */
  datatype Event = Event(key: nat, ts: real, kind: Kind, positionId: Option<nat>, symbol: nat, action: Action,
                         quantity: Option<real>, price: Option<real>, fee: real, ledgerDelta: real)

  /** The comparison interval and coin. `comparable` is false for a manually owned strategy. */
  datatype Scope = Scope(start: real, end: real, coin: nat, comparable: bool)

  datatype Relation = Before | In | After

  function RelationOf(e: Event, scope: Scope): Relation {
    if scope.start <= e.ts < scope.end then In else if e.ts < scope.start then Before else After
  }

  /** A buy opens a long or closes a short; a sell the other way round. */
  function SideFromAction(action: Action, isClose: bool): Option<Side> {
    match action
    case Buy => Some(if isClose then Short else Long)
    case Sell => Some(if isClose then Long else Short)
    case OtherAction => None
  }

  predicate Resolvable(e: Event, scope: Scope) {
    && e.kind in {NonClose, ScaleIn, Close}
    && e.positionId.Some?
    && e.symbol == scope.coin
    && e.quantity.Some? && e.quantity.value > 0.0
    && e.price.Some? && e.price.value > 0.0
    && SideFromAction(e.action, e.kind == Close).Some?
  }

  /** A row that is grouped into a position. */
  predicate IsFill(e: Event, scope: Scope) {
    scope.comparable && e.kind != Funding && Resolvable(e, scope)
  }

  datatype Disposition =
    | NotComparable | StrategyFunding | OutsideInterval | UnresolvedIdentity
    | Matched | Unmatched | Ambiguous | NotSimulated

  // ---------------------------------------------------------------- the rule, stated per row

  function FillOf(pid: nat, scope: Scope): Event -> bool {
    (e: Event) => IsFill(e, scope) && e.positionId == Some(pid)
  }

  function Fills(records: seq<Event>, pid: nat, scope: Scope): seq<Event> {
    Filter(records, FillOf(pid, scope))
  }

  function Inside(scope: Scope): Event -> bool {
    (e: Event) => RelationOf(e, scope) == In
  }

  function OpenSides(fills: seq<Event>): set<Option<Side>> {
    set e | e in fills && e.kind != Close :: SideFromAction(e.action, false)
  }

  function CloseSides(fills: seq<Event>): set<Option<Side>> {
    set e | e in fills && e.kind == Close :: SideFromAction(e.action, true)
  }

  /** The one side all fills agree on, known only when an opening row is present. */
  function Direction(fills: seq<Event>): Option<Side> {
    var sides := OpenSides(fills) + CloseSides(fills);
    if OpenSides(fills) == {} then None
    else if sides == {Some(Long)} then Some(Long)
    else if sides == {Some(Short)} then Some(Short)
    else None
  }

  /** The dispositions that need no position matching. */
  predicate Early(d: Disposition) {
    d in {NotComparable, StrategyFunding, OutsideInterval, UnresolvedIdentity}
  }

  /** What normalisation decides about one row, as a rule over the whole ledger with no processing
      order in it. None: the row waits for the position matching. */
  function Provisional(e: Event, records: seq<Event>, scope: Scope): (d: Option<Disposition>)
    ensures d.Some? ==> Early(d.value)
  {
    var inside := RelationOf(e, scope) == In;
    if !scope.comparable then Some(NotComparable)
    else if e.kind == Funding then Some(if inside then StrategyFunding else OutsideInterval)
    else if !Resolvable(e, scope) then Some(if inside then UnresolvedIdentity else OutsideInterval)
    else if !inside then Some(OutsideInterval)
    else if Direction(Fills(records, e.positionId.value, scope)) == None then Some(UnresolvedIdentity)
    else None
  }

  // ---------------------------------------------------------------- booking rows

  /** The four event lists and the disposition dictionary that normalisation fills. */
  datatype Lists = Lists(funding: seq<Event>, unresolved: seq<Event>, outside: seq<Event>,
                         notComparable: seq<Event>, dispositions: map<nat, Disposition>)

  function Book(l: Lists, e: Event, d: Disposition): Lists
    requires Early(d)
  {
    var m := l.dispositions[e.key := d];
    match d
    case StrategyFunding => l.(dispositions := m, funding := l.funding + [e])
    case UnresolvedIdentity => l.(dispositions := m, unresolved := l.unresolved + [e])
    case OutsideInterval => l.(dispositions := m, outside := l.outside + [e])
    case NotComparable => l.(dispositions := m, notComparable := l.notComparable + [e])
  }

  ghost predicate DistinctKeys(records: seq<Event>) {
    && Distinct(records)
    && forall e, f | e in records && f in records && e.key == f.key :: e == f
  }

  ghost predicate ListsExactly(list: seq<Event>, done: set<Event>, d: Disposition, records: seq<Event>, scope: Scope) {
    && Distinct(list)
    && forall e :: e in list <==> e in done && Provisional(e, records, scope) == Some(d)
  }

  /** The rows in `done` are booked, each once, in the list of its disposition. */
  ghost predicate Consistent(l: Lists, done: set<Event>, records: seq<Event>, scope: Scope) {
    && done <= Elems(records)
    && ListsExactly(l.funding, done, StrategyFunding, records, scope)
    && ListsExactly(l.unresolved, done, UnresolvedIdentity, records, scope)
    && ListsExactly(l.outside, done, OutsideInterval, records, scope)
    && ListsExactly(l.notComparable, done, NotComparable, records, scope)
    && (forall k :: k in l.dispositions <==> exists e :: e in done && e.key == k)
    && (forall e | e in done :: Some(l.dispositions[e.key]) == Provisional(e, records, scope))
  }

  lemma BookKeeps(l: Lists, e: Event, d: Disposition, done: set<Event>, records: seq<Event>, scope: Scope)
    requires DistinctKeys(records) && Consistent(l, done, records, scope)
    requires e in records && e !in done && Early(d) && Provisional(e, records, scope) == Some(d)
    ensures Consistent(Book(l, e, d), done + {e}, records, scope)
  {
    hide Provisional;
    forall k
      ensures k in Book(l, e, d).dispositions <==> exists f :: f in done + {e} && f.key == k
    {
      if k in l.dispositions {
        var f :| f in done && f.key == k;
        assert f in done + {e};
      } else if k == e.key {
        assert e in done + {e};
      }
    }
  }

  method BookAll(l: Lists, evs: seq<Event>, d: Disposition, ghost done: set<Event>, ghost records: seq<Event>, scope: Scope)
    returns (out: Lists)
    requires DistinctKeys(records) && Consistent(l, done, records, scope)
    requires Distinct(evs) && Early(d)
    requires forall e | e in evs :: e in records && e !in done && Provisional(e, records, scope) == Some(d)
    ensures Consistent(out, done + Elems(evs), records, scope)
  {
    hide Consistent, DistinctKeys, Provisional;
    out := l;
    assert done + Elems(evs[..0]) == done;
    for i := 0 to |evs|
      invariant Consistent(out, done + Elems(evs[..i]), records, scope)
    {
      assert evs[i] !in evs[..i];
      BookKeeps(out, evs[i], d, done + Elems(evs[..i]), records, scope);
      assert done + Elems(evs[..i]) + {evs[i]} == done + Elems(evs[..i + 1]);
      out := Book(out, evs[i], d);
    }
    TakeAll(evs);
  }

  // ---------------------------------------------------------------- sorting

  predicate RecordBefore(a: Event, b: Event) {
    a.ts < b.ts || (a.ts == b.ts && a.key <= b.key)
  }

  lemma RecordOrder()
    ensures TotalPreorder(RecordBefore)
  {
  }

  // ---------------------------------------------------------------- positions

  datatype Status = Comparable | Outside | Unresolved

  datatype Position = Position(id: nat, side: Option<Side>, events: seq<Event>, inside: seq<Event>, status: Status)

  /** A position is the time-ordered list of all its fills, with the status normalisation gives it. */
  ghost predicate TruePosition(p: Position, records: seq<Event>, scope: Scope) {
    && p.events == Fills(records, p.id, scope) != []
    && p.inside == Filter(p.events, Inside(scope))
    && p.side == Direction(p.events)
    && p.status == (if p.inside == [] then Outside else if p.side == None then Unresolved else Comparable)
  }

  datatype Normalized = Normalized(records: seq<Event>, positions: seq<Position>, lists: Lists)

  ghost predicate Pending(e: Event, records: seq<Event>, scope: Scope) {
    e in records && Provisional(e, records, scope) == None
  }

  ghost function Settled(records: seq<Event>, scope: Scope): set<Event> {
    set e | e in records && Provisional(e, records, scope).Some?
  }

  ghost predicate TrueNormalization(n: Normalized, events: seq<Event>, scope: Scope) {
    && multiset(n.records) == multiset(events)
    && SortedBy(RecordBefore, n.records)
    && Consistent(n.lists, Settled(n.records, scope), n.records, scope)
    && (forall i | 0 <= i < |n.positions| :: TruePosition(n.positions[i], n.records, scope))
    && (forall i, j | 0 <= i < j < |n.positions| :: n.positions[i].id != n.positions[j].id)
    && (forall e | e in n.records && IsFill(e, scope) ::
          exists i :: 0 <= i < |n.positions| && n.positions[i].id == e.positionId.value)
  }

  /** What the first pass books, and what it leaves to the positions. */
  function Immediate(e: Event, scope: Scope): Option<Disposition> {
    var inside := RelationOf(e, scope) == In;
    if !scope.comparable then Some(NotComparable)
    else if e.kind == Funding then Some(if inside then StrategyFunding else OutsideInterval)
    else if !Resolvable(e, scope) then Some(if inside then UnresolvedIdentity else OutsideInterval)
    else None
  }

  ghost function Rest(records: seq<Event>, scope: Scope): set<Event> {
    set e | e in records && !IsFill(e, scope)
  }

  ghost predicate Grouped(groups: map<nat, seq<Event>>, records: seq<Event>, scope: Scope) {
    && (forall pid :: pid in groups <==> Fills(records, pid, scope) != [])
    && (forall pid | pid in groups :: groups[pid] == Fills(records, pid, scope))
  }

  lemma GroupedStep(groups: map<nat, seq<Event>>, records: seq<Event>, i: nat, scope: Scope)
    requires i < |records| && Grouped(groups, records[..i], scope)
    ensures !IsFill(records[i], scope) ==> Grouped(groups, records[..i + 1], scope)
    ensures IsFill(records[i], scope) ==>
              var pid := records[i].positionId.value;
              Grouped(groups[pid := (if pid in groups then groups[pid] else []) + [records[i]]], records[..i + 1], scope)
  {
    forall pid
      ensures Fills(records[..i + 1], pid, scope) ==
              Fills(records[..i], pid, scope) + if FillOf(pid, scope)(records[i]) then [records[i]] else []
    {
      FilterSnoc(records, i, FillOf(pid, scope));
    }
  }

  method FirstPass(records: seq<Event>, scope: Scope) returns (l: Lists, groups: map<nat, seq<Event>>)
    requires DistinctKeys(records)
    ensures Consistent(l, Rest(records, scope), records, scope)
    ensures Grouped(groups, records, scope)
  {
    hide Consistent, Grouped, DistinctKeys, Fills, Direction;
    l, groups := Lists([], [], [], [], map[]), map[];
    NothingBooked(records, scope);
    for i := 0 to |records|
      invariant Consistent(l, Rest(records[..i], scope), records, scope)
      invariant Grouped(groups, records[..i], scope)
    {
      var e := records[i];
      GroupedStep(groups, records, i, scope);
      RestStep(records, i, scope);
      var d := Immediate(e, scope);
      ImmediateStands(e, records, scope);
      if d.Some? {
        BookKeeps(l, e, d.value, Rest(records[..i], scope), records, scope);
        l := Book(l, e, d.value);
      } else {
        var pid := e.positionId.value;
        groups := groups[pid := (if pid in groups then groups[pid] else []) + [e]];
      }
    }
    TakeAll(records);
  }

  lemma ImmediateStands(e: Event, records: seq<Event>, scope: Scope)
    ensures Immediate(e, scope).Some? <==> !IsFill(e, scope)
    ensures Immediate(e, scope).Some? ==>
              Provisional(e, records, scope) == Immediate(e, scope) && Early(Immediate(e, scope).value)
  {
  }

  lemma NothingBooked(records: seq<Event>, scope: Scope)
    ensures Consistent(Lists([], [], [], [], map[]), Rest(records[..0], scope), records, scope)
    ensures Grouped(map[], records[..0], scope)
  {
  }

  lemma RestStep(records: seq<Event>, i: nat, scope: Scope)
    requires i < |records| && DistinctKeys(records)
    ensures records[i] !in Rest(records[..i], scope)
    ensures Rest(records[..i + 1], scope) ==
            if IsFill(records[i], scope) then Rest(records[..i], scope)
            else Rest(records[..i], scope) + {records[i]}
  {
  }

  // ---------------------------------------------------------------- second pass

  predicate PositionBefore(a: Position, b: Position) {
    if a.events == [] then true
    else if b.events == [] then false
    else a.events[0].ts < b.events[0].ts || (a.events[0].ts == b.events[0].ts && a.id <= b.id)
  }

  lemma PositionOrder()
    ensures TotalPreorder(PositionBefore)
  {
  }

  /** The rows that the positions in `ids` settle. */
  ghost function SettledBy(ids: set<nat>, records: seq<Event>, scope: Scope): set<Event> {
    set e | e in records && IsFill(e, scope) && e.positionId.value in ids && Provisional(e, records, scope).Some?
  }

  /** Books the rows of one position that are not left to the matching. */
  method SettlePosition(p: Position, l: Lists, ghost done: set<Event>, ghost records: seq<Event>, scope: Scope)
    returns (out: Lists)
    requires DistinctKeys(records) && Consistent(l, done, records, scope) && TruePosition(p, records, scope)
    requires SettledBy({p.id}, records, scope) !! done
    ensures Consistent(out, done + SettledBy({p.id}, records, scope), records, scope)
  {
    hide Consistent, DistinctKeys;
    var outside := Filter(p.events, (e: Event) => RelationOf(e, scope) != In);
    PositionRows(p, records, scope);
    forall e | e in p.events && Provisional(e, records, scope).Some?
      ensures e !in done
    {
      assert e in SettledBy({p.id}, records, scope);
    }
    if p.inside == [] {
      out := BookAll(l, p.events, OutsideInterval, done, records, scope);
      assert Elems(p.events) == SettledBy({p.id}, records, scope);
    } else if p.side == None {
      out := BookAll(l, p.inside, UnresolvedIdentity, done, records, scope);
      out := BookAll(out, outside, OutsideInterval, done + Elems(p.inside), records, scope);
      assert done + Elems(p.inside) + Elems(outside) == done + SettledBy({p.id}, records, scope);
    } else {
      out := BookAll(l, outside, OutsideInterval, done, records, scope);
      assert Elems(outside) == SettledBy({p.id}, records, scope);
    }
  }

  lemma PositionRows(p: Position, records: seq<Event>, scope: Scope)
    requires TruePosition(p, records, scope) && DistinctKeys(records)
    ensures Distinct(p.events) && Distinct(p.inside)
    ensures forall e :: e in p.events <==> e in records && IsFill(e, scope) && e.positionId == Some(p.id)
    ensures forall e :: e in p.inside <==> e in p.events && RelationOf(e, scope) == In
    ensures forall e | e in p.events :: Provisional(e, records, scope) ==
              if RelationOf(e, scope) != In then Some(OutsideInterval)
              else if p.side == None then Some(UnresolvedIdentity) else None
  {
  }

  function PositionFrom(pid: nat, evs: seq<Event>, scope: Scope): Position {
    var inside := Filter(evs, Inside(scope));
    var side := Direction(evs);
    Position(pid, side, evs, inside, if inside == [] then Outside else if side == None then Unresolved else Comparable)
  }

  lemma GroupIsPosition(groups: map<nat, seq<Event>>, pid: nat, records: seq<Event>, scope: Scope)
    requires Grouped(groups, records, scope) && pid in groups
    ensures TruePosition(PositionFrom(pid, groups[pid], scope), records, scope)
  {
  }

  method MakePositions(groups: map<nat, seq<Event>>, ghost records: seq<Event>, scope: Scope)
    returns (positions: seq<Position>)
    requires Grouped(groups, records, scope)
    ensures forall p | p in positions :: TruePosition(p, records, scope)
    ensures forall i, j | 0 <= i < j < |positions| :: positions[i].id != positions[j].id
    ensures forall pid :: pid in groups <==> exists p :: p in positions && p.id == pid
  {
    hide TruePosition, Grouped, Filter, Direction;
    positions := [];
    var rest := groups.Keys;
    while rest != {}
      invariant rest <= groups.Keys
      invariant forall p | p in positions :: TruePosition(p, records, scope) && p.id in groups && p.id !in rest
      invariant forall i, j | 0 <= i < j < |positions| :: positions[i].id != positions[j].id
      invariant forall pid | pid in groups && pid !in rest :: exists p :: p in positions && p.id == pid
      decreases |rest|
    {
      var pid :| pid in rest;
      GroupIsPosition(groups, pid, records, scope);
      var p := PositionFrom(pid, groups[pid], scope);
      ghost var before := positions;
      positions := positions + [p];
      rest := rest - {pid};
      assert p in positions;
      assert forall q | q in before :: q in positions;
    }
  }

  method NormalizeBooked(events: seq<Event>, scope: Scope) returns (n: Normalized)
    requires DistinctKeys(events)
    ensures TrueNormalization(n, events, scope) && DistinctKeys(n.records)
  {
    hide Consistent, TruePosition, Grouped, Provisional, SettledBy, Rest, Settled, Filter, TotalPreorder;
    RecordOrder();
    var records := SortBy(RecordBefore, events);
    SortByCounts(RecordBefore, events);
    SortBySorts(RecordBefore, events);
    SameMultisetListing(events, records);
    var l, groups := FirstPass(records, scope);
    var unsorted := MakePositions(groups, records, scope);
    PositionOrder();
    var positions := SortBy(PositionBefore, unsorted);
    SortByCounts(PositionBefore, unsorted);
    SortBySorts(PositionBefore, unsorted);
    SortedPositions(unsorted, positions);
    NoneSettled(records, scope);
    for i := 0 to |positions|
      invariant Consistent(l, Rest(records, scope) + SettledBy(Ids(positions[..i]), records, scope), records, scope)
    {
      assert positions[i] in unsorted;
      NextPosition(positions, i, records, scope);
      l := SettlePosition(positions[i], l, Rest(records, scope) + SettledBy(Ids(positions[..i]), records, scope), records, scope);
    }
    TakeAll(positions);
    AllSettled(positions, groups, records, scope);
    n := Normalized(records, positions, l);
  }

  ghost function Ids(positions: seq<Position>): set<nat> {
    set p | p in positions :: p.id
  }

  lemma SortedPositions(unsorted: seq<Position>, positions: seq<Position>)
    requires multiset(positions) == multiset(unsorted)
    requires forall i, j | 0 <= i < j < |unsorted| :: unsorted[i].id != unsorted[j].id
    ensures forall p :: p in positions <==> p in unsorted
    ensures forall i, j | 0 <= i < j < |positions| :: positions[i].id != positions[j].id
  {
    assert Distinct(unsorted);
    SameMultisetListing(unsorted, positions);
    forall i, j | 0 <= i < j < |positions|
      ensures positions[i].id != positions[j].id
    {
      assert positions[i] in unsorted && positions[j] in unsorted;
    }
  }

  lemma NoneSettled(records: seq<Event>, scope: Scope)
    ensures Rest(records, scope) + SettledBy(Ids([]), records, scope) == Rest(records, scope)
  {
  }

  lemma NextPosition(positions: seq<Position>, i: nat, records: seq<Event>, scope: Scope)
    requires i < |positions|
    requires forall i, j | 0 <= i < j < |positions| :: positions[i].id != positions[j].id
    ensures SettledBy({positions[i].id}, records, scope) !! Rest(records, scope) + SettledBy(Ids(positions[..i]), records, scope)
    ensures Rest(records, scope) + SettledBy(Ids(positions[..i]), records, scope)
            + SettledBy({positions[i].id}, records, scope)
            == Rest(records, scope) + SettledBy(Ids(positions[..i + 1]), records, scope)
  {
  }

  lemma AllSettled(positions: seq<Position>, groups: map<nat, seq<Event>>, records: seq<Event>, scope: Scope)
    requires Grouped(groups, records, scope)
    requires forall pid :: pid in groups <==> exists p :: p in positions && p.id == pid
    ensures Rest(records, scope) + SettledBy(Ids(positions), records, scope) == Settled(records, scope)
    ensures forall e | e in records && IsFill(e, scope) ::
              exists i :: 0 <= i < |positions| && positions[i].id == e.positionId.value
  {
    forall e | e in records && IsFill(e, scope)
      ensures e.positionId.value in Ids(positions)
      ensures exists i :: 0 <= i < |positions| && positions[i].id == e.positionId.value
    {
      assert FillOf(e.positionId.value, scope)(e);
      assert e in Fills(records, e.positionId.value, scope);
      var p :| p in positions && p.id == e.positionId.value;
      var i :| 0 <= i < |positions| && positions[i] == p;
    }
  }
}
