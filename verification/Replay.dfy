/**
  Replaying a recording of observations: the record loop, refined to the last accepted record of each cadence
  bucket, and the gaps it marks.
 */
module Replay {
  import opened Common
  import opened Sequences

  // ---------------------------------------------------------------- records

  datatype Sample = Sample(recv: int, value: real, session: nat, number: nat)

  datatype Reason = Disconnection | Overflow

  /** A stretch without observations; an end of None is still open. */
  datatype Gap = Gap(start: int, end: Option<int>, reason: Reason, detected: int)

  datatype Connection = Connected | Disconnected | OtherState

  datatype Record =
    | Conn(recv: int, session: nat, state: Connection)
    | Drop(recv: int, count: nat, from: int, to: int)
    | Obs(recv: int, session: nat, coin: nat, knownKind: bool, accepted: bool, value: Option<real>,
          parsed: Option<real>, number: nat, refreshed: bool)
    | Unrecognised(recv: int)

  datatype Error =
    | UnknownState | UnknownRecord | UnrecordedCoin | WrongSession | ValueMismatch | NegativeValue
    | BackwardsTime | RepeatedRecord | RefreshMismatch | BadCadence

  // ---------------------------------------------------------------- cadence buckets

  /** The number of the cadence interval that ends at or after a receipt. */
  function Interval(recv: int, cadence: int): int
    requires cadence > 0
  {
    -((-recv) / cadence)
  }

  /** The end of the cadence interval a receipt falls in. */
  function Bucket(recv: int, cadence: int): int
    requires cadence > 0
  {
    Interval(recv, cadence) * cadence
  }

  lemma BucketIsCeiling(recv: int, cadence: int)
    requires cadence > 0
    ensures recv <= Bucket(recv, cadence) < recv + cadence
  {
  }

  lemma BucketIsMonotone(a: int, b: int, cadence: int)
    requires cadence > 0 && a <= b
    ensures Bucket(a, cadence) <= Bucket(b, cadence)
  {
    BucketIsCeiling(a, cadence);
    BucketIsCeiling(b, cadence);
    NextIntervalAbove(Interval(a, cadence), Interval(b, cadence), cadence);
  }

  lemma NextIntervalAbove(x: int, y: int, c: int)
    requires c > 0
    ensures x > y ==> x * c >= y * c + c
    ensures x <= y ==> x * c <= y * c
  {
    assert (y + 1) * c == y * c + c;
    if x > y {
      Multiply(y + 1, x, c);
    } else {
      Multiply(x, y, c);
    }
  }

  lemma Multiply(a: int, b: int, c: int)
    requires a <= b && c > 0
    ensures a * c <= b * c
  {
  }

  // ---------------------------------------------------------------- the reference

  /** The records that no later record of the same bucket replaces. */
  function Latest(accepted: seq<Sample>, cadence: int): seq<Sample>
    requires cadence > 0
  {
    if accepted == [] then []
    else
      var last := accepted[|accepted| - 1];
      var front := accepted[..|accepted| - 1];
      var kept := Latest(front, cadence);
      if front != [] && Bucket(front[|front| - 1].recv, cadence) == Bucket(last.recv, cadence)
      then kept[..if kept == [] then 0 else |kept| - 1] + [last]
      else kept + [last]
  }

  ghost predicate Chronological(accepted: seq<Sample>) {
    && (forall i :: 0 <= i < |accepted| ==> accepted[i].recv >= 0)
    && (forall i, j :: 0 <= i < j < |accepted| ==> accepted[i].recv <= accepted[j].recv)
  }

  /** What happens to one coin. */
  datatype Event = Received(sample: Sample) | Lost(recv: int) | Overflowed(recv: int, from: int, to: int)

  function Accepted(history: seq<Event>): seq<Sample> {
    if history == [] then []
    else
      var e := history[|history| - 1];
      Accepted(history[..|history| - 1]) + if e.Received? then [e.sample] else []
  }

  lemma AcceptedSnoc(history: seq<Event>, e: Event)
    ensures Accepted(history + [e]) == if e.Received? then Accepted(history) + [e.sample] else Accepted(history)
    ensures Unanswered(history + [e]) == (e.Lost? || (e.Overflowed? && Unanswered(history)))
  {
  }

  /** The connection was lost after the last accepted record. */
  predicate Unanswered(history: seq<Event>) {
    history != [] &&
    match history[|history| - 1]
    case Received(_) => false
    case Lost(_) => true
    case Overflowed(_, _, _) => Unanswered(history[..|history| - 1])
  }

  predicate IsOpen(g: Gap) { g.end.None? }

  lemma {:induction false} AcceptedConcat(earlier: seq<Event>, later: seq<Event>)
    ensures Accepted(earlier + later) == Accepted(earlier) + Accepted(later)
  {
    hide Unanswered;
    if later == [] {
      assert earlier + later == earlier;
    } else {
      var front, e := later[..|later| - 1], later[|later| - 1];
      AcceptedConcat(earlier, front);
      assert earlier + later == (earlier + front) + [e] && later == front + [e];
      AcceptedSnoc(earlier + front, e);
      AcceptedSnoc(front, e);
    }
  }

  lemma AcceptedCons(e: Event, history: seq<Event>)
    ensures Accepted([e] + history) == (if e.Received? then [e.sample] else []) + Accepted(history)
  {
    AcceptedConcat([e], history);
    assert [e] == [] + [e];
    AcceptedSnoc([], e);
  }

  function LastRecv(accepted: seq<Sample>): int { if accepted == [] then 0 else accepted[|accepted| - 1].recv }

  // ---------------------------------------------------------------- gaps

  /** The receipt of the first record that arrives from event i on. */
  function NextReceipt(history: seq<Event>, i: nat): Option<int>
    requires i <= |history|
    decreases |history| - i
  {
    if i == |history| then None
    else if history[i].Received? then Some(history[i].sample.recv)
    else NextReceipt(history, i + 1)
  }

  /** A connection that had delivered a record since it was last lost is lost. */
  predicate Opens(history: seq<Event>, i: nat)
    requires i < |history|
  {
    history[i].Lost? && LastRecv(Accepted(history[..i])) != 0 && !Unanswered(history[..i])
  }

  /** The gap of a connection lost with a given last receipt: from the earlier of the two to the next record. */
  function LossGap(last: int, recv: int, end: Option<int>): Gap {
    var start := if last <= recv then last else recv;
    Gap(start, end, Disconnection, if recv >= start then recv else start)
  }

  function OverflowGap(recv: int, from: int, to: int): Gap {
    Gap(from, Some(if to >= recv then to else recv), Reason.Overflow, from)
  }

  /** The gap an event leaves, if it leaves one. */
  function GapAt(history: seq<Event>, i: nat): seq<Gap>
    requires i < |history|
  {
    if Opens(history, i) then
      [LossGap(LastRecv(Accepted(history[..i])), history[i].recv, NextReceipt(history, i + 1))]
    else if history[i].Overflowed? then [OverflowGap(history[i].recv, history[i].from, history[i].to)]
    else []
  }

  function GapsUpTo(history: seq<Event>, n: nat): seq<Gap>
    requires n <= |history|
  {
    if n == 0 then [] else GapsUpTo(history, n - 1) + GapAt(history, n - 1)
  }

  /** The gaps a history leaves, read off it event by event. */
  function GapsOf(history: seq<Event>): seq<Gap> { GapsUpTo(history, |history|) }

  ghost predicate HasOpen(gaps: seq<Gap>) { exists i :: 0 <= i < |gaps| && IsOpen(gaps[i]) }

  ghost predicate OneOpen(gaps: seq<Gap>) {
    forall i, j :: 0 <= i < j < |gaps| ==> !(IsOpen(gaps[i]) && IsOpen(gaps[j]))
  }

  /** Not strictly between the gap's ends. */
  predicate Outside(recv: int, g: Gap) { recv <= g.start || (g.end.Some? && recv >= g.end.value) }

  ghost predicate AllOutside(accepted: seq<Sample>, g: Gap) {
    forall k :: 0 <= k < |accepted| ==> Outside(accepted[k].recv, g)
  }

  /** The gaps after a record arrives: the open one ends at it. */
  function Closed(gaps: seq<Gap>, recv: int): seq<Gap> {
    seq(|gaps|, i requires 0 <= i < |gaps| => if IsOpen(gaps[i]) then gaps[i].(end := Some(recv)) else gaps[i])
  }

  /** The gaps one more event leaves behind earlier ones. */
  function Behind(gaps: seq<Gap>, e: Event): seq<Gap> {
    if e.Received? then Closed(gaps, e.sample.recv) else gaps
  }

  lemma {:induction false} NextReceiptSnoc(history: seq<Event>, e: Event, i: nat)
    requires i <= |history|
    ensures NextReceipt(history + [e], i)
         == if NextReceipt(history, i).Some? then NextReceipt(history, i)
            else if e.Received? then Some(e.sample.recv) else None
    decreases |history| - i
  {
    if i < |history| {
      NextReceiptSnoc(history, e, i + 1);
    } else {
      assert NextReceipt(history + [e], i + 1) == None;
    }
  }

  lemma {:induction false} GapsUpToSnoc(history: seq<Event>, e: Event, n: nat)
    requires n <= |history|
    ensures GapsUpTo(history + [e], n) == Behind(GapsUpTo(history, n), e)
  {
    hide GapAt, Behind;
    if n > 0 {
      GapsUpToSnoc(history, e, n - 1);
      GapAtSnoc(history, e, n - 1);
      BehindConcat(GapsUpTo(history, n - 1), GapAt(history, n - 1), e);
    } else {
      BehindNone(e);
    }
  }

  lemma GapAtSnoc(history: seq<Event>, e: Event, i: nat)
    requires i < |history|
    ensures GapAt(history + [e], i) == Behind(GapAt(history, i), e)
  {
    hide NextReceipt, Accepted, Unanswered;
    assert (history + [e])[..i] == history[..i];
    NextReceiptSnoc(history, e, i + 1);
  }

  lemma BehindConcat(gaps: seq<Gap>, more: seq<Gap>, e: Event)
    ensures Behind(gaps + more, e) == Behind(gaps, e) + Behind(more, e)
  {
  }

  lemma BehindNone(e: Event)
    ensures Behind([], e) == []
  {
  }

  function NextGaps(gaps: seq<Gap>, history: seq<Event>, e: Event): seq<Gap> {
    match e
    case Received(sample) => Closed(gaps, sample.recv)
    case Lost(recv) =>
      var last := LastRecv(Accepted(history));
      if last != 0 && !Unanswered(history) then gaps + [LossGap(last, recv, None)] else gaps
    case Overflowed(recv, from, to) => gaps + [OverflowGap(recv, from, to)]
  }

  /** One more event: a record closes the open gap, a loss after a record opens one, an overflow leaves a closed
      one; nothing else changes. */
  lemma GapsSnoc(history: seq<Event>, e: Event)
    ensures GapsOf(history + [e]) == NextGaps(GapsOf(history), history, e)
  {
    hide Accepted, Unanswered;
    var n := |history|;
    assert (history + [e])[..n] == history;
    GapsUpToSnoc(history, e, n);
  }

  /** At most one gap is open, and one is exactly when the connection was lost after the last record. */
  lemma {:induction false} OpenIffUnanswered(history: seq<Event>)
    ensures OneOpen(GapsOf(history))
    ensures HasOpen(GapsOf(history)) <==> LastRecv(Accepted(history)) != 0 && Unanswered(history)
  {
    hide GapsOf, Accepted;
    if history == [] {
      NoGaps();
    } else {
      var front, e := history[..|history| - 1], history[|history| - 1];
      OpenIffUnanswered(front);
      assert history == front + [e];
      GapsSnoc(front, e);
      AcceptedSnoc(front, e);
      var gaps := GapsOf(front);
      if |GapsOf(history)| > |gaps| {
        assert GapsOf(history)[..|gaps|] == gaps;
        OpenSnoc(gaps, GapsOf(history)[|gaps|]);
      }
    }
  }

  lemma NoGaps()
    ensures GapsOf([]) == []
    ensures LastRecv(Accepted([])) == 0
  {
  }

  lemma OpenSnoc(gaps: seq<Gap>, g: Gap)
    ensures HasOpen(gaps + [g]) <==> HasOpen(gaps) || IsOpen(g)
    ensures OneOpen(gaps + [g]) <==> OneOpen(gaps) && !(HasOpen(gaps) && IsOpen(g))
  {
    var all := gaps + [g];
    assert forall i :: 0 <= i < |gaps| ==> all[i] == gaps[i];
    assert all[|gaps|] == g;
  }

  lemma {:induction false} NextReceiptIsFirst(history: seq<Event>, i: nat)
    requires i <= |history|
    ensures var rest := Accepted(history[i..]);
      NextReceipt(history, i) == if rest == [] then None else Some(rest[0].recv)
    decreases |history| - i
  {
    hide Accepted;
    if i < |history| {
      NextReceiptIsFirst(history, i + 1);
      assert history[i..] == [history[i]] + history[i + 1..];
      AcceptedCons(history[i], history[i + 1..]);
    } else {
      assert history[i..] == [];
      NoGaps();
      NoneAccepted();
    }
  }

  lemma NoneAccepted()
    ensures Accepted([]) == []
  {
  }

  /** The latest receipt before a given one. */
  function PriorRecv(accepted: seq<Sample>, last: int): Option<int> {
    if accepted == [] then None
    else
      var recv := accepted[|accepted| - 1].recv;
      if recv < last then Some(recv) else PriorRecv(accepted[..|accepted| - 1], last)
  }

  lemma {:induction false} NothingBetween(accepted: seq<Sample>, last: int, recv: int)
    requires Chronological(accepted)
    ensures (forall k :: 0 <= k < |accepted| ==> accepted[k].recv <= recv || accepted[k].recv >= last)
       <==> recv >= last || PriorRecv(accepted, last).None? || PriorRecv(accepted, last).value <= recv
  {
    if accepted != [] {
      var front := accepted[..|accepted| - 1];
      assert accepted == front + [accepted[|accepted| - 1]];
      NothingBetween(front, last, recv);
    }
  }

  /** The loss was stamped no earlier than the last receipt, or the next record repeats that receipt and the one
      before it had come by the time of the stamp. */
  predicate CleanLoss(before: seq<Sample>, recv: int, end: Option<int>) {
    var last := LastRecv(before);
    || recv >= last
    || (end == Some(last) && (PriorRecv(before, last).None? || PriorRecv(before, last).value <= recv))
  }

  /** A gap a loss leaves runs forward, and no accepted record lies strictly inside it exactly when the loss is
      clean. */
  lemma LossGapHoldsNone(history: seq<Event>, i: nat)
    requires Chronological(Accepted(history)) && i < |history| && Opens(history, i)
    ensures var before := Accepted(history[..i]);
      && var g := LossGap(LastRecv(before), history[i].recv, NextReceipt(history, i + 1));
      && GapAt(history, i) == [g]
      && (g.end.Some? ==> g.start <= LastRecv(before) <= g.end.value)
      && (AllOutside(Accepted(history), g) <==> CleanLoss(before, history[i].recv, g.end))
  {
    hide Accepted, NextReceipt, Unanswered, Chronological, CleanLoss, AllOutside;
    var before, after := Accepted(history[..i]), Accepted(history[i + 1..]);
    assert history == history[..i] + ([history[i]] + history[i + 1..]);
    AcceptedConcat(history[..i], [history[i]] + history[i + 1..]);
    AcceptedCons(history[i], history[i + 1..]);
    assert Accepted(history) == before + after;
    NextReceiptIsFirst(history, i + 1);
    Between(before, after, history[i].recv);
  }

  lemma Between(before: seq<Sample>, after: seq<Sample>, recv: int)
    requires Chronological(before + after) && before != []
    ensures var end := if after == [] then None else Some(after[0].recv);
      && (after != [] ==> LastRecv(before) <= after[0].recv)
      && (AllOutside(before + after, LossGap(LastRecv(before), recv, end)) <==> CleanLoss(before, recv, end))
  {
    var all := before + after;
    var last := LastRecv(before);
    var n := |before|;
    var g := LossGap(last, recv, if after == [] then None else Some(after[0].recv));
    assert all[n - 1] == before[n - 1];
    assert forall k :: 0 <= k < n ==> before[k] == all[k];
    assert Chronological(before);
    NothingBetween(before, last, recv);
    if after != [] {
      assert all[n] == after[0];
    }
    assert forall k :: n <= k < |all| ==> all[k].recv >= all[n].recv;
    if AllOutside(all, g) {
      assert Outside(all[n - 1].recv, g);
      forall k | 0 <= k < n
        ensures before[k].recv <= recv || before[k].recv >= last
      {
        assert Outside(all[k].recv, g);
      }
    }
  }

  // ---------------------------------------------------------------- what a coin's state means

  lemma ReceiptsUpTo(accepted: seq<Sample>, lastRecv: int)
    requires Chronological(accepted)
    requires lastRecv == LastRecv(accepted)
    ensures forall k :: 0 <= k < |accepted| ==> accepted[k].recv <= lastRecv
    ensures lastRecv >= 0
  {
  }

  lemma ChronologicalSnoc(accepted: seq<Sample>, sample: Sample)
    requires Chronological(accepted) && sample.recv >= 0
    requires forall k :: 0 <= k < |accepted| ==> accepted[k].recv <= sample.recv
    ensures Chronological(accepted + [sample])
  {
  }

  /** The keys of the records seen so far. */
  ghost predicate Keys(accepted: seq<Sample>, seen: map<(nat, nat), (int, real)>) {
    forall id :: id in seen <==>
      exists i :: 0 <= i < |accepted| && id == (accepted[i].session, accepted[i].number)
  }

  lemma SeenSnoc(accepted: seq<Sample>, seen: map<(nat, nat), (int, real)>, sample: Sample)
    requires Keys(accepted, seen)
    ensures Keys(accepted + [sample], seen[(sample.session, sample.number) := (sample.recv, sample.value)])
  {
    var all := accepted + [sample];
    var seen' := seen[(sample.session, sample.number) := (sample.recv, sample.value)];
    forall id
      ensures id in seen' <==> exists i :: 0 <= i < |all| && id == (all[i].session, all[i].number)
    {
      if id in seen {
        var i :| 0 <= i < |accepted| && id == (accepted[i].session, accepted[i].number);
        assert all[i] == accepted[i];
      } else if id == (sample.session, sample.number) {
        assert all[|accepted|] == sample;
      }
    }
  }

  /** One more record replaces the last kept one of its bucket, or is kept beside it. */
  lemma LatestSnoc(accepted: seq<Sample>, sample: Sample, cadence: int)
    requires cadence > 0
    ensures var kept := Latest(accepted, cadence);
      && (kept == [] <==> accepted == [])
      && Latest(accepted + [sample], cadence)
         == if kept != [] && Bucket(kept[|kept| - 1].recv, cadence) == Bucket(sample.recv, cadence)
            then kept[|kept| - 1 := sample] else kept + [sample]
  {
  }

  lemma {:induction false} LatestEnds(accepted: seq<Sample>, cadence: int)
    requires cadence > 0
    ensures var kept := Latest(accepted, cadence);
      && (kept == [] <==> accepted == [])
      && (accepted != [] ==> kept[|kept| - 1] == accepted[|accepted| - 1])
  {
  }

  /** The state a coin's history leaves: the reference's samples, the last receipt, the keys seen, and exactly the
      gaps the history leaves. */
  ghost predicate IsReplay(samples: seq<Sample>, gaps: seq<Gap>, lastRecv: int, seen: map<(nat, nat), (int, real)>,
                           history: seq<Event>, cadence: int)
  {
    && cadence > 0
    && var accepted := Accepted(history);
    && samples == Latest(accepted, cadence)
    && lastRecv == LastRecv(accepted)
    && Chronological(accepted)
    && Keys(accepted, seen)
    && gaps == GapsOf(history)
  }

  lemma AfterReceipt(samples: seq<Sample>, gaps: seq<Gap>, lastRecv: int, seen: map<(nat, nat), (int, real)>,
                     history: seq<Event>, cadence: int, sample: Sample)
    requires IsReplay(samples, gaps, lastRecv, seen, history, cadence) && sample.recv >= lastRecv
    ensures var same := samples != [] && Bucket(samples[|samples| - 1].recv, cadence) == Bucket(sample.recv, cadence);
      IsReplay(if same then samples[|samples| - 1 := sample] else samples + [sample], Closed(gaps, sample.recv),
               sample.recv, seen[(sample.session, sample.number) := (sample.recv, sample.value)],
               history + [Received(sample)], cadence)
    ensures OneOpen(gaps)
  {
    hide GapsOf, OneOpen, HasOpen, Bucket, Keys, Chronological, Closed, Latest;
    var accepted := Accepted(history);
    ReceiptsUpTo(accepted, lastRecv);
    OpenIffUnanswered(history);
    GapsSnoc(history, Received(sample));
    LatestSnoc(accepted, sample, cadence);
    SeenSnoc(accepted, seen, sample);
    ChronologicalSnoc(accepted, sample);
    AcceptedSnoc(history, Received(sample));
  }

  /** Why a record cannot follow the accepted ones, if it cannot. */
  function Refusal(accepted: seq<Sample>, sample: Sample, refreshed: bool, cadence: int): Option<Error>
    requires cadence > 0
  {
    var sameBucket := accepted != [] && Bucket(accepted[|accepted| - 1].recv, cadence) == Bucket(sample.recv, cadence);
    if sample.recv < LastRecv(accepted) then Some(BackwardsTime)
    else if exists i :: 0 <= i < |accepted| && accepted[i].session == sample.session && accepted[i].number == sample.number
    then Some(RepeatedRecord)
    else if sameBucket != refreshed then Some(RefreshMismatch)
    else None
  }

  /** The fields answer the questions the refusal asks of the history. */
  lemma RefusalFromFields(samples: seq<Sample>, gaps: seq<Gap>, lastRecv: int, seen: map<(nat, nat), (int, real)>,
                          history: seq<Event>, cadence: int, sample: Sample, refreshed: bool)
    requires IsReplay(samples, gaps, lastRecv, seen, history, cadence)
    ensures cadence > 0
    ensures
      var same := samples != [] && Bucket(samples[|samples| - 1].recv, cadence) == Bucket(sample.recv, cadence);
      Refusal(Accepted(history), sample, refreshed, cadence)
      == if sample.recv < lastRecv then Some(BackwardsTime)
         else if (sample.session, sample.number) in seen then Some(RepeatedRecord)
         else if same != refreshed then Some(RefreshMismatch)
         else None
  {
  }

  // ---------------------------------------------------------------- one coin

  class CoinState {
    var samples: seq<Sample>
    var gaps: seq<Gap>
    var lastRecv: int
    var seen: map<(nat, nat), (int, real)>
    ghost var history: seq<Event>

    ghost predicate Valid(cadence: int)
      reads this
    {
      IsReplay(samples, gaps, lastRecv, seen, history, cadence)
    }

    constructor (cadence: int)
      requires cadence > 0
      ensures Valid(cadence) && history == []
    {
      samples, gaps, lastRecv, seen := [], [], 0, map[];
      history := [];
    }

    /** The last open gap, searched from the back. */
    method OpenGap() returns (found: Option<nat>)
      ensures found.Some? ==> found.value < |gaps| && IsOpen(gaps[found.value])
      ensures found.None? <==> !HasOpen(gaps)
    {
      var i := |gaps|;
      while i > 0
        invariant 0 <= i <= |gaps|
        invariant forall k :: i <= k < |gaps| ==> !IsOpen(gaps[k])
      {
        i := i - 1;
        if gaps[i].end.None? {
          return Some(i);
        }
      }
      found := None;
    }

    /** Opens a gap when a record was accepted and none is open. */
    method Disconnect(recv: int, ghost cadence: int)
      requires Valid(cadence)
      modifies this
      ensures Valid(cadence) && history == old(history) + [Lost(recv)]
      ensures gaps == old(gaps) + if old(lastRecv) != 0 && !HasOpen(old(gaps)) then [LossGap(old(lastRecv), recv, None)]
                                  else []
    {
      hide GapsOf, HasOpen, OneOpen, Latest, Chronological;
      var open := OpenGap();
      AcceptedSnoc(history, Lost(recv));
      OpenIffUnanswered(history);
      GapsSnoc(history, Lost(recv));
      if lastRecv != 0 && open.None? {
        var start := if lastRecv <= recv then lastRecv else recv;
        gaps := gaps + [Gap(start, None, Disconnection, if recv >= start then recv else start)];
      }
      history := history + [Lost(recv)];
    }

    method Overflow(recv: int, from: int, to: int, ghost cadence: int)
      requires Valid(cadence)
      modifies this
      ensures Valid(cadence) && history == old(history) + [Overflowed(recv, from, to)]
      ensures gaps == old(gaps) + [OverflowGap(recv, from, to)]
    {
      hide GapsOf, Latest, Chronological;
      AcceptedSnoc(history, Overflowed(recv, from, to));
      GapsSnoc(history, Overflowed(recv, from, to));
      gaps := gaps + [Gap(from, Some(if to >= recv then to else recv), Reason.Overflow, from)];
      history := history + [Overflowed(recv, from, to)];
    }

    predicate SameBucket(recv: int, cadence: int)
      requires cadence > 0
      reads this
    {
      samples != [] && Bucket(samples[|samples| - 1].recv, cadence) == Bucket(recv, cadence)
    }

    /** Accepts a record: it closes the open gap, and replaces the last sample or starts a new bucket. */
    method Accept(sample: Sample, refreshed: bool, cadence: int) returns (error: Option<Error>)
      requires Valid(cadence)
      modifies this
      ensures cadence > 0 && error == Refusal(old(Accepted(history)), sample, refreshed, cadence)
      ensures error.None? ==>
        && Valid(cadence) && history == old(history) + [Received(sample)]
        && |samples| == old(|samples|) + if refreshed then 0 else 1
    {
      hide HasOpen, OneOpen, Bucket, Closed, IsReplay, Refusal;
      RefusalFromFields(samples, gaps, lastRecv, seen, history, cadence, sample, refreshed);
      if sample.recv < lastRecv {
        return Some(BackwardsTime);
      }
      var id := (sample.session, sample.number);
      if id in seen {
        return Some(RepeatedRecord);
      }
      var sameBucket := SameBucket(sample.recv, cadence);
      AfterReceipt(samples, gaps, lastRecv, seen, history, cadence, sample);
      seen := seen[id := (sample.recv, sample.value)];
      CloseGap(sample.recv);
      if sameBucket != refreshed {
        return Some(RefreshMismatch);
      }
      if sameBucket {
        samples := samples[|samples| - 1 := sample];
      } else {
        samples := samples + [sample];
      }
      lastRecv := sample.recv;
      history := history + [Received(sample)];
      return None;
    }

    /** Ends the open gap, if any, at the record. */
    method CloseGap(recv: int)
      requires OneOpen(gaps)
      modifies this`gaps
      ensures gaps == Closed(old(gaps), recv)
    {
      var open := OpenGap();
      if open.Some? {
        gaps := gaps[open.value := gaps[open.value].(end := Some(recv))];
      }
    }
  }

  // ---------------------------------------------------------------- what the samples are

  /** No later record falls in the same bucket. */
  ghost predicate Unreplaced(accepted: seq<Sample>, i: nat, cadence: int)
    requires cadence > 0 && i < |accepted|
  {
    forall j :: i < j < |accepted| ==> Bucket(accepted[j].recv, cadence) != Bucket(accepted[i].recv, cadence)
  }

  ghost predicate BucketsRise(samples: seq<Sample>, cadence: int)
    requires cadence > 0
  {
    forall i, j :: 0 <= i < j < |samples| ==> Bucket(samples[i].recv, cadence) < Bucket(samples[j].recv, cadence)
  }

  ghost predicate IsLastPerBucket(kept: seq<Sample>, accepted: seq<Sample>, cadence: int)
    requires cadence > 0
  {
    forall s :: s in kept <==>
      exists i :: 0 <= i < |accepted| && accepted[i] == s && Unreplaced(accepted, i, cadence)
  }

  /** The samples are the last accepted record of each bucket, with strictly increasing buckets. */
  lemma {:induction false} LatestIsLastPerBucket(accepted: seq<Sample>, cadence: int)
    requires cadence > 0 && Chronological(accepted)
    ensures BucketsRise(Latest(accepted, cadence), cadence)
    ensures IsLastPerBucket(Latest(accepted, cadence), accepted, cadence)
  {
    hide Bucket, IsLastPerBucket, BucketsRise, Unreplaced, Latest, Chronological;
    if accepted == [] {
      NoRecords(cadence);
    } else {
      var front := accepted[..|accepted| - 1];
      var last := accepted[|accepted| - 1];
      ChronologicalFront(accepted);
      LatestIsLastPerBucket(front, cadence);
      LatestSnoc(front, last, cadence);
      LatestEnds(front, cadence);
      LastSplit(accepted);
      if front == [] {
        OnlyRecord(last, cadence);
      } else {
        BucketIsMonotone(front[|front| - 1].recv, last.recv, cadence);
        NextKept(front, last, Latest(front, cadence), cadence);
      }
    }
  }

  lemma ChronologicalFront(accepted: seq<Sample>)
    requires Chronological(accepted) && accepted != []
    ensures var front := accepted[..|accepted| - 1];
      && Chronological(front)
      && (front != [] ==> front[|front| - 1].recv <= accepted[|accepted| - 1].recv)
  {
  }

  lemma NoRecords(cadence: int)
    requires cadence > 0
    ensures BucketsRise(Latest([], cadence), cadence) && IsLastPerBucket(Latest([], cadence), [], cadence)
  {
  }

  lemma OnlyRecord(last: Sample, cadence: int)
    requires cadence > 0
    ensures BucketsRise([last], cadence) && IsLastPerBucket([last], [last], cadence)
  {
  }

  lemma NextKept(front: seq<Sample>, last: Sample, kept: seq<Sample>, cadence: int)
    requires cadence > 0 && kept != [] && front != [] && kept[|kept| - 1] == front[|front| - 1]
    requires BucketsRise(kept, cadence) && IsLastPerBucket(kept, front, cadence)
    requires Bucket(front[|front| - 1].recv, cadence) <= Bucket(last.recv, cadence)
    ensures var same := Bucket(kept[|kept| - 1].recv, cadence) == Bucket(last.recv, cadence);
      && var kept' := if same then kept[|kept| - 1 := last] else kept + [last];
      && BucketsRise(kept', cadence) && IsLastPerBucket(kept', front + [last], cadence)
  {
    hide Bucket;
    var all := front + [last];
    var top := Bucket(last.recv, cadence);
    var same := Bucket(kept[|kept| - 1].recv, cadence) == top;
    var kept' := if same then kept[|kept| - 1 := last] else kept + [last];
    forall s | s in kept'
      ensures exists i :: 0 <= i < |all| && all[i] == s && Unreplaced(all, i, cadence)
    {
      if s == last {
        assert all[|front|] == last && Unreplaced(all, |front|, cadence);
      } else {
        var k :| 0 <= k < |kept'| && kept'[k] == s;
        assert s == kept[k] && s in kept && Bucket(s.recv, cadence) < top;
        var i :| 0 <= i < |front| && front[i] == s && Unreplaced(front, i, cadence);
        assert all[i] == s && Unreplaced(all, i, cadence);
      }
    }
    forall i | 0 <= i < |all| && Unreplaced(all, i, cadence)
      ensures all[i] in kept'
    {
      if i == |front| {
        assert kept'[|kept'| - 1] == last;
      } else {
        assert all[i] == front[i] && all[|front|] == last && Bucket(all[i].recv, cadence) != top;
        assert Unreplaced(front, i, cadence) by {
          assert forall j :: i < j < |front| ==> all[j] == front[j];
        }
        assert front[i] in kept;
        var k :| 0 <= k < |kept| && kept[k] == front[i];
        assert kept'[k] == kept[k];
      }
    }
  }

  // ---------------------------------------------------------------- the record loop

  /** What one record means for a coin. */
  function EventOf(r: Record, coin: nat): Option<Event> {
    if r.Conn? && r.state == Disconnected then Some(Lost(r.recv))
    else if r.Drop? then Some(Overflowed(r.recv, r.from, r.to))
    else if r.Obs? && r.coin == coin && r.accepted && r.value.Some? then
      Some(Received(Sample(r.recv, r.value.value, r.session, r.number)))
    else None
  }

  /** What a list of records means for one coin. */
  function HistoryOf(records: seq<Record>, coin: nat): seq<Event> {
    if records == [] then []
    else
      var front := HistoryOf(records[..|records| - 1], coin);
      var e := EventOf(records[|records| - 1], coin);
      if e.Some? then front + [e.value] else front
  }

  /** The session of the last connection. */
  function SessionOf(records: seq<Record>): Option<nat> {
    if records == [] then None
    else
      var r := records[|records| - 1];
      if r.Conn? && r.state == Connected then Some(r.session) else SessionOf(records[..|records| - 1])
  }

  /** Why a record cannot follow the given ones, if it cannot. */
  function RecordError(before: seq<Record>, r: Record, coins: seq<nat>, cadence: int): Option<Error>
    requires cadence > 0
  {
    if r.Conn? then if r.state == OtherState then Some(UnknownState) else None
    else if r.Drop? then None
    else if r.Unrecognised? then Some(UnknownRecord)
    else if r.coin !in coins || !r.knownKind then Some(UnrecordedCoin)
    else if SessionOf(before) != Some(r.session) then Some(WrongSession)
    else if !r.accepted then None
    else if r.parsed.None? || r.value != r.parsed then Some(ValueMismatch)
    else if r.value.value < 0.0 then Some(NegativeValue)
    else
      Refusal(Accepted(HistoryOf(before, r.coin)), Sample(r.recv, r.value.value, r.session, r.number), r.refreshed,
              cadence)
  }

  /** The error of the first record that cannot follow the ones before it. */
  function FirstError(records: seq<Record>, coins: seq<nat>, cadence: int): Option<Error>
    requires cadence > 0
  {
    if records == [] then None
    else
      var front := records[..|records| - 1];
      var earlier := FirstError(front, coins, cadence);
      if earlier.Some? then earlier else RecordError(front, records[|records| - 1], coins, cadence)
  }

  function CountObs(records: seq<Record>, accepted: bool): nat {
    if records == [] then 0
    else
      var r := records[|records| - 1];
      CountObs(records[..|records| - 1], accepted) + if r.Obs? && r.accepted == accepted then 1 else 0
  }

  function CountDropped(records: seq<Record>): nat {
    if records == [] then 0
    else
      var r := records[|records| - 1];
      CountDropped(records[..|records| - 1]) + if r.Drop? then r.count else 0
  }

  datatype Report = Report(dropped: nat, rejected: nat, refreshed: nat, accepted: nat)

  /** The states belong to different coins and are different objects. */
  ghost predicate Separate(states: map<nat, CoinState>) {
    forall c, d :: c in states && d in states && c != d ==> states[c] != states[d]
  }

  /** Every coin's state replays what the records mean for it. */
  ghost predicate AllReplay(states: map<nat, CoinState>, records: seq<Record>, cadence: int)
    reads set c | c in states :: states[c]
  {
    forall c :: c in states ==> states[c].Valid(cadence) && states[c].history == HistoryOf(records, c)
  }

  method MakeStates(coins: seq<nat>, cadence: int) returns (states: map<nat, CoinState>, keys: seq<nat>)
    requires cadence > 0
    ensures states.Keys == Elems(coins) && Elems(keys) == states.Keys && Distinct(keys)
    ensures Separate(states) && fresh(set c | c in states :: states[c])
    ensures AllReplay(states, [], cadence)
  {
    states, keys := map[], [];
    for i := 0 to |coins|
      invariant states.Keys == Elems(coins[..i]) && Elems(keys) == states.Keys && Distinct(keys)
      invariant Separate(states) && fresh(set c | c in states :: states[c])
      invariant AllReplay(states, [], cadence)
    {
      assert Elems(coins[..i + 1]) == Elems(coins[..i]) + {coins[i]};
      if coins[i] !in states {
        var st := new CoinState(cadence);
        states := states[coins[i] := st];
        assert Elems(keys + [coins[i]]) == Elems(keys) + {coins[i]};
        keys := keys + [coins[i]];
      }
    }
    TakeAll(coins);
  }

  lemma HistorySnoc(records: seq<Record>, r: Record, coin: nat)
    ensures HistoryOf(records + [r], coin)
         == if EventOf(r, coin).Some? then HistoryOf(records, coin) + [EventOf(r, coin).value]
            else HistoryOf(records, coin)
  {
  }

  /** The coins in `told` have heard the record; the others have not. */
  ghost predicate PartlyTold(states: map<nat, CoinState>, before: seq<Record>, r: Record, told: set<nat>, cadence: int)
    reads set c | c in states :: states[c]
  {
    forall c :: c in states ==>
      states[c].Valid(cadence) && states[c].history == HistoryOf(if c in told then before + [r] else before, c)
  }

  /** A lost connection or an overflow of the recorder reaches every coin. */
  method TellAll(states: map<nat, CoinState>, keys: seq<nat>, r: Record, ghost before: seq<Record>, ghost cadence: int)
    requires (r.Conn? && r.state == Disconnected) || r.Drop?
    requires Elems(keys) == states.Keys && Distinct(keys) && Separate(states) && AllReplay(states, before, cadence)
    modifies set c | c in states :: states[c]
    ensures AllReplay(states, before + [r], cadence)
  {
    hide HistoryOf, IsReplay;
    for i := 0 to |keys|
      invariant PartlyTold(states, before, r, Elems(keys[..i]), cadence)
    {
      assert keys[i] in Elems(keys);
      assert keys[i] !in Elems(keys[..i]);
      assert Elems(keys[..i + 1]) == Elems(keys[..i]) + {keys[i]};
      HistorySnoc(before, r, keys[i]);
      TellOne(states, keys[i], r, before, Elems(keys[..i]), cadence);
    }
    TakeAll(keys);
  }

  method TellOne(states: map<nat, CoinState>, coin: nat, r: Record, ghost before: seq<Record>, ghost told: set<nat>,
                 ghost cadence: int)
    requires (r.Conn? && r.state == Disconnected) || r.Drop?
    requires Separate(states) && coin in states && coin !in told
    requires PartlyTold(states, before, r, told, cadence)
    modifies states[coin]
    ensures PartlyTold(states, before, r, told + {coin}, cadence)
  {
    hide HistoryOf, IsReplay;
    HistorySnoc(before, r, coin);
    if r.Conn? {
      states[coin].Disconnect(r.recv, cadence);
    } else {
      states[coin].Overflow(r.recv, r.from, r.to, cadence);
    }
  }

  /** One observation record: refused for the reason the records before it give, or taken by its coin. */
  method Observe(states: map<nat, CoinState>, ghost coins: seq<nat>, r: Record, session: Option<nat>,
                 ghost before: seq<Record>, cadence: int)
    returns (error: Option<Error>)
    requires r.Obs? && cadence > 0 && states.Keys == Elems(coins) && Separate(states)
    requires AllReplay(states, before, cadence) && session == SessionOf(before)
    modifies set c | c in states :: states[c]
    ensures error == RecordError(before, r, coins, cadence)
    ensures error.None? ==> AllReplay(states, before + [r], cadence)
  {
    hide HistoryOf, IsReplay, Refusal, SessionOf;
    assert r.coin in states <==> r.coin in coins;
    forall c | c in states
      ensures EventOf(r, c).None? ==> HistoryOf(before + [r], c) == HistoryOf(before, c)
    {
      HistorySnoc(before, r, c);
    }
    if r.coin !in states || !r.knownKind {
      return Some(UnrecordedCoin);
    }
    if session != Some(r.session) {
      return Some(WrongSession);
    }
    if !r.accepted {
      return None;
    }
    if r.parsed.None? || r.value != r.parsed {
      return Some(ValueMismatch);
    }
    if r.value.value < 0.0 {
      return Some(NegativeValue);
    }
    HistorySnoc(before, r, r.coin);
    error := states[r.coin].Accept(Sample(r.recv, r.value.value, r.session, r.number), r.refreshed, cadence);
  }

  /** How many samples the coins hold together. */
  function SampleTotal(keys: seq<nat>, records: seq<Record>, cadence: int): nat
    requires cadence > 0
  {
    if keys == [] then 0
    else |Latest(Accepted(HistoryOf(records, keys[0])), cadence)| + SampleTotal(keys[1..], records, cadence)
  }

  ghost predicate SameSamples(before: seq<Record>, after: seq<Record>, coin: nat) {
    Accepted(HistoryOf(after, coin)) == Accepted(HistoryOf(before, coin))
  }

  lemma {:induction false} TotalStays(keys: seq<nat>, before: seq<Record>, after: seq<Record>, cadence: int)
    requires cadence > 0 && forall c :: c in keys ==> SameSamples(before, after, c)
    ensures SampleTotal(keys, after, cadence) == SampleTotal(keys, before, cadence)
  {
    hide Latest, Accepted, HistoryOf;
    if keys != [] {
      assert keys[0] in keys && SameSamples(before, after, keys[0]);
      TotalStays(keys[1..], before, after, cadence);
    }
  }

  lemma {:induction false} TotalGrows(keys: seq<nat>, before: seq<Record>, after: seq<Record>, coin: nat, d: nat,
                                      cadence: int)
    requires cadence > 0 && Distinct(keys) && coin in keys
    requires forall c :: c in keys && c != coin ==> SameSamples(before, after, c)
    requires |Latest(Accepted(HistoryOf(after, coin)), cadence)|
          == |Latest(Accepted(HistoryOf(before, coin)), cadence)| + d
    ensures SampleTotal(keys, after, cadence) == SampleTotal(keys, before, cadence) + d
  {
    hide Latest, Accepted, HistoryOf;
    if keys[0] == coin {
      TotalStays(keys[1..], before, after, cadence);
    } else {
      assert SameSamples(before, after, keys[0]);
      TotalGrows(keys[1..], before, after, coin, d, cadence);
    }
  }

  /** The counters after one more record that raised no error. */
  lemma CountersAfter(keys: seq<nat>, before: seq<Record>, r: Record, coins: seq<nat>, cadence: int)
    requires cadence > 0 && Distinct(keys) && Elems(keys) == Elems(coins)
    requires RecordError(before, r, coins, cadence) == None
    ensures SampleTotal(keys, before + [r], cadence)
         == SampleTotal(keys, before, cadence) + if r.Obs? && r.accepted && !r.refreshed then 1 else 0
  {
    hide Latest, Accepted, HistoryOf, Refusal, SessionOf;
    forall c | !(r.Obs? && r.accepted && c == r.coin)
      ensures SameSamples(before, before + [r], c)
    {
      HistorySnoc(before, r, c);
      if EventOf(r, c).Some? {
        AcceptedSnoc(HistoryOf(before, c), EventOf(r, c).value);
      }
    }
    if r.Obs? && r.accepted {
      var sample := Sample(r.recv, r.value.value, r.session, r.number);
      assert r.coin in Elems(coins) && r.coin in Elems(keys);
      HistorySnoc(before, r, r.coin);
      AcceptedSnoc(HistoryOf(before, r.coin), Received(sample));
      SampleCount(Accepted(HistoryOf(before, r.coin)), sample, r.refreshed, cadence);
      TotalGrows(keys, before, before + [r], r.coin, if r.refreshed then 0 else 1, cadence);
    } else {
      TotalStays(keys, before, before + [r], cadence);
    }
  }

  lemma SampleCount(accepted: seq<Sample>, sample: Sample, refreshed: bool, cadence: int)
    requires cadence > 0 && Refusal(accepted, sample, refreshed, cadence) == None
    ensures |Latest(accepted + [sample], cadence)| == |Latest(accepted, cadence)| + if refreshed then 0 else 1
  {
  }

  /** The counters of a report agree with the records. */
  ghost predicate Counts(report: Report, keys: seq<nat>, records: seq<Record>, cadence: int)
    requires cadence > 0
  {
    && report.dropped == CountDropped(records)
    && report.rejected == CountObs(records, false)
    && report.accepted + report.refreshed == CountObs(records, true)
    && report.accepted == SampleTotal(keys, records, cadence)
  }

  function Counted(report: Report, r: Record): Report {
    if r.Drop? then report.(dropped := report.dropped + r.count)
    else if r.Obs? && !r.accepted then report.(rejected := report.rejected + 1)
    else if r.Obs? && r.refreshed then report.(refreshed := report.refreshed + 1)
    else if r.Obs? then report.(accepted := report.accepted + 1)
    else report
  }

  lemma CountsAfter(report: Report, keys: seq<nat>, before: seq<Record>, r: Record, coins: seq<nat>, cadence: int)
    requires cadence > 0 && Distinct(keys) && Elems(keys) == Elems(coins)
    requires RecordError(before, r, coins, cadence) == None && Counts(report, keys, before, cadence)
    ensures Counts(Counted(report, r), keys, before + [r], cadence)
  {
    hide RecordError, SampleTotal;
    assert (before + [r])[..|before|] == before;
    CountersAfter(keys, before, r, coins, cadence);
  }

  lemma {:induction false} NothingYet(keys: seq<nat>, cadence: int)
    requires cadence > 0
    ensures SampleTotal(keys, [], cadence) == 0
  {
    if keys != [] {
      NothingYet(keys[1..], cadence);
    }
  }

  lemma NothingCounted(keys: seq<nat>, cadence: int)
    requires cadence > 0
    ensures Counts(Report(0, 0, 0, 0), keys, [], cadence)
  {
    NothingYet(keys, cadence);
  }

  lemma {:induction false} ErrorStays(records: seq<Record>, n: nat, coins: seq<nat>, cadence: int)
    requires cadence > 0 && n <= |records| && FirstError(records[..n], coins, cadence).Some?
    ensures FirstError(records, coins, cadence) == FirstError(records[..n], coins, cadence)
  {
    hide RecordError;
    if n < |records| {
      assert records[..|records| - 1][..n] == records[..n];
      ErrorStays(records[..|records| - 1], n, coins, cadence);
    } else {
      assert records[..n] == records;
    }
  }

  method Process(states: map<nat, CoinState>, keys: seq<nat>, ghost coins: seq<nat>, r: Record, session: Option<nat>,
                 ghost before: seq<Record>, cadence: int)
    returns (error: Option<Error>)
    requires cadence > 0 && states.Keys == Elems(coins) && Elems(keys) == states.Keys && Distinct(keys)
    requires Separate(states) && AllReplay(states, before, cadence) && session == SessionOf(before)
    modifies set c | c in states :: states[c]
    ensures error == RecordError(before, r, coins, cadence)
    ensures error.None? ==> AllReplay(states, before + [r], cadence)
  {
    hide HistoryOf, IsReplay, SessionOf, Refusal;
    match r
    case Conn(_, _, state) =>
      if state == Disconnected {
        TellAll(states, keys, r, before, cadence);
      } else {
        forall c | c in states
          ensures HistoryOf(before + [r], c) == HistoryOf(before, c)
        {
          HistorySnoc(before, r, c);
        }
      }
      error := if state == OtherState then Some(UnknownState) else None;
    case Drop(_, _, _, _) =>
      TellAll(states, keys, r, before, cadence);
      error := None;
    case Unrecognised(_) =>
      error := Some(UnknownRecord);
    case Obs(_, _, _, _, _, _, _, _, _) =>
      error := Observe(states, coins, r, session, before, cadence);
  }

  /** The whole recording: the first record that cannot follow the others stops it; otherwise every coin's state
      replays its part of the records, and the report counts them. */
  method LoadRecording(cadence: int, coins: seq<nat>, records: seq<Record>)
    returns (error: Option<Error>, states: map<nat, CoinState>, keys: seq<nat>, report: Report)
    ensures cadence <= 0 ==> error == Some(BadCadence)
    ensures cadence > 0 ==> error == FirstError(records, coins, cadence)
    ensures error.None? ==>
      && states.Keys == Elems(coins) && Elems(keys) == Elems(coins) && Distinct(keys)
      && AllReplay(states, records, cadence)
      && Counts(report, keys, records, cadence)
      && forall c :: c in states ==>
           && states[c].samples == Latest(Accepted(HistoryOf(records, c)), cadence)
           && states[c].gaps == GapsOf(HistoryOf(records, c))
  {
    hide AllReplay, Counts, RecordError, Separate, HistoryOf, GapsOf, Latest, Accepted;
    report := Report(0, 0, 0, 0);
    if cadence <= 0 {
      error, states, keys := Some(BadCadence), map[], [];
      return;
    }
    states, keys := MakeStates(coins, cadence);
    NothingCounted(keys, cadence);
    var session := None;
    for i := 0 to |records|
      invariant FirstError(records[..i], coins, cadence) == None
      invariant fresh(set c | c in states :: states[c])
      invariant AllReplay(states, records[..i], cadence)
      invariant session == SessionOf(records[..i])
      invariant Counts(report, keys, records[..i], cadence)
    {
      var r := records[i];
      ghost var before := records[..i];
      assert records[..i + 1] == before + [r] && records[..i + 1][..i] == before;
      error := Process(states, keys, coins, r, session, before, cadence);
      if error.Some? {
        ErrorStays(records, i + 1, coins, cadence);
        return;
      }
      CountsAfter(report, keys, before, r, coins, cadence);
      report := Counted(report, r);
      if r.Conn? && r.state == Connected {
        session := Some(r.session);
      }
    }
    assert records[..|records|] == records;
    ReplayedStates(states, records, cadence);
    error := None;
  }

  lemma ReplayedStates(states: map<nat, CoinState>, records: seq<Record>, cadence: int)
    requires cadence > 0 && AllReplay(states, records, cadence)
    ensures forall c :: c in states ==>
      && states[c].samples == Latest(Accepted(HistoryOf(records, c)), cadence)
      && states[c].gaps == GapsOf(HistoryOf(records, c))
  {
    hide Latest, Accepted, HistoryOf, GapsOf, Chronological, Keys;
  }

  // ---------------------------------------------------------------- what a loaded coin satisfies

  /** The gaps a history leaves: at most one is open, exactly when the connection was lost after the last record;
      and of each gap a loss leaves, whether a record lies strictly inside it. */
  ghost predicate GapsAreRight(history: seq<Event>) {
    && OneOpen(GapsOf(history))
    && (HasOpen(GapsOf(history)) <==> LastRecv(Accepted(history)) != 0 && Unanswered(history))
    && (forall i :: 0 <= i < |history| && Opens(history, i) ==> LossGapIsRight(history, i))
  }

  /** The gap of a loss is listed, ends at the next record, and holds a record strictly inside unless it is clean. */
  ghost predicate LossGapIsRight(history: seq<Event>, i: nat)
    requires i < |history| && Opens(history, i)
  {
    var before := Accepted(history[..i]);
    var g := LossGap(LastRecv(before), history[i].recv, NextReceipt(history, i + 1));
    && g in GapsOf(history)
    && (g.end.Some? ==> g.start <= g.end.value)
    && (AllOutside(Accepted(history), g) <==> CleanLoss(before, history[i].recv, g.end))
  }

  /** A loaded coin: its samples are the last accepted record of each bucket, in strictly increasing buckets; its
      gaps are those its history leaves, with no record strictly inside one exactly when its loss is clean. */
  lemma LoadedCoin(st: CoinState, cadence: int)
    requires st.Valid(cadence)
    ensures cadence > 0
    ensures BucketsRise(st.samples, cadence) && IsLastPerBucket(st.samples, Accepted(st.history), cadence)
    ensures |st.samples| <= |Accepted(st.history)|
    ensures st.gaps == GapsOf(st.history) && GapsAreRight(st.history)
  {
    hide Latest, HasOpen, OneOpen, Chronological, Unreplaced, Bucket, LossGapIsRight, GapsOf, Opens;
    LatestIsLastPerBucket(Accepted(st.history), cadence);
    LatestLength(Accepted(st.history), cadence);
    OpenIffUnanswered(st.history);
    forall i | 0 <= i < |st.history| && Opens(st.history, i)
      ensures LossGapIsRight(st.history, i)
    {
      LossGapStands(st.history, i);
    }
  }

  lemma LossGapStands(history: seq<Event>, i: nat)
    requires Chronological(Accepted(history)) && i < |history| && Opens(history, i)
    ensures LossGapIsRight(history, i)
  {
    hide Chronological, Opens, GapAt, AllOutside, Accepted, CleanLoss, GapsUpTo;
    LossGapHoldsNone(history, i);
    GapIsListed(history, i, |history|);
  }

  /** A loss stamped 15 after records at 10 and 20 leaves a gap that holds the second record. */
  lemma DirtyLossExample()
    ensures
      var before := [Received(Sample(10, 0.0, 0, 0)), Received(Sample(20, 0.0, 0, 1))];
      var history := before + [Lost(15)] + [Received(Sample(30, 0.0, 0, 2))];
      && Accepted(before) == [Sample(10, 0.0, 0, 0), Sample(20, 0.0, 0, 1)]
      && GapsOf(history) == [Gap(15, Some(30), Disconnection, 15)]
  {
    var before := [Received(Sample(10, 0.0, 0, 0)), Received(Sample(20, 0.0, 0, 1))];
    TwoReceived(Sample(10, 0.0, 0, 0), Sample(20, 0.0, 0, 1));
    LostThenReceived(before, 15, Sample(30, 0.0, 0, 2));
  }

  lemma TwoReceived(first: Sample, second: Sample)
    ensures var history := [Received(first), Received(second)];
      Accepted(history) == [first, second] && GapsOf(history) == [] && !Unanswered(history)
  {
    hide GapsOf;
    assert [Received(first)] == [] + [Received(first)];
    assert [Received(first), Received(second)] == [Received(first)] + [Received(second)];
    NoGaps();
    GapsSnoc([], Received(first));
    GapsSnoc([Received(first)], Received(second));
    AcceptedSnoc([], Received(first));
    AcceptedSnoc([Received(first)], Received(second));
  }

  lemma LostThenReceived(before: seq<Event>, recv: int, sample: Sample)
    requires GapsOf(before) == [] && !Unanswered(before) && LastRecv(Accepted(before)) != 0
    ensures GapsOf(before + [Lost(recv)] + [Received(sample)])
         == [LossGap(LastRecv(Accepted(before)), recv, Some(sample.recv))]
  {
    hide GapsOf, Accepted, Unanswered;
    GapsSnoc(before, Lost(recv));
    GapsSnoc(before + [Lost(recv)], Received(sample));
  }

  lemma {:induction false} GapIsListed(history: seq<Event>, i: nat, n: nat)
    requires i < n <= |history| && GapAt(history, i) != []
    ensures GapAt(history, i)[0] in GapsUpTo(history, n)
  {
    hide GapAt;
    if i < n - 1 {
      GapIsListed(history, i, n - 1);
    }
  }

  lemma {:induction false} LatestLength(accepted: seq<Sample>, cadence: int)
    requires cadence > 0
    ensures |Latest(accepted, cadence)| <= |accepted|
  {
    hide Bucket;
    if accepted != [] {
      LatestLength(accepted[..|accepted| - 1], cadence);
      LatestEnds(accepted[..|accepted| - 1], cadence);
    }
  }

  // ---------------------------------------------------------------- coverage

  function Expected(start: int, end: int, cadence: int): nat
    requires cadence > 0
  {
    if end <= start then 0 else (end - start) / cadence
  }

  /** The buckets that samples of a window fall in. */
  function Present(samples: seq<Sample>, start: int, end: int, cadence: int): set<int>
    requires cadence > 0
  {
    set i | 0 <= i < |samples| && start < samples[i].recv <= end :: Bucket(samples[i].recv, cadence)
  }

  function EndsBetween(a: int, b: int, cadence: int): set<int> {
    set k | a < k <= b :: k * cadence
  }

  lemma {:induction false} EndsBetweenSize(a: int, b: int, cadence: int)
    requires cadence > 0 && a <= b
    ensures |EndsBetween(a, b, cadence)| == b - a
    decreases b - a
  {
    if a == b {
      assert EndsBetween(a, b, cadence) == {};
    } else {
      EndsBetweenSize(a, b - 1, cadence);
      forall k | a < k <= b - 1
        ensures k * cadence != b * cadence
      {
        NextIntervalAbove(b, k, cadence);
      }
      assert EndsBetween(a, b, cadence) == EndsBetween(a, b - 1, cadence) + {b * cadence};
    }
  }

  /** On a window aligned with the cadence no more buckets are present than expected. */
  lemma CoverageAtMostOne(samples: seq<Sample>, a: int, b: int, cadence: int)
    requires cadence > 0 && a <= b
    ensures |Present(samples, a * cadence, b * cadence, cadence)| <= Expected(a * cadence, b * cadence, cadence) == b - a
  {
    var present := Present(samples, a * cadence, b * cadence, cadence);
    forall x | x in present
      ensures x in EndsBetween(a, b, cadence)
    {
      var i :| 0 <= i < |samples| && a * cadence < samples[i].recv <= b * cadence
               && x == Bucket(samples[i].recv, cadence);
      IntervalWithin(samples[i].recv, a, b, cadence);
    }
    EndsBetweenSize(a, b, cadence);
    SubsetSize(present, EndsBetween(a, b, cadence));
    AlignedLength(a, b, cadence);
  }

  lemma IntervalWithin(recv: int, a: int, b: int, cadence: int)
    requires cadence > 0 && a * cadence < recv <= b * cadence
    ensures a < Interval(recv, cadence) <= b
  {
    BucketIsCeiling(recv, cadence);
    NextIntervalAbove(Interval(recv, cadence), a, cadence);
    NextIntervalAbove(Interval(recv, cadence), b, cadence);
  }

  lemma AlignedLength(a: int, b: int, cadence: int)
    requires cadence > 0 && a <= b
    ensures Expected(a * cadence, b * cadence, cadence) == b - a
  {
    var n := b * cadence - a * cadence;
    assert n == (b - a) * cadence;
    ExactQuotient(b - a, cadence);
  }

  lemma ExactQuotient(k: nat, c: int)
    requires c > 0
    ensures (k * c) / c == k && k * c >= 0 && (k * c == 0 <==> k == 0)
  {
    var q := (k * c) / c;
    var r := (k * c) % c;
    assert k * c == q * c + r;
    assert (k - q) * c == r;
    NextIntervalAbove(k, q, c);
    NextIntervalAbove(q, k, c);
  }

  /** One receipt in every cadence interval that meets a window. */
  function OnePerInterval(a: int, n: nat, end: int, cadence: int): seq<Sample> {
    seq(n, k requires 0 <= k < n =>
      Sample(if (a + 1 + k) * cadence <= end then (a + 1 + k) * cadence else end, 0.0, 0, k))
  }

  lemma ReceiptPlace(k: int, a: int, b: int, start: int, end: int, cadence: int)
    requires cadence > 0 && a * cadence <= start < (a + 1) * cadence && start < end
    requires (b - 1) * cadence < end <= b * cadence && a < k <= b
    ensures var recv := if k * cadence <= end then k * cadence else end;
      start < recv <= end && Bucket(recv, cadence) == k * cadence
  {
    NextIntervalAbove(a + 1, k, cadence);
    NextIntervalAbove(k, b - 1, cadence);
    var recv := if k * cadence <= end then k * cadence else end;
    assert (k - 1) * cadence == k * cadence - cadence;
    NextIntervalAbove(k - 1, b - 1, cadence);
    IntervalWithin(recv, k - 1, k, cadence);
  }

  /** The intervals a window meets can all be present. */
  lemma AllCanBePresent(a: int, b: int, start: int, end: int, cadence: int)
    requires cadence > 0 && a * cadence <= start < (a + 1) * cadence && start < end
    requires (b - 1) * cadence < end <= b * cadence && a <= b
    ensures |Present(OnePerInterval(a, b - a, end, cadence), start, end, cadence)| == b - a
  {
    var samples := OnePerInterval(a, b - a, end, cadence);
    var present := Present(samples, start, end, cadence);
    forall k | a < k <= b
      ensures k * cadence in present
    {
      ReceiptPlace(k, a, b, start, end, cadence);
      assert samples[k - a - 1].recv == if k * cadence <= end then k * cadence else end;
    }
    forall x | x in present
      ensures x in EndsBetween(a, b, cadence)
    {
      var i :| 0 <= i < |samples| && start < samples[i].recv <= end && x == Bucket(samples[i].recv, cadence);
      ReceiptPlace(a + 1 + i, a, b, start, end, cadence);
    }
    assert present == EndsBetween(a, b, cadence);
    EndsBetweenSize(a, b, cadence);
  }

  /** No list of samples holds more buckets of a window than expected. */
  ghost predicate NeverOverfull(start: int, end: int, cadence: int)
    requires cadence > 0
  {
    forall samples :: |Present(samples, start, end, cadence)| <= Expected(start, end, cadence)
  }

  /** Coverage is a share of the expected buckets, whatever the samples, exactly on empty and on aligned windows. */
  lemma CoverageIsShareIffAligned(start: int, end: int, cadence: int)
    requires cadence > 0
    ensures NeverOverfull(start, end, cadence)
       <==> end <= start || (start % cadence == 0 && end % cadence == 0)
  {
    if end <= start {
      forall samples
        ensures |Present(samples, start, end, cadence)| <= Expected(start, end, cadence)
      {
        assert Present(samples, start, end, cadence) == {};
      }
    } else {
      var a, b := start / cadence, Interval(end, cadence);
      BucketIsCeiling(end, cadence);
      Floor(start, end, a, b, cadence);
      if start % cadence == 0 && end % cadence == 0 {
        forall samples
          ensures |Present(samples, start, end, cadence)| <= Expected(start, end, cadence)
        {
          CoverageAtMostOne(samples, a, b, cadence);
        }
      } else {
        AllCanBePresent(a, b, start, end, cadence);
      }
    }
  }

  lemma Floor(start: int, end: int, a: int, b: int, cadence: int)
    requires cadence > 0 && start < end && a == start / cadence && b == Interval(end, cadence)
    ensures a * cadence <= start < (a + 1) * cadence && (b - 1) * cadence < end <= b * cadence && a <= b
    ensures start % cadence == 0 <==> start == a * cadence
    ensures end % cadence == 0 <==> end == b * cadence
    ensures start != a * cadence || end != b * cadence ==> Expected(start, end, cadence) < b - a
  {
    BucketIsCeiling(end, cadence);
    FloorOf(start, a, cadence);
    CeilingOf(end, b, cadence);
    NextIntervalAbove(a, b, cadence);
    hide Interval, Bucket;
    if start != a * cadence || end != b * cadence {
      assert (b - a) * cadence == b * cadence - a * cadence;
      FewerWhole(end - start, b - a, b * cadence - a * cadence, cadence);
    }
  }

  lemma FloorOf(start: int, a: int, cadence: int)
    requires cadence > 0 && a == start / cadence
    ensures a * cadence <= start < (a + 1) * cadence && (a + 1) * cadence == a * cadence + cadence
    ensures start % cadence == 0 <==> start == a * cadence
  {
    assert start == a * cadence + start % cadence;
  }

  lemma CeilingOf(end: int, b: int, cadence: int)
    requires cadence > 0 && end <= b * cadence < end + cadence
    ensures (b - 1) * cadence < end <= b * cadence && (b - 1) * cadence == b * cadence - cadence
    ensures end % cadence == 0 <==> end == b * cadence
  {
    assert (b - 1) * cadence == b * cadence - cadence;
    if end == b * cadence {
      ModBetween(b * cadence, b, cadence);
    } else {
      ModBetween(end, b - 1, cadence);
    }
  }

  lemma FewerWhole(n: int, k: int, whole: int, cadence: int)
    requires cadence > 0 && 0 < n < whole
    requires whole == k * cadence
    ensures n / cadence < k
  {
    var q := n / cadence;
    assert n == q * cadence + n % cadence;
    NextIntervalAbove(k, q, cadence);
  }

  /** The remainder is what is left above the multiple at or below a number. */
  lemma ModBetween(x: int, k: int, cadence: int)
    requires cadence > 0 && k * cadence <= x < k * cadence + cadence
    ensures x / cadence == k && x % cadence == x - k * cadence
  {
    var q := x / cadence;
    assert x == q * cadence + x % cadence;
    NextIntervalAbove(q, k, cadence);
    NextIntervalAbove(k, q, cadence);
  }

  /** An unaligned window can hold more buckets than expected. */
  lemma UnalignedCoverage()
    ensures var samples := [Sample(10, 0.0, 0, 0), Sample(11, 0.0, 0, 1)];
      |Present(samples, 9, 11, 10)| == 2 && Expected(9, 11, 10) == 0
  {
    var samples := [Sample(10, 0.0, 0, 0), Sample(11, 0.0, 0, 1)];
    assert Bucket(samples[0].recv, 10) == 10 && Bucket(samples[1].recv, 10) == 20;
    assert Present(samples, 9, 11, 10) == {10, 20};
  }
}
