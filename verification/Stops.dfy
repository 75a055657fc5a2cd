/**
  The stop engine: the debounced trailing ratchet, the intrabar stop fill, and the safety of a
  position's stop over all its bars.
 */
module Stops {
  import opened Common

  datatype Update = Update(highWater: real, candidate: real, replaced: bool)

  /** The trigger price right at the trailing distance. */
  function AtDistance(side: Side, highWater: real, fraction: real): real {
    if side == Long then highWater * (1.0 - fraction) else highWater * (1.0 + fraction)
  }

  /** The relative distance test of the debounce. */
  predicate MovesEnough(candidate: real, trigger: real, minMove: real)
    requires trigger > 0.0
  {
    Abs(candidate - trigger) / trigger >= minMove
  }

  /** One debounced trailing update; `candidate` is 0 when the trigger stays. */
  function TrailingUpdate(side: Side, mark: real, highWater: real, fraction: real, minMove: real, trigger: real,
                          allowWiden: bool, bypass: bool): Update {
    if mark <= 0.0 || fraction <= 0.0 then Update(highWater, 0.0, false)
    else
      var start := if highWater <= 0.0 then mark else highWater;
      var hw := if side == Long then Max(mark, start) else Min(mark, start);
      var candidate := AtDistance(side, hw, fraction);
      var moved := Abs(candidate - trigger) > 0.000000001;
      if candidate <= 0.0 then Update(hw, 0.0, false)
      else if trigger <= 0.0 then Update(hw, candidate, true)
      else if !(if side == Long then candidate > trigger else candidate < trigger) then
        if allowWiden && moved then Update(hw, candidate, true) else Update(hw, 0.0, false)
      else if bypass && moved then Update(hw, candidate, true)
      else if MovesEnough(candidate, trigger, minMove) then Update(hw, candidate, true)
      else Update(hw, 0.0, false)
  }

  /** At least as protective: never lower for a long, never higher for a short. */
  predicate Tighter(side: Side, a: real, b: real) { if side == Long then a >= b else a <= b }

  // ---------------------------------------------------------------- the ratchet over a run of marks

  /** The trailing stop's state and the number of replacements since it was armed. */
  datatype Trail = Trail(highWater: real, trigger: real, moves: nat)

  /** The arming update on the entry mark: the high water starts at the anchor. */
  function Arm(side: Side, anchor: real, mark: real, fraction: real, minMove: real): Trail {
    var u := TrailingUpdate(side, mark, anchor, fraction, minMove, 0.0, false, false);
    Trail(u.highWater, u.candidate, 0)
  }

  function Step(side: Side, fraction: real, minMove: real, t: Trail, mark: real): Trail {
    var u := TrailingUpdate(side, mark, t.highWater, fraction, minMove, t.trigger, false, false);
    Trail(u.highWater, if u.replaced then u.candidate else t.trigger, if u.replaced then t.moves + 1 else t.moves)
  }

  function Follow(side: Side, fraction: real, minMove: real, t: Trail, marks: seq<real>): Trail {
    if marks == [] then t
    else Step(side, fraction, minMove, Follow(side, fraction, minMove, t, marks[..|marks| - 1]), marks[|marks| - 1])
  }

  /** The most favourable of the starting price and the positive marks. */
  function Best(side: Side, start: real, marks: seq<real>): real {
    if marks == [] then start
    else
      var rest := Best(side, start, marks[..|marks| - 1]);
      var mark := marks[|marks| - 1];
      if mark <= 0.0 then rest else if side == Long then Max(mark, rest) else Min(mark, rest)
  }

  function Power(x: real, k: nat): real { if k == 0 then 1.0 else x * Power(x, k - 1) }

  /** The fractions a trailing stop can hold: a long's must leave a positive trigger. */
  predicate Holdable(side: Side, fraction: real) { 0.0 < fraction && (side == Long ==> fraction < 1.0) }

  function MoveFactor(side: Side, minMove: real): real { if side == Long then 1.0 + minMove else 1.0 - minMove }

  /** Debounce bracket: the trigger lags the trailing distance by less than the minimum move. */
  ghost predicate Bracketed(side: Side, fraction: real, minMove: real, t: Trail) {
    && t.highWater > 0.0 && t.trigger > 0.0
    && if side == Long then t.trigger <= AtDistance(side, t.highWater, fraction) <= t.trigger * (1.0 + minMove)
       else t.trigger >= AtDistance(side, t.highWater, fraction) >= t.trigger * (1.0 - minMove)
  }

  lemma AtDistancePositive(side: Side, hw: real, fraction: real)
    requires Holdable(side, fraction) && hw > 0.0
    ensures AtDistance(side, hw, fraction) > 0.0
  {
  }

  lemma AtDistanceMonotone(side: Side, hw: real, hw': real, fraction: real)
    requires Holdable(side, fraction) && Tighter(side, hw', hw)
    ensures Tighter(side, AtDistance(side, hw', fraction), AtDistance(side, hw, fraction))
  {
    if side == Long {
      ScaledOrder(hw, hw', 1.0 - fraction, AtDistance(side, hw, fraction), AtDistance(side, hw', fraction));
    } else {
      ScaledOrder(hw', hw, 1.0 + fraction, AtDistance(side, hw', fraction), AtDistance(side, hw, fraction));
    }
  }

  lemma ScaledOrder(a: real, b: real, c: real, scaledA: real, scaledB: real)
    requires a <= b && c >= 0.0 && scaledA == a * c && scaledB == b * c
    ensures scaledA <= scaledB
  {
  }

  lemma Scale(a: real, b: real, c: real)
    requires a <= b && c >= 0.0
    ensures a * c <= b * c
  {
  }

  /** The debounce test, multiplied out. */
  lemma MoveTest(candidate: real, trigger: real, minMove: real)
    requires trigger > 0.0
    ensures MovesEnough(candidate, trigger, minMove) <==> Abs(candidate - trigger) >= minMove * trigger
  {
  }

  lemma ArmIsBracketed(side: Side, anchor: real, mark: real, fraction: real, minMove: real)
    requires Holdable(side, fraction) && anchor > 0.0 && mark > 0.0 && minMove >= 0.0
    ensures var t := Arm(side, anchor, mark, fraction, minMove);
            && Bracketed(side, fraction, minMove, t)
            && t.trigger == AtDistance(side, t.highWater, fraction)
            && t.highWater == Best(side, anchor, [mark])
  {
    var t := Arm(side, anchor, mark, fraction, minMove);
    AtDistancePositive(side, t.highWater, fraction);
    Scale(0.0, minMove, t.trigger);
    assert [mark][..0] == [];
  }

  /** One step: the trigger only tightens, the bracket is kept, and a replacement moves it by at least
      the minimum move. */
  lemma StepFacts(side: Side, fraction: real, minMove: real, t: Trail, mark: real)
    requires Holdable(side, fraction) && minMove >= 0.0 && Bracketed(side, fraction, minMove, t)
    ensures var t' := Step(side, fraction, minMove, t, mark);
            && Bracketed(side, fraction, minMove, t')
            && Tighter(side, t'.trigger, t.trigger)
            && Tighter(side, t'.highWater, t.highWater)
            && (t'.moves == t.moves ==> t'.trigger == t.trigger)
            && (t'.moves != t.moves ==> t'.moves == t.moves + 1 && t'.trigger == AtDistance(side, t'.highWater, fraction))
            && (t'.moves != t.moves ==> Tighter(side, t'.trigger, t.trigger * MoveFactor(side, minMove)))
  {
    hide AtDistance, MovesEnough;
    BracketSpelled(t.trigger, minMove);
    if mark > 0.0 {
      var hw := if side == Long then Max(mark, t.highWater) else Min(mark, t.highWater);
      var candidate := AtDistance(side, hw, fraction);
      AtDistancePositive(side, hw, fraction);
      AtDistanceMonotone(side, t.highWater, hw, fraction);
      MoveTest(candidate, t.trigger, minMove);
      BracketSpelled(candidate, minMove);
    }
  }

  lemma BracketSpelled(x: real, minMove: real)
    requires x > 0.0 && minMove >= 0.0
    ensures x * (1.0 + minMove) == x + minMove * x && x * (1.0 - minMove) == x - minMove * x
    ensures minMove * x >= 0.0
  {
  }

  /** Over any run of marks with a constant fraction: the high water is the best price so far, the
      trigger never loosens, and it stays within one minimum move of the trailing distance. */
  lemma {:induction false} FollowKeeps(side: Side, fraction: real, minMove: real, t: Trail, marks: seq<real>)
    requires Holdable(side, fraction) && minMove >= 0.0 && Bracketed(side, fraction, minMove, t)
    ensures var t' := Follow(side, fraction, minMove, t, marks);
            && Bracketed(side, fraction, minMove, t')
            && t'.highWater == Best(side, t.highWater, marks)
            && Tighter(side, t'.trigger, t.trigger)
            && t'.moves >= t.moves
  {
    if marks != [] {
      var front := marks[..|marks| - 1];
      FollowKeeps(side, fraction, minMove, t, front);
      StepFacts(side, fraction, minMove, Follow(side, fraction, minMove, t, front), marks[|marks| - 1]);
    }
  }

  /** `to` is at least k minimum moves beyond `from`, compounded. */
  ghost predicate CompoundedBy(side: Side, minMove: real, k: nat, from: real, to: real) {
    Tighter(side, to, from * Power(MoveFactor(side, minMove), k))
  }

  /** k replacements need k minimum moves of the trigger: replacements cannot churn. */
  lemma {:induction false} MovesCompound(side: Side, fraction: real, minMove: real, t: Trail, marks: seq<real>)
    requires Holdable(side, fraction) && minMove >= 0.0 && Bracketed(side, fraction, minMove, t) && t.moves == 0
    ensures var t' := Follow(side, fraction, minMove, t, marks);
            CompoundedBy(side, minMove, t'.moves, t.trigger, t'.trigger)
    decreases |marks|
  {
    hide AtDistance, TrailingUpdate, Bracketed, MoveFactor, CompoundedBy, Step;
    if marks == [] {
      NoMoves(side, minMove, t.trigger);
    } else {
      var front := marks[..|marks| - 1];
      var mid := Follow(side, fraction, minMove, t, front);
      MovesCompound(side, fraction, minMove, t, front);
      FollowKeeps(side, fraction, minMove, t, front);
      var last := Step(side, fraction, minMove, mid, marks[|marks| - 1]);
      StepFacts(side, fraction, minMove, mid, marks[|marks| - 1]);
      BracketedPositive(side, fraction, minMove, mid);
      BracketedPositive(side, fraction, minMove, last);
      if last.moves != mid.moves {
        Compounded(side, minMove, mid.moves, t.trigger, mid.trigger, last.trigger);
      }
    }
  }

  lemma NoMoves(side: Side, minMove: real, x: real)
    ensures CompoundedBy(side, minMove, 0, x, x)
  {
  }

  lemma BracketedPositive(side: Side, fraction: real, minMove: real, t: Trail)
    requires Bracketed(side, fraction, minMove, t)
    ensures t.trigger > 0.0 && Tighter(side, AtDistance(side, t.highWater, fraction), t.trigger)
  {
  }

  lemma Compounded(side: Side, minMove: real, k: nat, start: real, mid: real, last: real)
    requires minMove >= 0.0 && mid > 0.0 && last > 0.0
    requires CompoundedBy(side, minMove, k, start, mid)
    requires Tighter(side, last, mid * MoveFactor(side, minMove))
    ensures CompoundedBy(side, minMove, k + 1, start, last)
  {
  }

  /** In prices: after k replacements the high water has compounded k minimum moves since arming. */
  lemma HighWaterCompounds(side: Side, anchor: real, entryMark: real, fraction: real, minMove: real, marks: seq<real>)
    requires Holdable(side, fraction) && anchor > 0.0 && entryMark > 0.0 && 0.0 <= minMove
    ensures var armed := Arm(side, anchor, entryMark, fraction, minMove);
            var t := Follow(side, fraction, minMove, armed, marks);
            CompoundedBy(side, minMove, t.moves, armed.highWater, t.highWater)
  {
    hide Arm, MoveFactor, AtDistance, Bracketed, CompoundedBy;
    var armed := Arm(side, anchor, entryMark, fraction, minMove);
    var t := Follow(side, fraction, minMove, armed, marks);
    ArmIsBracketed(side, anchor, entryMark, fraction, minMove);
    ArmedFresh(side, anchor, entryMark, fraction, minMove);
    FollowKeeps(side, fraction, minMove, armed, marks);
    MovesCompound(side, fraction, minMove, armed, marks);
    BracketedPositive(side, fraction, minMove, t);
    DistanceCancels(side, fraction, minMove, t.moves, armed.highWater, armed.trigger, t.highWater, t.trigger);
  }

  lemma ArmedFresh(side: Side, anchor: real, mark: real, fraction: real, minMove: real)
    ensures Arm(side, anchor, mark, fraction, minMove).moves == 0
  {
  }

  lemma DistanceCancels(side: Side, fraction: real, minMove: real, k: nat, hw0: real, trigger0: real, hw: real, trigger: real)
    requires Holdable(side, fraction)
    requires trigger0 == AtDistance(side, hw0, fraction)
    requires Tighter(side, AtDistance(side, hw, fraction), trigger)
    requires CompoundedBy(side, minMove, k, trigger0, trigger)
    ensures CompoundedBy(side, minMove, k, hw0, hw)
  {
    var p := Power(MoveFactor(side, minMove), k);
    if side == Long {
      Regroup(hw0, 1.0 - fraction, p, trigger0);
      CancelScale(hw0 * p, hw, 1.0 - fraction);
    } else {
      Regroup(hw0, 1.0 + fraction, p, trigger0);
      CancelScale(hw, hw0 * p, 1.0 + fraction);
    }
  }

  lemma Regroup(a: real, b: real, c: real, ab: real)
    requires ab == a * b
    ensures ab * c == a * c * b
  {
  }

  lemma CancelScale(a: real, b: real, c: real)
    requires c > 0.0 && a * c <= b * c
    ensures a <= b
  {
  }

  // ---------------------------------------------------------------- intrabar fills

  /** The price a resting stop fills at inside a bar: the open when the bar gaps through it, the trigger
      when the bar trades through it, None when the bar stays clear. */
  function IntrabarFill(side: Side, open: real, high: real, low: real, trigger: real): Option<real> {
    if trigger <= 0.0 then None
    else if side == Long then
      if open > 0.0 && open <= trigger then Some(open)
      else if low > 0.0 && low <= trigger then Some(trigger)
      else None
    else if open >= trigger then Some(open)
    else if high >= trigger then Some(trigger)
    else None
  }

  datatype StopBar = StopBar(open: real, high: real, low: real, mark: real, fraction: real, bypass: bool,
                             regimeStop: real) {
    predicate Valid() { 0.0 < low <= open <= high && mark > 0.0 }

    /** The bar's worst price for the position. */
    function Worst(side: Side): real { if side == Long then low else high }
  }

  /** Strictly on the safe side of a trigger. */
  predicate Clear(side: Side, price: real, trigger: real) { if side == Long then price > trigger else price < trigger }

  /** A bar fills the stop exactly when its worst price reaches the trigger, at the worse of open and trigger. */
  lemma IntrabarFillIs(side: Side, bar: StopBar, trigger: real)
    requires bar.Valid() && trigger > 0.0
    ensures IntrabarFill(side, bar.open, bar.high, bar.low, trigger)
            == if Clear(side, bar.Worst(side), trigger) then None
               else Some(if side == Long then Min(bar.open, trigger) else Max(bar.open, trigger))
  {
  }

  // ---------------------------------------------------------------- a position's stop over its bars

  datatype StopState = StopState(trigger: real, highWater: real, pierceArmed: bool)

  /** The end of a bar: a confirmed regime change may tighten the trigger, the trailing step follows the
      mark with that bar's fraction (0 when nothing trails), and the surviving trigger becomes
      pierce-eligible. */
  function EndOfBar(side: Side, anchor: real, minMove: real, s: StopState, bar: StopBar): StopState {
    var tightened := bar.regimeStop > 0.0
                     && (s.trigger <= 0.0 || if side == Long then bar.regimeStop > s.trigger else bar.regimeStop < s.trigger);
    var trigger := if tightened then bar.regimeStop else s.trigger;
    if bar.fraction <= 0.0 then StopState(trigger, s.highWater, true)
    else
      var u := TrailingUpdate(side, bar.mark, if s.highWater > 0.0 then s.highWater else anchor, bar.fraction, minMove,
                              trigger, false, bar.bypass);
      StopState(if u.replaced then u.candidate else trigger, u.highWater, true)
  }

  datatype StopRun = Holding(s: StopState) | Stopped(bar: nat, fill: real, trigger: real)

  function FollowStop(side: Side, anchor: real, minMove: real, s: StopState, bars: seq<StopBar>): StopRun {
    if bars == [] then Holding(s)
    else
      var bar := bars[|bars| - 1];
      match FollowStop(side, anchor, minMove, s, bars[..|bars| - 1])
      case Stopped(k, fill, trigger) => Stopped(k, fill, trigger)
      case Holding(now) =>
        var fill := if now.pierceArmed then IntrabarFill(side, bar.open, bar.high, bar.low, now.trigger) else None;
        if fill.Some? then Stopped(|bars| - 1, fill.value, now.trigger)
        else Holding(EndOfBar(side, anchor, minMove, now, bar))
  }

  /** No step ever loosens an armed trigger, whatever fraction, bypass or regime candidate the bar brings. */
  lemma EndOfBarTightens(side: Side, anchor: real, minMove: real, s: StopState, bar: StopBar)
    requires s.trigger > 0.0
    ensures EndOfBar(side, anchor, minMove, s, bar).trigger > 0.0
    ensures Tighter(side, EndOfBar(side, anchor, minMove, s, bar).trigger, s.trigger)
    ensures EndOfBar(side, anchor, minMove, s, bar).pierceArmed
  {
  }

  /** Over a whole position: while it is held, every bar from the first pierce-eligible one stayed clear
      of the first armed trigger; when it is stopped, the raw fill is the worse of that bar's open and a
      trigger at least as tight as the first one. */
  lemma {:induction false} StopIsSafe(side: Side, anchor: real, minMove: real, s: StopState, bars: seq<StopBar>)
    requires s.trigger > 0.0 && forall bar | bar in bars :: bar.Valid()
    ensures match FollowStop(side, anchor, minMove, s, bars)
            case Holding(now) =>
              && now.trigger > 0.0 && Tighter(side, now.trigger, s.trigger)
              && (now.pierceArmed || bars == [])
              && forall k | 0 <= k < |bars| && (k > 0 || s.pierceArmed) :: Clear(side, bars[k].Worst(side), s.trigger)
            case Stopped(k, fill, trigger) =>
              && k < |bars| && Tighter(side, trigger, s.trigger)
              && !Clear(side, bars[k].Worst(side), trigger)
              && fill == (if side == Long then Min(bars[k].open, trigger) else Max(bars[k].open, trigger))
              && Tighter(side, fill, if side == Long then Min(bars[k].open, s.trigger) else Max(bars[k].open, s.trigger))
    decreases |bars|
  {
    hide EndOfBar, IntrabarFill;
    if bars != [] {
      var front, bar := bars[..|bars| - 1], bars[|bars| - 1];
      assert forall b | b in front :: b in bars;
      StopIsSafe(side, anchor, minMove, s, front);
      var before := FollowStop(side, anchor, minMove, s, front);
      if before.Holding? {
        IntrabarFillIs(side, bar, before.s.trigger);
        EndOfBarTightens(side, anchor, minMove, before.s, bar);
      }
    }
  }
}
