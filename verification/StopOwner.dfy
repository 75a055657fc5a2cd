/**
  Stop ownership: the static resolver that names the owner of a position's stop, the runtime chain that arms it,
  and the configurations on which the two agree.
 */
module StopOwner {
  import opened Common
  import Stops

  // ---------------------------------------------------------------- configuration

  datatype Label = NoLabel | RangingDirectional | RangingUp | RangingDown | Named(id: nat)

  /** ATR multiples per regime label. */
  datatype Block = Block(useDefaults: bool, entries: map<Label, real>)

  /** One label of a unified close: a profit ladder and a stop multiple, 0 for no stop. */
  datatype LabelParams = LabelParams(hasTiers: bool, stop: real)

  datatype Fields = Fields(
    trailingPct: Option<real>,
    trailingAtrMult: Option<real>,
    stopAtrMult: Option<real>,
    stopPct: Option<real>,
    stopMarginPct: Option<real>,
    maxDrawdownPct: Option<real>,
    leverage: Option<real>,
    stopRegime: Option<Block>,
    trailingRegime: Option<Block>,
    unified: Option<map<Label, LabelParams>>)

  datatype Owner =
    | Legacy | TrailingPct | TrailingAtr | TrailingAtrRegime | UnifiedRegime | FixedAtr | FixedAtrRegime
    | FixedPct | MarginPct | DrawdownFallback | NoOwner

  const MAX_AUTO_STOP_LOSS_FRACTION := 0.5

  predicate Positive(x: Option<real>) { x.Some? && x.value > 0.0 }

  predicate Active(block: Option<Block>) {
    block.Some? && (block.value.useDefaults || block.value.entries != map[])
  }

  // ---------------------------------------------------------------- the static resolver

  function ResolveOwner(f: Fields, hyperliquid: bool): Owner {
    if !hyperliquid then Legacy
    else if Positive(f.trailingPct) then TrailingPct
    else if f.trailingPct.None? && Positive(f.trailingAtrMult) then TrailingAtr
    else if f.trailingPct.None? && Active(f.trailingRegime) then TrailingAtrRegime
    else if f.unified.Some? then UnifiedRegime
    else if Positive(f.stopAtrMult) then FixedAtr
    else if Active(f.stopRegime) then FixedAtrRegime
    else if Positive(f.trailingAtrMult) || Active(f.trailingRegime) || f.trailingPct.Some? then NoOwner
    else if f.stopPct.Some? then if Positive(f.stopPct) then FixedPct else NoOwner
    else if f.stopMarginPct.Some? then if Positive(f.stopMarginPct) then MarginPct else NoOwner
    else if Positive(f.maxDrawdownPct) then DrawdownFallback
    else NoOwner
  }

  predicate NeedsAtr(o: Owner) {
    o.TrailingAtr? || o.TrailingAtrRegime? || o.FixedAtr? || o.FixedAtrRegime? || o.UnifiedRegime?
  }

  predicate NeedsLabel(o: Owner) { o.TrailingAtrRegime? || o.FixedAtrRegime? || o.UnifiedRegime? }

  // ---------------------------------------------------------------- the runtime chain

  /** The label whose entry serves a label: the bare directional label stands in for its two halves. */
  function Serving<T>(entries: map<Label, T>, regime: Label): Label {
    if regime !in entries && (regime == RangingUp || regime == RangingDown) then RangingDirectional else regime
  }

  function RegimeMult(block: Option<Block>, regime: Label): real {
    if !Active(block) || regime == NoLabel then 0.0
    else
      var entries := block.value.entries;
      var served := Serving(entries, regime);
      if served in entries && entries[served] > 0.0 then entries[served] else 0.0
  }

  /** Whether the label has a ladder in the unified close, and its stop multiple. */
  function UnifiedStop(f: Fields, regime: Label): (bool, real) {
    if f.unified.None? then (false, 0.0)
    else
      var served := Serving(f.unified.value, regime);
      if served in f.unified.value && f.unified.value[served].hasTiers
      then (true, f.unified.value[served].stop)
      else (false, 0.0)
  }

  function CappedAtrFraction(mult: real, atr: real, anchor: real): real {
    if mult <= 0.0 || atr <= 0.0 || anchor <= 0.0 then 0.0
    else Min(mult * atr / anchor, MAX_AUTO_STOP_LOSS_FRACTION)
  }

  function TrailingFraction(f: Fields, anchor: real, atr: real, regime: Label, postTpMult: Option<real>): real {
    if Positive(postTpMult) then CappedAtrFraction(postTpMult.value, atr, anchor)
    else if f.trailingPct.Some? then Max(f.trailingPct.value, 0.0)
    else if Positive(f.trailingAtrMult) then CappedAtrFraction(f.trailingAtrMult.value, atr, anchor)
    else CappedAtrFraction(RegimeMult(f.trailingRegime, regime), atr, anchor)
  }

  function FixedAtrMult(f: Fields, regime: Label): real {
    if UnifiedStop(f, regime).1 > 0.0 then UnifiedStop(f, regime).1
    else if Positive(f.stopAtrMult) then f.stopAtrMult.value
    else RegimeMult(f.stopRegime, regime)
  }

  function PercentFraction(f: Fields): real {
    if f.unified.Some? || Positive(f.trailingAtrMult) || Positive(f.stopAtrMult) || Active(f.stopRegime)
       || Active(f.trailingRegime) then 0.0
    else if f.trailingPct.Some? then Max(f.trailingPct.value, 0.0)
    else if f.stopPct.Some? then Max(f.stopPct.value, 0.0)
    else if f.stopMarginPct.Some? then
      if f.stopMarginPct.value > 0.0 && Positive(f.leverage) then f.stopMarginPct.value / f.leverage.value else 0.0
    else if Positive(f.maxDrawdownPct) then Min(f.maxDrawdownPct.value, MAX_AUTO_STOP_LOSS_FRACTION)
    else 0.0
  }

  datatype Kind = Trailing | Fixed | Percent | Unarmed

  /** What arming produces: the geometry, its fraction, the trigger (0 when none), the high water, and whether the
      stop may be pierced on the entry bar. */
  datatype Armed = Armed(kind: Kind, fraction: real, trigger: real, highWater: real, pierce: bool)

  function FixedTrigger(side: Side, anchor: real, fraction: real): real {
    var trigger := Stops.AtDistance(side, anchor, fraction);
    if trigger <= 0.0 then 0.0 else trigger
  }

  function ArmStop(f: Fields, side: Side, anchor: real, atr: real, regime: Label, mark: real, highWater: real,
                   minMove: real): Armed
  {
    var tf := TrailingFraction(f, anchor, atr, regime, None);
    if tf > 0.0 then
      var u := Stops.TrailingUpdate(side, mark, if highWater > 0.0 then highWater else anchor, tf, minMove, 0.0,
                                    false, false);
      Armed(Trailing, tf, u.candidate, u.highWater, false)
    else
      var atrFraction := CappedAtrFraction(FixedAtrMult(f, regime), atr, anchor);
      var fraction := if atrFraction > 0.0 then atrFraction else PercentFraction(f);
      var kind := if atrFraction > 0.0 then Fixed else if fraction > 0.0 then Percent else Unarmed;
      if fraction > 0.0 && anchor > 0.0 then
        var trigger := FixedTrigger(side, anchor, fraction);
        Armed(kind, fraction, trigger, 0.0, trigger > 0.0)
      else Armed(kind, 0.0, 0.0, 0.0, false)
  }

  /** One trailing step at a bar's mark: the new trigger and high water. */
  function TrailStep(f: Fields, side: Side, anchor: real, atr: real, regime: Label, mark: real,
                     postTpMult: Option<real>, trigger: real, highWater: real, minMove: real, bypass: bool)
    : (real, real)
  {
    var tf := TrailingFraction(f, anchor, atr, regime, postTpMult);
    if tf <= 0.0 then (trigger, highWater)
    else
      var u := Stops.TrailingUpdate(side, mark, if highWater > 0.0 then highWater else anchor, tf, minMove, trigger,
                                    false, bypass);
      (if u.replaced then u.candidate else trigger, u.highWater)
  }

  // ---------------------------------------------------------------- agreement

  /** The entry inputs and evidence that validation demands of an owner. */
  predicate Verified(f: Fields, o: Owner, anchor: real, atr: real, regime: Label) {
    && anchor > 0.0
    && (NeedsAtr(o) ==> atr > 0.0)
    && (NeedsLabel(o) ==> regime != NoLabel)
    && (o.UnifiedRegime? ==> UnifiedStop(f, regime).0)
    && (o.FixedAtrRegime? ==> RegimeMult(f.stopRegime, regime) > 0.0)
    && (o.TrailingAtrRegime? ==> RegimeMult(f.trailingRegime, regime) > 0.0)
    && (o.MarginPct? ==> Positive(f.leverage))
  }

  /** The geometry an owner stands for. */
  function OwnedKind(f: Fields, o: Owner, regime: Label): Kind {
    match o
    case TrailingPct | TrailingAtr | TrailingAtrRegime => Trailing
    case FixedAtr | FixedAtrRegime => Fixed
    case FixedPct | MarginPct | DrawdownFallback => Percent
    case UnifiedRegime => if UnifiedStop(f, regime).1 > 0.0 then Fixed else Unarmed
    case Legacy | NoOwner => Unarmed
  }

  function Amount(x: Option<real>): real { if x.Some? then x.value else 0.0 }

  /** The distance an owner stands for, from its own field alone. */
  function OwnedFraction(f: Fields, o: Owner, anchor: real, atr: real, regime: Label): real {
    match o
    case TrailingPct => Amount(f.trailingPct)
    case TrailingAtr => CappedAtrFraction(Amount(f.trailingAtrMult), atr, anchor)
    case TrailingAtrRegime => CappedAtrFraction(RegimeMult(f.trailingRegime, regime), atr, anchor)
    case UnifiedRegime => CappedAtrFraction(UnifiedStop(f, regime).1, atr, anchor)
    case FixedAtr => CappedAtrFraction(Amount(f.stopAtrMult), atr, anchor)
    case FixedAtrRegime => CappedAtrFraction(RegimeMult(f.stopRegime, regime), atr, anchor)
    case FixedPct => Amount(f.stopPct)
    case MarginPct => if Positive(f.leverage) then Amount(f.stopMarginPct) / f.leverage.value else 0.0
    case DrawdownFallback => Min(Amount(f.maxDrawdownPct), MAX_AUTO_STOP_LOSS_FRACTION)
    case Legacy | NoOwner => 0.0
  }

  /** The better for the position of the mark and the high water so far, which starts at the anchor. */
  function Best(side: Side, anchor: real, mark: real, highWater: real): real {
    var start := if highWater > 0.0 then highWater else anchor;
    if side == Long then Max(mark, start) else Min(mark, start)
  }

  /** A unified close without a stop for this label, beside a stop that the runtime chain falls through to. */
  predicate FallsThrough(f: Fields, o: Owner, regime: Label) {
    && o.UnifiedRegime? && UnifiedStop(f, regime).1 <= 0.0
    && (Positive(f.stopAtrMult) || RegimeMult(f.stopRegime, regime) > 0.0)
  }

  lemma CappedIsPositive(mult: real, atr: real, anchor: real)
    ensures 0.0 <= CappedAtrFraction(mult, atr, anchor) <= MAX_AUTO_STOP_LOSS_FRACTION
    ensures CappedAtrFraction(mult, atr, anchor) > 0.0 <==> mult > 0.0 && atr > 0.0 && anchor > 0.0
  {
  }

  /** The trailing chain is on exactly for trailing owners. */
  lemma TrailingIffOwned(f: Fields, anchor: real, atr: real, regime: Label)
    requires Verified(f, ResolveOwner(f, true), anchor, atr, regime)
    ensures TrailingFraction(f, anchor, atr, regime, None) > 0.0
            <==> OwnedKind(f, ResolveOwner(f, true), regime) == Trailing
  {
  }

  /** For every combination of fields, with verified inputs, the runtime chain arms the geometry of the owner the
      resolver named, except exactly when a unified close with no stop for the label falls through to another. */
  lemma RuntimeAgreesWithOwner(f: Fields, side: Side, anchor: real, atr: real, regime: Label, mark: real,
                               highWater: real, minMove: real)
    requires Verified(f, ResolveOwner(f, true), anchor, atr, regime)
    ensures var o := ResolveOwner(f, true);
      ArmStop(f, side, anchor, atr, regime, mark, highWater, minMove).kind == OwnedKind(f, o, regime)
      <==> !FallsThrough(f, o, regime)
  {
    CappedIsPositive(FixedAtrMult(f, regime), atr, anchor);
    TrailingIffOwned(f, anchor, atr, regime);
    hide CappedAtrFraction, RegimeMult, UnifiedStop, TrailingFraction;
  }

  /** And at the owner's own distance. */
  lemma RuntimeArmsOwnedFraction(f: Fields, side: Side, anchor: real, atr: real, regime: Label, mark: real,
                                 highWater: real, minMove: real)
    requires Verified(f, ResolveOwner(f, true), anchor, atr, regime)
    requires !FallsThrough(f, ResolveOwner(f, true), regime)
    ensures ArmStop(f, side, anchor, atr, regime, mark, highWater, minMove).fraction
         == OwnedFraction(f, ResolveOwner(f, true), anchor, atr, regime)
  {
    var o := ResolveOwner(f, true);
    CappedIsPositive(FixedAtrMult(f, regime), atr, anchor);
    CappedIsPositive(UnifiedStop(f, regime).1, atr, anchor);
    TrailingIffOwned(f, anchor, atr, regime);
    if OwnedKind(f, o, regime) == Trailing {
      TrailingIsOwned(f, anchor, atr, regime);
    }
    hide CappedAtrFraction, RegimeMult, UnifiedStop, TrailingFraction;
  }

  lemma TrailingIsOwned(f: Fields, anchor: real, atr: real, regime: Label)
    requires Verified(f, ResolveOwner(f, true), anchor, atr, regime)
    requires OwnedKind(f, ResolveOwner(f, true), regime) == Trailing
    ensures TrailingFraction(f, anchor, atr, regime, None)
         == OwnedFraction(f, ResolveOwner(f, true), anchor, atr, regime)
  {
    hide CappedAtrFraction, RegimeMult;
  }

  /** What admission refuses: fields beside a unified close, and fields beside an active regime block. */
  predicate Admitted(f: Fields, live: bool) {
    && (f.unified.Some? ==>
      && !IsSet(f.stopAtrMult, live) && !IsSet(f.stopPct, live) && !IsSet(f.stopMarginPct, live)
      && !IsSet(f.trailingAtrMult, live) && !IsSet(f.trailingPct, live)
      && !(if live then Active(f.stopRegime) || Active(f.trailingRegime)
           else f.stopRegime.Some? || f.trailingRegime.Some?))
    && (Active(f.stopRegime) ==>
      && !IsSet(f.stopAtrMult, live) && !IsSet(f.stopPct, live) && !IsSet(f.stopMarginPct, live)
      && !IsSet(f.trailingAtrMult, live) && !IsSet(f.trailingPct, live)
      && !(if live then f.trailingRegime.Some? else Active(f.trailingRegime)))
    && (Active(f.trailingRegime) ==>
      && !IsSet(f.stopAtrMult, live) && !IsSet(f.stopPct, live) && !IsSet(f.stopMarginPct, live)
      && !IsSet(f.trailingAtrMult, live) && !IsSet(f.trailingPct, live))
  }

  predicate IsSet(x: Option<real>, live: bool) { if live then x.Some? else Positive(x) }

  /** Fractions below 1 leave a long a positive trigger. */
  predicate BelowOne(f: Fields) {
    && (f.trailingPct.Some? ==> f.trailingPct.value < 1.0)
    && (f.stopPct.Some? ==> f.stopPct.value < 1.0)
    && (f.stopMarginPct.Some? && Positive(f.leverage) ==> f.stopMarginPct.value / f.leverage.value < 1.0)
  }

  /** Every admitted configuration arms exactly what its owner stands for: the owner's geometry at the owner's
      distance, from the anchor or, trailing, from the better of mark and high water; with a live trigger whenever
      the owner stands for a stop. */
  lemma AdmittedOwnerArms(f: Fields, live: bool, side: Side, anchor: real, atr: real, regime: Label, mark: real,
                          highWater: real, minMove: real)
    requires Admitted(f, live) && Verified(f, ResolveOwner(f, true), anchor, atr, regime)
    requires BelowOne(f) && mark > 0.0
    ensures var kind := OwnedKind(f, ResolveOwner(f, true), regime);
      && var armed := ArmStop(f, side, anchor, atr, regime, mark, highWater, minMove);
      && armed.kind == kind
      && armed.fraction == OwnedFraction(f, ResolveOwner(f, true), anchor, atr, regime)
      && (kind == Trailing ==>
           var best := Best(side, anchor, mark, highWater);
           armed.highWater == best && armed.trigger == Stops.AtDistance(side, best, armed.fraction))
      && (armed.trigger > 0.0 <==> kind != Unarmed)
      && (kind != Unarmed ==> 0.0 < armed.fraction && (side == Long ==> armed.fraction < 1.0))
      && (kind == Fixed || kind == Percent ==>
           armed.pierce && armed.trigger == Stops.AtDistance(side, anchor, armed.fraction))
      && (kind == Fixed ==> armed.fraction <= MAX_AUTO_STOP_LOSS_FRACTION)
  {
    hide CappedAtrFraction, RegimeMult, UnifiedStop;
    NoFallThrough(f, live, regime);
    RuntimeAgreesWithOwner(f, side, anchor, atr, regime, mark, highWater, minMove);
    RuntimeArmsOwnedFraction(f, side, anchor, atr, regime, mark, highWater, minMove);
    ArmedTrigger(f, side, anchor, atr, regime, mark, highWater, minMove);
  }

  lemma NoFallThrough(f: Fields, live: bool, regime: Label)
    requires Admitted(f, live)
    ensures !FallsThrough(f, ResolveOwner(f, true), regime)
  {
  }

  lemma ArmedTrigger(f: Fields, side: Side, anchor: real, atr: real, regime: Label, mark: real, highWater: real,
                     minMove: real)
    requires BelowOne(f) && mark > 0.0 && anchor > 0.0
    ensures var armed := ArmStop(f, side, anchor, atr, regime, mark, highWater, minMove);
      && (armed.trigger > 0.0 <==> armed.kind != Unarmed)
      && (armed.kind == Trailing ==>
           var best := Best(side, anchor, mark, highWater);
           armed.highWater == best && armed.trigger == Stops.AtDistance(side, best, armed.fraction))
      && (armed.kind != Unarmed ==> 0.0 < armed.fraction && (side == Long ==> armed.fraction < 1.0))
      && (armed.kind == Fixed || armed.kind == Percent ==>
           armed.pierce && armed.trigger == Stops.AtDistance(side, anchor, armed.fraction))
      && (armed.kind == Fixed ==> armed.fraction <= MAX_AUTO_STOP_LOSS_FRACTION)
  {
    hide CappedAtrFraction, RegimeMult, UnifiedStop;
    var tf := TrailingFraction(f, anchor, atr, regime, None);
    TrailingBelowOne(f, anchor, atr, regime);
    if tf > 0.0 {
      var start := if highWater > 0.0 then highWater else anchor;
      var u := Stops.TrailingUpdate(side, mark, start, tf, minMove, 0.0, false, false);
      Stops.AtDistancePositive(side, if side == Long then Max(mark, start) else Min(mark, start), tf);
    } else {
      CappedIsPositive(FixedAtrMult(f, regime), atr, anchor);
      var fraction := ArmStop(f, side, anchor, atr, regime, mark, highWater, minMove).fraction;
      if fraction > 0.0 {
        Stops.AtDistancePositive(side, anchor, fraction);
      }
    }
  }

  lemma TrailingBelowOne(f: Fields, anchor: real, atr: real, regime: Label)
    requires BelowOne(f)
    ensures TrailingFraction(f, anchor, atr, regime, None) < 1.0
    ensures PercentFraction(f) < 1.0
  {
  }

  /** After arming, only a trailing owner's stop moves: without a post-profit multiple every other stop stays. */
  lemma OnlyTrailingOwnersMove(f: Fields, side: Side, anchor: real, atr: real, regime: Label, mark: real,
                               trigger: real, highWater: real, minMove: real, bypass: bool)
    requires Verified(f, ResolveOwner(f, true), anchor, atr, regime)
    ensures OwnedKind(f, ResolveOwner(f, true), regime) != Trailing ==>
      TrailStep(f, side, anchor, atr, regime, mark, None, trigger, highWater, minMove, bypass) == (trigger, highWater)
  {
  }

  /** The exception is real: outside admission a zero per-label stop arms the scalar ATR stop instead. */
  lemma FallThroughExample()
    ensures var f := Fields(None, None, Some(2.0), None, None, None, None, None, None,
                            Some(map[Named(0) := LabelParams(true, 0.0)]));
      && ResolveOwner(f, true) == UnifiedRegime
      && Verified(f, UnifiedRegime, 100.0, 1.0, Named(0))
      && OwnedKind(f, UnifiedRegime, Named(0)) == Unarmed
      && ArmStop(f, Long, 100.0, 1.0, Named(0), 100.0, 0.0, 0.005).kind == Fixed
      && !Admitted(f, true) && !Admitted(f, false)
  {
  }
}
