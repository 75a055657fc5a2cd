/**
  The hedged carry pair: a spot leg held against a short perpetual, with funding, spot rebalancing and liquidation.
 */
module CarryPair {
  import opened Common

  // ---------------------------------------------------------------- inputs

  /** A missing accrual (not a number in the data) is None. */
  datatype Bar = Bar(signal: int, perpOpen: real, perpClose: real, spotOpen: real, spotClose: real,
                     accrual: Option<real>)

  datatype Config = Config(initialCapital: real, baseNotional: real, leverage: real, maintenance: real, drift: real,
                           perpFee: real, spotFee: real)

  /** What the constructor accepts. */
  predicate Accepts(c: Config) {
    && c.initialCapital > 0.0 && c.baseNotional > 0.0 && c.leverage > 0.0
    && 0.0 <= c.maintenance < 1.0 / c.leverage && c.drift > 0.0
  }

  ghost predicate Priced(bars: seq<Bar>) {
    forall i :: 0 <= i < |bars| ==>
      bars[i].perpOpen > 0.0 && bars[i].perpClose > 0.0 && bars[i].spotOpen > 0.0 && bars[i].spotClose > 0.0
  }

  /** Both legs read the same series. */
  ghost predicate SingleSeries(bars: seq<Bar>) {
    forall i :: 0 <= i < |bars| ==> bars[i].perpOpen == bars[i].spotOpen && bars[i].perpClose == bars[i].spotClose
  }

  // ---------------------------------------------------------------- the spot leg

  /** A short perpetual of fixed quantity and a spot holding at average cost. */
  datatype Legs = Legs(qtyPerp: real, entryPerp: real, qtySpot: real, entrySpot: real, realized: real)

  function PerpPnl(l: Legs, perp: real): real { l.qtyPerp * (l.entryPerp - perp) }

  function SpotPnl(l: Legs, spot: real): real { l.realized + l.qtySpot * (spot - l.entrySpot) }

  function PricePnl(l: Legs, perp: real, spot: real): real { PerpPnl(l, perp) + SpotPnl(l, spot) }

  function DriftPct(qtyPerp: real, perp: real, qtySpot: real, spot: real): real {
    var perpNotional := qtyPerp * perp;
    if perpNotional <= 0.0 then 0.0 else Abs(qtySpot * spot - perpNotional) / perpNotional * 100.0
  }

  function TargetSpot(qtyPerp: real, perp: real, spot: real): real {
    if spot <= 0.0 then 0.0 else qtyPerp * perp / spot
  }

  function Rebalanced(l: Legs, perp: real, spot: real): Legs
    requires spot > 0.0 && l.qtyPerp > 0.0 && perp > 0.0
  {
    var target := TargetSpot(l.qtyPerp, perp, spot);
    TargetPositive(l.qtyPerp, perp, spot);
    var delta := target - l.qtySpot;
    if delta < 0.0 then l.(realized := l.realized + (-delta) * (spot - l.entrySpot), qtySpot := target)
    else if delta > 0.0 then
      l.(entrySpot := (l.qtySpot * l.entrySpot + delta * spot) / target, qtySpot := target)
    else l.(qtySpot := target)
  }

  lemma TargetPositive(qtyPerp: real, perp: real, spot: real)
    requires qtyPerp > 0.0 && perp > 0.0 && spot > 0.0
    ensures TargetSpot(qtyPerp, perp, spot) > 0.0
    ensures TargetSpot(qtyPerp, perp, spot) * spot == qtyPerp * perp
  {
  }

  lemma PositiveQuotient(a: real, b: real, q: real)
    requires a > 0.0 && b > 0.0 && q == a / b
    ensures q > 0.0 && q * b == a
  {
  }

  /** What the spot leg has cost net of sales, by its books. */
  function CostBasis(l: Legs): real { l.qtySpot * l.entrySpot - l.realized }

  /** Cash paid for spot in going from one holding to another, negative when it is sold. */
  function SpotBought(before: Legs, after: Legs, spot: real): real { (after.qtySpot - before.qtySpot) * spot }

  function RebalanceFee(cfg: Config, before: Legs, after: Legs, spot: real): real {
    Abs(SpotBought(before, after, spot)) * cfg.spotFee
  }

  /** Both legs have the same notional. */
  predicate Hedged(l: Legs, perp: real, spot: real) { l.qtySpot * spot == l.qtyPerp * perp }

  /** A rebalance equalises the notionals, leaves the marked price PnL at the fill where it was, and books exactly
      the cash it trades. */
  lemma RebalanceKeepsPnl(l: Legs, perp: real, spot: real)
    requires spot > 0.0 && perp > 0.0 && l.qtyPerp > 0.0
    ensures var r := Rebalanced(l, perp, spot);
      && PricePnl(r, perp, spot) == PricePnl(l, perp, spot)
      && Hedged(r, perp, spot) && r.qtySpot > 0.0
      && r.qtyPerp == l.qtyPerp && r.entryPerp == l.entryPerp
      && CostBasis(r) == CostBasis(l) + SpotBought(l, r, spot)
  {
  }

  // ---------------------------------------------------------------- funding

  /** The bars after `a` up to and including `b`. */
  function BarsAfter(a: nat, b: nat): seq<nat> {
    if b <= a then [] else BarsAfter(a, b - 1) + [b]
  }

  lemma BarsAfterNext(a: nat, b: nat)
    ensures a < b ==> BarsAfter(a, b) == BarsAfter(a, b - 1) + [b]
    ensures b <= a ==> BarsAfter(a, b) == []
  {
  }

  /** The funding a bar accrues on a short perpetual. */
  function BarFunding(qtyPerp: real, bar: Bar): real {
    if bar.accrual.None? || bar.accrual.value == 0.0 then 0.0 else qtyPerp * bar.perpClose * bar.accrual.value
  }

  function FundingOver(qtyPerp: real, bars: seq<Bar>, which: seq<nat>): real
    requires forall k :: 0 <= k < |which| ==> which[k] < |bars|
  {
    if which == [] then 0.0
    else FundingOver(qtyPerp, bars, which[..|which| - 1]) + BarFunding(qtyPerp, bars[which[|which| - 1]])
  }

  lemma {:induction false} BarsAfterBounds(a: nat, b: nat)
    ensures forall k :: 0 <= k < |BarsAfter(a, b)| ==> a < BarsAfter(a, b)[k] <= b
    ensures |BarsAfter(a, b)| == if b <= a then 0 else b - a
    ensures forall x: nat :: x in BarsAfter(a, b) <==> a < x <= b
  {
    if b > a {
      BarsAfterBounds(a, b - 1);
    }
  }

  // ---------------------------------------------------------------- liquidation

  function LiquidationLoss(notional: real, leverage: real, maintenance: real): real
    requires leverage > 0.0
  {
    notional * (1.0 / leverage - maintenance)
  }

  /** The price PnL when the perpetual is liquidated: its loss stops at its margin. */
  function LiquidatedPnl(l: Legs, margin: real, perp: real, spot: real): real {
    -Min(-PerpPnl(l, perp), margin) + SpotPnl(l, spot)
  }

  /** A pair opened on one series and never rebalanced: its legs cancel. */
  predicate Mirrored(l: Legs) { l.qtySpot == l.qtyPerp && l.entrySpot == l.entryPerp && l.realized == 0.0 }

  lemma MirroredNeverDrifts(l: Legs, price: real, threshold: real)
    requires Mirrored(l) && threshold > 0.0
    ensures DriftPct(l.qtyPerp, price, l.qtySpot, price) <= threshold
  {
  }

  // ---------------------------------------------------------------- one episode

  datatype Reason = ExitSignal | EndOfData | Liquidation

  /** How many of the offered bars had funding to book. */
  function FundedCount(bars: seq<Bar>, which: seq<nat>): nat {
    if which == [] then 0
    else
      var k := which[|which| - 1];
      FundedCount(bars, which[..|which| - 1])
      + if k < |bars| && bars[k].accrual.Some? && bars[k].accrual.value != 0.0 then 1 else 0
  }

  /** The perpetual's loss at a bar's close stays below the liquidation loss. */
  predicate Survives(qty: real, entry: real, notional: real, cfg: Config, bar: Bar)
    requires cfg.leverage > 0.0
  {
    -(qty * (entry - bar.perpClose)) < LiquidationLoss(notional, cfg.leverage, cfg.maintenance)
  }

  /** Opened by a short signal, survived every bar it was marked at, kept at every bar without an exit signal. */
  ghost predicate Scheduled(qty: real, entry: real, notional: real, entryBar: nat, marked: nat, kept: nat, cfg: Config,
                            bars: seq<Bar>)
  {
    && cfg.leverage > 0.0 && 0 < entryBar <= |bars| && bars[entryBar - 1].signal == -1
    && entryBar <= marked <= |bars| && entryBar <= kept <= |bars|
    && (forall j :: entryBar <= j < marked ==> Survives(qty, entry, notional, cfg, bars[j]))
    && (forall j :: entryBar <= j < kept ==> bars[j].signal != 1)
  }

  /** The fees of closing both legs at some prices. */
  function ExitFees(cfg: Config, l: Legs, perp: real, spot: real): real {
    l.qtyPerp * perp * cfg.perpFee + l.qtySpot * spot * cfg.spotFee
  }

  lemma SingleSeriesNeverDrifts(l: Legs, bars: seq<Bar>, k: nat, threshold: real)
    requires SingleSeries(bars) && Mirrored(l) && k < |bars| && threshold > 0.0
    ensures DriftPct(l.qtyPerp, bars[k].perpOpen, l.qtySpot, bars[k].spotOpen) <= threshold
  {
    MirroredNeverDrifts(l, bars[k].perpOpen, threshold);
  }

  lemma KeptOn(qty: real, entry: real, notional: real, entryBar: nat, marked: nat, kept: nat, cfg: Config,
               bars: seq<Bar>)
    requires Scheduled(qty, entry, notional, entryBar, marked, kept, cfg, bars)
    requires kept < |bars| && bars[kept].signal != 1
    ensures Scheduled(qty, entry, notional, entryBar, marked, kept + 1, cfg, bars)
  {
  }

  // ---------------------------------------------------------------- what an episode holds

  /** Legs, fees and rebalances of an open episode, and the cash paid for spot less the cash received for it. */
  datatype Held = Held(legs: Legs, fees: real, rebalances: nat, spotPaid: real)

  /** Both legs take the base notional at the entry prices, and both fees are charged on it. */
  function Entered(cfg: Config, perp: real, spot: real): (h: Held)
    requires cfg.baseNotional > 0.0 && perp > 0.0 && spot > 0.0
    ensures h.legs.qtyPerp > 0.0 && h.legs.qtySpot > 0.0
    ensures h.legs.qtyPerp * perp == cfg.baseNotional == h.legs.qtySpot * spot
  {
    PositiveQuotient(cfg.baseNotional, perp, cfg.baseNotional / perp);
    PositiveQuotient(cfg.baseNotional, spot, cfg.baseNotional / spot);
    Held(Legs(cfg.baseNotional / perp, perp, cfg.baseNotional / spot, spot, 0.0),
         cfg.baseNotional * cfg.perpFee + cfg.baseNotional * cfg.spotFee, 0, cfg.baseNotional)
  }

  /** A rebalance past the drift threshold, and its fee. */
  function MaybeRebalanced(cfg: Config, h: Held, perp: real, spot: real): (r: Held)
    requires perp > 0.0 && spot > 0.0 && h.legs.qtyPerp > 0.0 && h.legs.qtySpot > 0.0
    ensures r.legs.qtyPerp == h.legs.qtyPerp && r.legs.entryPerp == h.legs.entryPerp && r.legs.qtySpot > 0.0
    ensures CostBasis(r.legs) - r.spotPaid == CostBasis(h.legs) - h.spotPaid
  {
    if DriftPct(h.legs.qtyPerp, perp, h.legs.qtySpot, spot) <= cfg.drift then h
    else
      RebalanceKeepsPnl(h.legs, perp, spot);
      var after := Rebalanced(h.legs, perp, spot);
      Held(after, h.fees + RebalanceFee(cfg, h.legs, after, spot), h.rebalances + 1,
           h.spotPaid + SpotBought(h.legs, after, spot))
  }

  /** What an episode entered at a bar holds when it has been kept to bar `k`: its entry, and a rebalance at the open of
      every later bar at which it had drifted. The perpetual never changes, and the spot books are the cash traded. */
  ghost function HeldAt(cfg: Config, bars: seq<Bar>, entry: nat, k: nat): (h: Held)
    requires Accepts(cfg) && Priced(bars) && entry <= k < |bars|
    ensures h.legs.qtySpot > 0.0 && h.legs.qtyPerp == cfg.baseNotional / bars[entry].perpOpen > 0.0
    ensures h.legs.entryPerp == bars[entry].perpOpen
    ensures CostBasis(h.legs) == h.spotPaid
  {
    if k == entry then Entered(cfg, bars[entry].perpOpen, bars[entry].spotOpen)
    else MaybeRebalanced(cfg, HeldAt(cfg, bars, entry, k - 1), bars[k].perpOpen, bars[k].spotOpen)
  }

  lemma HeldAtEntry(cfg: Config, bars: seq<Bar>, entry: nat)
    requires Accepts(cfg) && Priced(bars) && entry < |bars|
    ensures HeldAt(cfg, bars, entry, entry) == Entered(cfg, bars[entry].perpOpen, bars[entry].spotOpen)
  {
  }

  lemma HeldNext(cfg: Config, bars: seq<Bar>, entry: nat, k: nat)
    requires Accepts(cfg) && Priced(bars) && entry <= k && k + 1 < |bars|
    ensures bars[k + 1].perpOpen > 0.0 && bars[k + 1].spotOpen > 0.0
    ensures HeldAt(cfg, bars, entry, k + 1)
         == MaybeRebalanced(cfg, HeldAt(cfg, bars, entry, k), bars[k + 1].perpOpen, bars[k + 1].spotOpen)
  {
  }

  /** What fixes an open or closed episode but for its funding and its exit: the schedule, the margin on the base
      notional, the legs and rebalances its bars give; on a single series the legs mirror each other. */
  ghost predicate Keeps(legs: Legs, rebalances: nat, notional: real, margin: real, entryBar: nat, marked: nat, kept: nat,
                        cfg: Config, bars: seq<Bar>)
  {
    && Accepts(cfg) && Priced(bars) && kept < |bars|
    && Scheduled(legs.qtyPerp, legs.entryPerp, notional, entryBar, marked, kept, cfg, bars)
    && notional == cfg.baseNotional && margin == cfg.baseNotional / cfg.leverage
    && legs == HeldAt(cfg, bars, entryBar, kept).legs && rebalances == HeldAt(cfg, bars, entryBar, kept).rebalances
    && (SingleSeries(bars) ==> Mirrored(legs))
  }

  lemma KeepsFacts(legs: Legs, rebalances: nat, notional: real, margin: real, entryBar: nat, marked: nat, kept: nat,
                   cfg: Config, bars: seq<Bar>)
    requires Keeps(legs, rebalances, notional, margin, entryBar, marked, kept, cfg, bars)
    ensures Accepts(cfg) && Priced(bars) && cfg.leverage > 0.0
    ensures 0 < entryBar <= marked <= |bars| && entryBar <= kept < |bars|
    ensures legs.qtyPerp > 0.0 && legs.qtySpot > 0.0
  {
  }

  lemma KeptEntered(legs: Legs, cfg: Config, bars: seq<Bar>, fillBar: nat)
    requires Accepts(cfg) && Priced(bars) && 0 < fillBar < |bars| && bars[fillBar - 1].signal == -1
    requires legs == Entered(cfg, bars[fillBar].perpOpen, bars[fillBar].spotOpen).legs
    ensures Keeps(legs, 0, cfg.baseNotional, cfg.baseNotional / cfg.leverage, fillBar, fillBar, fillBar, cfg, bars)
  {
    HeldAtEntry(cfg, bars, fillBar);
  }

  lemma KeptMarked(legs: Legs, rebalances: nat, notional: real, margin: real, entryBar: nat, marked: nat, kept: nat,
                   cfg: Config, bars: seq<Bar>)
    requires Keeps(legs, rebalances, notional, margin, entryBar, marked, kept, cfg, bars) && marked < |bars|
    requires cfg.leverage > 0.0 && Survives(legs.qtyPerp, legs.entryPerp, notional, cfg, bars[marked])
    ensures Keeps(legs, rebalances, notional, margin, entryBar, marked + 1, kept, cfg, bars)
  {
    hide HeldAt, SingleSeries, Survives;
  }

  /** Keeping one more bar rebalances at its open if the legs had drifted. */
  lemma KeptNext(legs: Legs, rebalances: nat, notional: real, margin: real, entryBar: nat, marked: nat, kept: nat,
                 cfg: Config, bars: seq<Bar>, fees: real, after: Held)
    requires Keeps(legs, rebalances, notional, margin, entryBar, marked, kept, cfg, bars)
    requires kept + 1 < |bars| && bars[kept].signal != 1 && entryBar <= kept && Accepts(cfg) && Priced(bars)
    requires fees == HeldAt(cfg, bars, entryBar, kept).fees
    requires after == HeldAt(cfg, bars, entryBar, kept + 1)
    ensures Keeps(after.legs, after.rebalances, notional, margin, entryBar, marked, kept + 1, cfg, bars)
    ensures bars[kept + 1].perpOpen > 0.0 && bars[kept + 1].spotOpen > 0.0
    ensures var perp, spot := bars[kept + 1].perpOpen, bars[kept + 1].spotOpen;
      && after.legs.qtyPerp == legs.qtyPerp > 0.0
      && (DriftPct(legs.qtyPerp, perp, legs.qtySpot, spot) <= cfg.drift ==>
           after.legs == legs && after.fees == fees && after.rebalances == rebalances)
      && (DriftPct(legs.qtyPerp, perp, legs.qtySpot, spot) > cfg.drift ==>
           && after.legs == Rebalanced(legs, perp, spot) && after.rebalances == rebalances + 1
           && after.fees == fees + RebalanceFee(cfg, legs, after.legs, spot)
           && !SingleSeries(bars))
  {
    KeptOn(legs.qtyPerp, legs.entryPerp, notional, entryBar, marked, kept, cfg, bars);
    HeldNext(cfg, bars, entryBar, kept);
    if SingleSeries(bars) {
      SingleSeriesNeverDrifts(legs, bars, kept + 1, cfg.drift);
    }
    hide HeldAt, Rebalanced, DriftPct, SpotBought, RebalanceFee, Scheduled, SingleSeries, Mirrored, CostBasis;
  }

  lemma SurvivesByLoss(l: Legs, notional: real, cfg: Config, bar: Bar)
    requires cfg.leverage > 0.0
    ensures Survives(l.qtyPerp, l.entryPerp, notional, cfg, bar)
       <==> -PerpPnl(l, bar.perpClose) < LiquidationLoss(notional, cfg.leverage, cfg.maintenance)
  {
  }

  lemma LiquidatedIs(l: Legs, margin: real, perp: real, spot: real)
    ensures LiquidatedPnl(l, margin, perp, spot) == -Min(-PerpPnl(l, perp), margin) + SpotPnl(l, spot)
  {
  }

  /** Funding is what the offered bars accrue. */
  ghost predicate Funded(qty: real, funding: real, offered: seq<nat>, bars: seq<Bar>) {
    && (forall k :: 0 <= k < |offered| ==> offered[k] < |bars|)
    && funding == FundingOver(qty, bars, offered)
  }

  lemma FundedNext(qty: real, funding: real, offered: seq<nat>, bars: seq<Bar>, i: nat)
    requires Funded(qty, funding, offered, bars) && i < |bars|
    ensures Funded(qty, funding + BarFunding(qty, bars[i]), offered + [i], bars)
    ensures FundedCount(bars, offered + [i])
         == FundedCount(bars, offered) + if bars[i].accrual.Some? && bars[i].accrual.value != 0.0 then 1 else 0
  {
    hide BarFunding;
    assert (offered + [i])[..|offered|] == offered;
  }

  class CarryEpisode {
    const entryBar: nat
    const notionalPerp: real
    const marginPerp: real
    var legs: Legs
    var exitBar: Option<nat>
    var pricePnl: real
    var funding: real
    var fees: real
    var rebalances: nat
    var exitReason: Option<Reason>
    /** The bars whose funding was offered to the episode. */
    ghost var offered: seq<nat>
    /** The first bar it was not marked at, and the first bar at which it was not kept. */
    ghost var marked: nat
    ghost var kept: nat

    function Net(): real
      reads this
    {
      pricePnl + funding - fees
    }

    /** The books behind an episode are those its bars and the configuration give. */
    ghost predicate Valid(cfg: Config, bars: seq<Bar>)
      reads this
    {
      && Keeps(legs, rebalances, notionalPerp, marginPerp, entryBar, marked, kept, cfg, bars)
      && Funded(legs.qtyPerp, funding, offered, bars)
    }

    ghost function Holds(cfg: Config, bars: seq<Bar>): Held
      requires Valid(cfg, bars)
      reads this
    {
      KeepsFacts(legs, rebalances, notionalPerp, marginPerp, entryBar, marked, kept, cfg, bars);
      HeldAt(cfg, bars, entryBar, kept)
    }

    predicate SurvivesBar(cfg: Config, bar: Bar)
      requires cfg.leverage > 0.0
      reads this
    {
      Survives(legs.qtyPerp, legs.entryPerp, notionalPerp, cfg, bar)
    }

    /** Open after bar `i`: every bar since the entry bar has been offered once, in order. */
    ghost predicate OpenAfter(cfg: Config, bars: seq<Bar>, i: nat)
      reads this
    {
      && Valid(cfg, bars) && exitBar == None && offered == BarsAfter(entryBar, i)
      && fees == Holds(cfg, bars).fees
    }

    /** Closed: every bar after the entry bar up to the exit bar was offered exactly once, the price PnL is the marked
        one at the exit, or the capped one of a liquidation, and both exit fees are charged. It was liquidated at the
        first bar it did not survive, closed after the first exit signal, or kept to the end of the data. */
    ghost predicate Settled(cfg: Config, bars: seq<Bar>)
      reads this
    {
      && Valid(cfg, bars) && exitBar.Some? && entryBar <= exitBar.value < |bars| && exitReason.Some?
      && offered == BarsAfter(entryBar, exitBar.value)
      && var bar := bars[exitBar.value];
      && fees == Holds(cfg, bars).fees + (if exitReason.value == Liquidation
                                          then ExitFees(cfg, legs, bar.perpClose, bar.spotClose)
                                          else ExitFees(cfg, legs, bar.perpOpen, bar.spotOpen))
      && pricePnl == (if exitReason.value == Liquidation
                      then LiquidatedPnl(legs, marginPerp, bar.perpClose, bar.spotClose)
                      else PricePnl(legs, bar.perpOpen, bar.spotOpen))
      && match exitReason.value
         case Liquidation => marked == kept == exitBar.value && !SurvivesBar(cfg, bars[exitBar.value])
         case ExitSignal => marked == kept + 1 == exitBar.value && bars[kept].signal == 1
         case EndOfData => marked == kept + 1 == exitBar.value + 1 == |bars|
    }

    constructor (cfg: Config, bars: seq<Bar>, fillBar: nat)
      requires Accepts(cfg) && Priced(bars) && 0 < fillBar < |bars| && bars[fillBar - 1].signal == -1
      ensures marked == kept == fillBar
      ensures OpenAfter(cfg, bars, fillBar) && entryBar == fillBar && FundedCount(bars, offered) == 0
      ensures legs.qtyPerp * bars[fillBar].perpOpen == legs.qtySpot * bars[fillBar].spotOpen == cfg.baseNotional
      ensures Net() == -(cfg.baseNotional * cfg.perpFee + cfg.baseNotional * cfg.spotFee)
    {
      var perp, spot := bars[fillBar].perpOpen, bars[fillBar].spotOpen;
      ghost var h := Entered(cfg, perp, spot);
      entryBar := fillBar;
      notionalPerp := cfg.baseNotional;
      marginPerp := cfg.baseNotional / cfg.leverage;
      legs := Legs(cfg.baseNotional / perp, perp, cfg.baseNotional / spot, spot, 0.0);
      exitBar, exitReason, rebalances := None, None, 0;
      pricePnl, funding := 0.0, 0.0;
      fees := cfg.baseNotional * cfg.perpFee + cfg.baseNotional * cfg.spotFee;
      offered := [];
      marked, kept := fillBar, fillBar;
      new;
      KeptEntered(legs, cfg, bars, fillBar);
      HeldAtEntry(cfg, bars, fillBar);
      assert BarsAfter(fillBar, fillBar) == [];
    }

    method BookFundingBar(ghost cfg: Config, bars: seq<Bar>, i: nat) returns (booked: nat)
      requires Valid(cfg, bars) && i < |bars|
      modifies this`funding, this`offered
      ensures Valid(cfg, bars) && offered == old(offered) + [i]
      ensures FundedCount(bars, offered) == FundedCount(bars, old(offered)) + booked
    {
      hide Keeps, Funded, FundedCount, FundingOver;
      FundedNext(legs.qtyPerp, funding, offered, bars, i);
      offered := offered + [i];
      var acc := bars[i].accrual;
      if acc.None? || acc.value == 0.0 {
        return 0;
      }
      var paid := legs.qtyPerp * bars[i].perpClose * acc.value;
      assert paid == BarFunding(legs.qtyPerp, bars[i]);
      hide BarFunding;
      funding := funding + paid;
      return 1;
    }

    /** Marks the episode at a bar's close, offers the bar's funding, and liquidates when the perpetual's loss reaches
        the liquidation loss. */
    method MarkBar(cfg: Config, bars: seq<Bar>, i: nat) returns (booked: nat, liquidated: bool)
      requires Accepts(cfg) && i < |bars| && entryBar <= i
      requires if i == entryBar then OpenAfter(cfg, bars, i) else OpenAfter(cfg, bars, i - 1)
      requires marked == kept == i
      modifies this
      ensures liquidated <==> !SurvivesBar(cfg, bars[i])
      ensures !liquidated ==> marked == i + 1 && kept == i
      ensures if liquidated then Settled(cfg, bars) && exitBar == Some(i) && exitReason == Some(Liquidation)
              else OpenAfter(cfg, bars, i) && pricePnl == PricePnl(legs, bars[i].perpClose, bars[i].spotClose)
      ensures FundedCount(bars, old(offered)) + booked == FundedCount(bars, offered)
      ensures legs == old(legs)
      ensures fees == old(fees) + if liquidated then ExitFees(cfg, legs, bars[i].perpClose, bars[i].spotClose) else 0.0
    {
      KeepsFacts(legs, rebalances, notionalPerp, marginPerp, entryBar, marked, kept, cfg, bars);
      SurvivesByLoss(legs, notionalPerp, cfg, bars[i]);
      BarsAfterNext(entryBar, i);
      hide LiquidationLoss, FundedCount, BarsAfter, PricePnl, ExitFees, Keeps, Funded, Accepts, Priced, HeldAt, PerpPnl,
           SpotPnl, LiquidatedPnl, Survives, Settled;
      var perp, spot := bars[i].perpClose, bars[i].spotClose;
      pricePnl := PricePnl(legs, perp, spot);
      booked := 0;
      if i > entryBar {
        booked := BookFundingBar(cfg, bars, i);
      }
      var loss := -PerpPnl(legs, perp);
      liquidated := loss >= LiquidationLoss(notionalPerp, cfg.leverage, cfg.maintenance);
      if liquidated {
        Liquidate(cfg, bars, i, loss);
      } else {
        KeptMarked(legs, rebalances, notionalPerp, marginPerp, entryBar, marked, kept, cfg, bars);
        marked := marked + 1;
      }
    }

    /** Closes both legs at a bar's close; the perpetual's loss stops at its margin. */
    method Liquidate(cfg: Config, bars: seq<Bar>, i: nat, loss: real)
      requires i < |bars| && OpenAfter(cfg, bars, i) && marked == kept == i && cfg.leverage > 0.0
      requires loss == -PerpPnl(legs, bars[i].perpClose) && !SurvivesBar(cfg, bars[i])
      modifies this`exitBar, this`pricePnl, this`fees, this`exitReason
      ensures Settled(cfg, bars) && exitBar == Some(i) && exitReason == Some(Liquidation)
      ensures fees == old(fees) + ExitFees(cfg, legs, bars[i].perpClose, bars[i].spotClose)
    {
      LiquidatedIs(legs, marginPerp, bars[i].perpClose, bars[i].spotClose);
      KeepsFacts(legs, rebalances, notionalPerp, marginPerp, entryBar, marked, kept, cfg, bars);
      hide BarsAfter, PricePnl, ExitFees, Keeps, Funded, HeldAt, PerpPnl, SpotPnl, LiquidatedPnl, Survives;
      pricePnl := -Min(loss, marginPerp) + SpotPnl(legs, bars[i].spotClose);
      fees := fees + ExitFees(cfg, legs, bars[i].perpClose, bars[i].spotClose);
      exitBar, exitReason := Some(i), Some(Liquidation);
    }

    method ClosePair(cfg: Config, bars: seq<Bar>, fillBar: nat, reason: Reason)
      requires fillBar < |bars| && entryBar <= fillBar && reason != Liquidation
      requires OpenAfter(cfg, bars, fillBar)
      requires if reason == ExitSignal then marked == kept + 1 == fillBar && bars[kept].signal == 1
               else marked == kept + 1 == fillBar + 1 == |bars|
      modifies this`exitBar, this`pricePnl, this`fees, this`exitReason
      ensures Settled(cfg, bars) && exitBar == Some(fillBar) && exitReason == Some(reason)
      ensures fees == old(fees) + ExitFees(cfg, legs, bars[fillBar].perpOpen, bars[fillBar].spotOpen)
    {
      var perp, spot := bars[fillBar].perpOpen, bars[fillBar].spotOpen;
      exitBar := Some(fillBar);
      pricePnl := PricePnl(legs, perp, spot);
      fees := fees + ExitFees(cfg, legs, perp, spot);
      exitReason := Some(reason);
    }

    /** Rebalances the spot leg when it drifted past the threshold: the marked price PnL at the fill stays, the
        notionals become equal, and on a single series nothing ever happens. */
    method MaybeRebalance(cfg: Config, bars: seq<Bar>, fillBar: nat, ghost i: nat)
      requires Accepts(cfg) && Priced(bars) && i + 1 == fillBar < |bars| && OpenAfter(cfg, bars, i)
      requires kept == i && marked == i + 1 && bars[i].signal != 1
      modifies this`legs, this`fees, this`rebalances, this`kept
      ensures OpenAfter(cfg, bars, i) && kept == marked == i + 1
      ensures var bar := bars[fillBar];
        && PricePnl(legs, bar.perpOpen, bar.spotOpen) == PricePnl(old(legs), bar.perpOpen, bar.spotOpen)
        && var drift := DriftPct(old(legs.qtyPerp), bar.perpOpen, old(legs.qtySpot), bar.spotOpen);
        && (drift <= cfg.drift ==> legs == old(legs) && fees == old(fees) && rebalances == old(rebalances))
        && (drift > cfg.drift ==>
             && Hedged(legs, bar.perpOpen, bar.spotOpen) && !SingleSeries(bars)
             && rebalances == old(rebalances) + 1
             && fees == old(fees) + RebalanceFee(cfg, old(legs), legs, bar.spotOpen))
    {
      KeepsFacts(legs, rebalances, notionalPerp, marginPerp, entryBar, marked, kept, cfg, bars);
      KeptNext(legs, rebalances, notionalPerp, marginPerp, entryBar, marked, kept, cfg, bars, fees,
               HeldAt(cfg, bars, entryBar, kept + 1));
      hide Accepts, Priced, PricePnl, CostBasis, Rebalanced, DriftPct, SpotBought, Hedged, Keeps, Funded, SingleSeries,
           BarsAfter, HeldAt, RebalanceFee;
      var perp, spot := bars[fillBar].perpOpen, bars[fillBar].spotOpen;
      kept := kept + 1;
      var drift := DriftPct(legs.qtyPerp, perp, legs.qtySpot, spot);
      if drift <= cfg.drift {
        return;
      }
      RebalanceKeepsPnl(legs, perp, spot);
      var after := Rebalanced(legs, perp, spot);
      fees := fees + RebalanceFee(cfg, legs, after, spot);
      legs := after;
      rebalances := rebalances + 1;
    }
  }

  // ---------------------------------------------------------------- a whole run

  function NetTotal(episodes: seq<CarryEpisode>): real
    reads set e | e in episodes
  {
    if episodes == [] then 0.0
    else NetTotal(episodes[..|episodes| - 1]) + episodes[|episodes| - 1].Net()
  }

  ghost function FundedTotal(episodes: seq<CarryEpisode>, bars: seq<Bar>): nat
    reads set e | e in episodes
  {
    if episodes == [] then 0
    else
      FundedTotal(episodes[..|episodes| - 1], bars) + FundedCount(bars, episodes[|episodes| - 1].offered)
  }

  function Liquidated(episodes: seq<CarryEpisode>): nat
    reads set e | e in episodes
  {
    if episodes == [] then 0
    else
      Liquidated(episodes[..|episodes| - 1])
      + if episodes[|episodes| - 1].exitReason == Some(Liquidation) then 1 else 0
  }

  /** No short signal among the bars where an entry was possible. */
  ghost predicate Idle(bars: seq<Bar>, from: nat, to: int) {
    to <= |bars| && forall j :: from <= j < to ==> bars[j].signal != -1
  }

  /** The bar at which the last closed episode ended. */
  ghost function LastExit(episodes: seq<CarryEpisode>): nat
    reads set e | e in episodes
  {
    if episodes != [] && episodes[|episodes| - 1].exitBar.Some? then episodes[|episodes| - 1].exitBar.value else 0
  }

  /** The closed episodes: all settled, one after the other without a short signal missed in between, and counted. */
  ghost predicate Ledger(episodes: seq<CarryEpisode>, cfg: Config, bars: seq<Bar>, equity: real, liquidations: nat,
                         funded: nat)
    reads set e | e in episodes
  {
    && (forall k :: 0 <= k < |episodes| ==> episodes[k].Settled(cfg, bars))
    && (forall k :: 0 <= k < |episodes| ==>
          && LastExit(episodes[..k]) < episodes[k].entryBar
          && Idle(bars, LastExit(episodes[..k]), episodes[k].entryBar - 1))
    && equity == cfg.initialCapital + NetTotal(episodes)
    && liquidations == Liquidated(episodes)
    && funded == FundedTotal(episodes, bars)
  }

  lemma LedgerSnoc(episodes: seq<CarryEpisode>, e: CarryEpisode, cfg: Config, bars: seq<Bar>, equity: real,
                   liquidations: nat, funded: nat)
    requires Ledger(episodes, cfg, bars, equity, liquidations, funded) && e.Settled(cfg, bars)
    requires LastExit(episodes) < e.entryBar && Idle(bars, LastExit(episodes), e.entryBar - 1)
    ensures Ledger(episodes + [e], cfg, bars, equity + e.Net(),
                   liquidations + if e.exitReason == Some(Liquidation) then 1 else 0,
                   funded + FundedCount(bars, e.offered))
  {
    hide CarryEpisode.Settled, FundedCount, Idle, NetTotal, Liquidated, FundedTotal, LastExit;
    var all := episodes + [e];
    TotalsSnoc(episodes, e, bars);
    assert all[..|episodes|] == episodes;
    forall k | 0 <= k < |episodes|
      ensures all[k] == episodes[k] && all[..k] == episodes[..k]
    {
    }
  }

  lemma TotalsSnoc(episodes: seq<CarryEpisode>, e: CarryEpisode, bars: seq<Bar>)
    ensures NetTotal(episodes + [e]) == NetTotal(episodes) + e.Net()
    ensures Liquidated(episodes + [e]) == Liquidated(episodes) + if e.exitReason == Some(Liquidation) then 1 else 0
    ensures FundedTotal(episodes + [e], bars) == FundedTotal(episodes, bars) + FundedCount(bars, e.offered)
  {
  }

  /** The running totals of a run. */
  datatype Account = Account(equity: real, episodes: seq<CarryEpisode>, liquidations: nat, funded: nat)

  ghost function OpenFunded(pos: CarryEpisode?, bars: seq<Bar>): nat
    reads pos
  {
    if pos == null then 0 else FundedCount(bars, pos.offered)
  }

  /** The account and the open position at bar `i`, offered bars up to `last`, before or after the bar's mark. */
  ghost predicate Holding(acc: Account, pos: CarryEpisode?, cfg: Config, bars: seq<Bar>, i: nat, last: nat,
                          marked: bool)
    reads (set e | e in acc.episodes), pos
  {
    && OpenFunded(pos, bars) <= acc.funded
    && Ledger(acc.episodes, cfg, bars, acc.equity, acc.liquidations, acc.funded - OpenFunded(pos, bars))
    && LastExit(acc.episodes) <= i
    && (pos == null ==> Idle(bars, LastExit(acc.episodes), i))
    && (pos != null ==>
         && pos !in acc.episodes && pos.entryBar <= i && pos.OpenAfter(cfg, bars, last)
         && pos.kept == i && pos.marked == (if marked then i + 1 else i)
         && LastExit(acc.episodes) < pos.entryBar && Idle(bars, LastExit(acc.episodes), pos.entryBar - 1))
  }

  /** The bar last offered to a position when bar `i` begins. */
  function LastOffered(pos: CarryEpisode?, i: nat): nat {
    if pos == null || i == 0 || i <= pos.entryBar then i else i - 1
  }

  /** Books a settled episode. */
  method Book(acc: Account, pos: CarryEpisode, ghost cfg: Config, ghost bars: seq<Bar>) returns (acc': Account)
    requires pos.Settled(cfg, bars) && OpenFunded(pos, bars) <= acc.funded
    requires Ledger(acc.episodes, cfg, bars, acc.equity, acc.liquidations, acc.funded - OpenFunded(pos, bars))
    requires LastExit(acc.episodes) < pos.entryBar && Idle(bars, LastExit(acc.episodes), pos.entryBar - 1)
    ensures acc'.episodes == acc.episodes + [pos] && LastExit(acc'.episodes) == pos.exitBar.value
    ensures Ledger(acc'.episodes, cfg, bars, acc'.equity, acc'.liquidations, acc'.funded)
  {
    hide Ledger, CarryEpisode.Valid, FundedCount, Idle;
    LedgerSnoc(acc.episodes, pos, cfg, bars, acc.equity, acc.liquidations, acc.funded - OpenFunded(pos, bars));
    acc' := Account(acc.equity + pos.Net(), acc.episodes + [pos],
                    acc.liquidations + if pos.exitReason == Some(Liquidation) then 1 else 0, acc.funded);
  }

  /** The marking half of a bar: funding, and liquidation. */
  method MarkPosition(cfg: Config, bars: seq<Bar>, i: nat, acc: Account, pos: CarryEpisode)
    returns (acc': Account, pos': CarryEpisode?)
    requires Accepts(cfg) && i < |bars| && Holding(acc, pos, cfg, bars, i, LastOffered(pos, i), false)
    modifies pos
    ensures Holding(acc', pos', cfg, bars, i, i, true)
    ensures pos' == null || pos' == pos
  {
    hide Ledger, CarryEpisode.Valid, FundedCount, BarsAfter, Accepts, PerpPnl, PricePnl, LiquidatedPnl,
         Survives;
    var booked, liquidated := pos.MarkBar(cfg, bars, i);
    acc', pos' := acc.(funded := acc.funded + booked), pos;
    if liquidated {
      acc' := Book(acc', pos, cfg, bars);
      pos' := null;
    }
  }

  /** The acting half of a bar: open, close or rebalance at the next bar's open. */
  method Act(cfg: Config, bars: seq<Bar>, i: nat, acc: Account, pos: CarryEpisode?)
    returns (acc': Account, pos': CarryEpisode?)
    requires Accepts(cfg) && Priced(bars) && i + 1 < |bars| && Holding(acc, pos, cfg, bars, i, i, true)
    modifies if pos == null then {} else {pos}
    ensures Holding(acc', pos', cfg, bars, i + 1, LastOffered(pos', i + 1), false)
    ensures pos' == null || pos' == pos || fresh(pos')
  {
    hide Ledger, CarryEpisode.Valid, FundedCount, BarsAfter, Accepts, Priced, PerpPnl, PricePnl, LiquidatedPnl,
         SingleSeries, Survives;
    acc', pos' := acc, pos;
    if pos == null {
      if bars[i].signal == -1 {
        pos' := new CarryEpisode(cfg, bars, i + 1);
      }
    } else if bars[i].signal == 1 {
      var exitBar := i + 1;
      BarsAfterNext(pos.entryBar, exitBar);
      if exitBar > pos.entryBar {
        var booked := pos.BookFundingBar(cfg, bars, exitBar);
        acc' := acc'.(funded := acc'.funded + booked);
      }
      pos.ClosePair(cfg, bars, exitBar, ExitSignal);
      acc' := Book(acc', pos, cfg, bars);
      pos' := null;
    } else {
      pos.MaybeRebalance(cfg, bars, i + 1, i);
    }
  }

  /** The account when bar `i` begins, or when the data has ended. */
  ghost predicate AtBar(acc: Account, pos: CarryEpisode?, cfg: Config, bars: seq<Bar>, i: nat)
    reads (set e | e in acc.episodes), pos
  {
    if i < |bars| then Holding(acc, pos, cfg, bars, i, LastOffered(pos, i), false)
    else if i == 0 then
      pos == null && acc.episodes == [] && Ledger([], cfg, bars, acc.equity, acc.liquidations, acc.funded)
    else Holding(acc, pos, cfg, bars, i - 1, i - 1, true)
  }

  lemma AtStart(cfg: Config, bars: seq<Bar>)
    ensures AtBar(Account(cfg.initialCapital, [], 0, 0), null, cfg, bars, 0)
  {
  }

  method RunBar(cfg: Config, bars: seq<Bar>, i: nat, acc: Account, pos: CarryEpisode?)
    returns (acc': Account, pos': CarryEpisode?)
    requires Accepts(cfg) && Priced(bars) && i < |bars| && AtBar(acc, pos, cfg, bars, i)
    modifies if pos == null then {} else {pos}
    ensures AtBar(acc', pos', cfg, bars, i + 1)
    ensures pos' == null || pos' == pos || fresh(pos')
  {
    hide Accepts, Priced, Holding;
    acc', pos' := acc, pos;
    if pos != null {
      acc', pos' := MarkPosition(cfg, bars, i, acc, pos);
    } else {
      NothingToMark(acc, cfg, bars, i);
    }
    if i + 1 < |bars| {
      acc', pos' := Act(cfg, bars, i, acc', pos');
    }
  }

  lemma NothingToMark(acc: Account, cfg: Config, bars: seq<Bar>, i: nat)
    requires Holding(acc, null, cfg, bars, i, i, false)
    ensures Holding(acc, null, cfg, bars, i, i, true)
  {
  }

  /** All possible entries: after the last episode no short signal was missed either. */
  ghost predicate Complete(acc: Account, cfg: Config, bars: seq<Bar>)
    reads set e | e in acc.episodes
  {
    && Ledger(acc.episodes, cfg, bars, acc.equity, acc.liquidations, acc.funded)
    && Idle(bars, LastExit(acc.episodes), |bars| - 1)
  }

  method Finish(cfg: Config, bars: seq<Bar>, acc: Account, pos: CarryEpisode?) returns (acc': Account)
    requires AtBar(acc, pos, cfg, bars, |bars|)
    modifies if pos == null then {} else {pos}
    ensures Complete(acc', cfg, bars)
  {
    hide Ledger, CarryEpisode.Valid, FundedCount, PricePnl, LiquidatedPnl, Survives;
    acc' := acc;
    if pos != null {
      pos.ClosePair(cfg, bars, |bars| - 1, EndOfData);
      acc' := Book(acc, pos, cfg, bars);
    }
  }

  /** A whole run. Every episode is settled: offered funding once for each bar after its entry up to its exit,
      whatever ended it. Episodes open at every short signal seen while flat and do not overlap; the equity is the
      initial capital and the episodes' net PnL. */
  method Run(cfg: Config, bars: seq<Bar>) returns (acc: Account)
    requires Accepts(cfg) && Priced(bars)
    ensures Complete(acc, cfg, bars)
  {
    hide Accepts, Priced, Complete, AtBar;
    acc := Account(cfg.initialCapital, [], 0, 0);
    var pos: CarryEpisode? := null;
    AtStart(cfg, bars);
    for i := 0 to |bars|
      invariant pos != null ==> fresh(pos)
      invariant AtBar(acc, pos, cfg, bars, i)
    {
      acc, pos := RunBar(cfg, bars, i, acc, pos);
    }
    acc := Finish(cfg, bars, acc, pos);
  }

  // ---------------------------------------------------------------- a run follows from its bars

  /** How long an episode was kept before it ended. */
  function KeptTo(exit: nat, reason: Reason): nat { if reason == ExitSignal && exit > 0 then exit - 1 else exit }

  /** The net PnL of an episode, from its bars and the configuration alone. */
  ghost function NetOf(cfg: Config, bars: seq<Bar>, entry: nat, exit: nat, reason: Reason): real
    requires Accepts(cfg) && Priced(bars) && entry <= KeptTo(exit, reason) && exit < |bars|
  {
    BarsAfterBounds(entry, exit);
    var h := HeldAt(cfg, bars, entry, KeptTo(exit, reason));
    var bar := bars[exit];
    FundingOver(h.legs.qtyPerp, bars, BarsAfter(entry, exit)) - h.fees
    + if reason == Liquidation then
        LiquidatedPnl(h.legs, cfg.baseNotional / cfg.leverage, bar.perpClose, bar.spotClose)
        - ExitFees(cfg, h.legs, bar.perpClose, bar.spotClose)
      else
        PricePnl(h.legs, bar.perpOpen, bar.spotOpen) - ExitFees(cfg, h.legs, bar.perpOpen, bar.spotOpen)
  }

  /** A settled episode's net PnL is what its bars give. */
  lemma SettledNet(e: CarryEpisode, cfg: Config, bars: seq<Bar>)
    requires e.Settled(cfg, bars)
    ensures Accepts(cfg) && Priced(bars)
    ensures 0 < e.entryBar <= KeptTo(e.exitBar.value, e.exitReason.value) && e.exitBar.value < |bars|
    ensures e.Net() == NetOf(cfg, bars, e.entryBar, e.exitBar.value, e.exitReason.value)
  {
    hide FundingOver, BarsAfter, PricePnl, LiquidatedPnl, ExitFees, HeldAt, Survives, SingleSeries, Accepts, Priced;
  }

  /** What ends an episode. */
  ghost predicate Ends(qty: real, entry: real, notional: real, entryBar: nat, marked: nat, kept: nat, exit: nat,
                       reason: Reason, cfg: Config, bars: seq<Bar>)
  {
    && kept < |bars| && Scheduled(qty, entry, notional, entryBar, marked, kept, cfg, bars)
    && match reason
       case Liquidation => marked == kept == exit && !Survives(qty, entry, notional, cfg, bars[kept])
       case ExitSignal => marked == kept + 1 == exit < |bars| && bars[kept].signal == 1
       case EndOfData => marked == kept + 1 == exit + 1 == |bars|
  }

  lemma SettledEnds(e: CarryEpisode, cfg: Config, bars: seq<Bar>)
    requires e.Settled(cfg, bars)
    ensures Accepts(cfg) && Priced(bars) && 0 < e.entryBar < |bars| && bars[e.entryBar - 1].signal == -1
    ensures Ends(cfg.baseNotional / bars[e.entryBar].perpOpen, bars[e.entryBar].perpOpen, cfg.baseNotional, e.entryBar,
                 e.marked, e.kept, e.exitBar.value, e.exitReason.value, cfg, bars)
  {
    KeepsFacts(e.legs, e.rebalances, e.notionalPerp, e.marginPerp, e.entryBar, e.marked, e.kept, cfg, bars);
    var h := HeldAt(cfg, bars, e.entryBar, e.kept);
    hide FundingOver, BarsAfter, PricePnl, LiquidatedPnl, ExitFees, HeldAt, Survives, SingleSeries, Accepts, Priced;
  }

  /** An entry leaves only one way out: the first bar it does not survive, the bar after the first exit signal, or the
      end of the data. */
  lemma OneEnd(qty: real, entry: real, notional: real, entryBar: nat, marked: nat, kept: nat, exit: nat, reason: Reason,
               marked': nat, kept': nat, exit': nat, reason': Reason, cfg: Config, bars: seq<Bar>)
    requires Ends(qty, entry, notional, entryBar, marked, kept, exit, reason, cfg, bars)
    requires Ends(qty, entry, notional, entryBar, marked', kept', exit', reason', cfg, bars)
    ensures exit == exit' && reason == reason'
  {
    hide Survives;
  }

  /** Two settled episodes that entered at the same bar ended alike, with the same net PnL. */
  lemma SameEntrySameEpisode(e: CarryEpisode, f: CarryEpisode, cfg: Config, bars: seq<Bar>)
    requires e.Settled(cfg, bars) && f.Settled(cfg, bars) && e.entryBar == f.entryBar
    ensures e.exitBar == f.exitBar && e.exitReason == f.exitReason && e.Net() == f.Net()
  {
    SettledEnds(e, cfg, bars);
    SettledEnds(f, cfg, bars);
    OneEnd(cfg.baseNotional / bars[e.entryBar].perpOpen, bars[e.entryBar].perpOpen, cfg.baseNotional, e.entryBar,
           e.marked, e.kept, e.exitBar.value, e.exitReason.value,
           f.marked, f.kept, f.exitBar.value, f.exitReason.value, cfg, bars);
    SettledNet(e, cfg, bars);
    SettledNet(f, cfg, bars);
    hide NetOf, Ends, CarryEpisode.Valid, CarryEpisode.Net;
  }

  /** The facts of a ledger that fix its k-th entry: it answers the first short signal from the last exit on. */
  lemma EntryAnswersFirst(es: seq<CarryEpisode>, cfg: Config, bars: seq<Bar>, equity: real, liquidations: nat,
                          funded: nat, k: nat)
    requires Ledger(es, cfg, bars, equity, liquidations, funded) && k < |es|
    ensures es[k].Settled(cfg, bars) && LastExit(es[..k]) < es[k].entryBar < |bars|
    ensures bars[es[k].entryBar - 1].signal == -1 && Idle(bars, LastExit(es[..k]), es[k].entryBar - 1)
  {
    SettledEnds(es[k], cfg, bars);
    hide CarryEpisode.Settled;
  }

  lemma {:induction false} SameEpisodes(es: seq<CarryEpisode>, fs: seq<CarryEpisode>, cfg: Config, bars: seq<Bar>,
                                        x: Account, y: Account, k: nat)
    requires x.episodes == es && Ledger(es, cfg, bars, x.equity, x.liquidations, x.funded)
    requires y.episodes == fs && Ledger(fs, cfg, bars, y.equity, y.liquidations, y.funded)
    requires k <= |es| && k <= |fs|
    ensures LastExit(es[..k]) == LastExit(fs[..k]) && NetTotal(es[..k]) == NetTotal(fs[..k])
  {
    hide Ledger, LastExit, NetTotal;
    if k == 0 {
      assert es[..0] == fs[..0];
    } else {
      SameEpisodes(es, fs, cfg, bars, x, y, k - 1);
      NextAlike(es, fs, cfg, bars, x, y, k - 1);
      TakeNext(es, k - 1);
      TakeNext(fs, k - 1);
    }
  }

  lemma NextAlike(es: seq<CarryEpisode>, fs: seq<CarryEpisode>, cfg: Config, bars: seq<Bar>, x: Account, y: Account,
                  k: nat)
    requires Ledger(es, cfg, bars, x.equity, x.liquidations, x.funded) && k < |es|
    requires Ledger(fs, cfg, bars, y.equity, y.liquidations, y.funded) && k < |fs|
    requires LastExit(es[..k]) == LastExit(fs[..k])
    ensures es[k].exitBar.Some? && es[k].exitBar == fs[k].exitBar && es[k].Net() == fs[k].Net()
  {
    hide Ledger, LastExit, CarryEpisode.Valid, CarryEpisode.Net, Idle;
    EntryAnswersFirst(es, cfg, bars, x.equity, x.liquidations, x.funded, k);
    EntryAnswersFirst(fs, cfg, bars, y.equity, y.liquidations, y.funded, k);
    FirstShort(bars, LastExit(es[..k]), es[k].entryBar, fs[k].entryBar);
    SameEntrySameEpisode(es[k], fs[k], cfg, bars);
  }

  lemma TakeNext(es: seq<CarryEpisode>, k: nat)
    requires k < |es|
    ensures NetTotal(es[..k + 1]) == NetTotal(es[..k]) + es[k].Net()
    ensures LastExit(es[..k + 1]) == if es[k].exitBar.Some? then es[k].exitBar.value else 0
  {
    assert es[..k + 1][..k] == es[..k];
  }

  lemma FirstShort(bars: seq<Bar>, from: nat, a: nat, b: nat)
    requires from < a < |bars| && bars[a - 1].signal == -1 && Idle(bars, from, a - 1)
    requires from < b < |bars| && bars[b - 1].signal == -1 && Idle(bars, from, b - 1)
    ensures a == b
  {
  }

  /** The bars and the configuration determine the whole run: any two complete accounts of it have as many episodes and
      the same equity. */
  lemma RunIsDetermined(x: Account, y: Account, cfg: Config, bars: seq<Bar>)
    requires Complete(x, cfg, bars) && Complete(y, cfg, bars)
    ensures |x.episodes| == |y.episodes| && x.equity == y.equity
  {
    var n := if |x.episodes| <= |y.episodes| then |x.episodes| else |y.episodes|;
    SameEpisodes(x.episodes, y.episodes, cfg, bars, x, y, n);
    NoneAfter(x, cfg, bars, n);
    NoneAfter(y, cfg, bars, n);
    WholeOf(x.episodes);
    WholeOf(y.episodes);
  }

  lemma WholeOf(es: seq<CarryEpisode>)
    ensures es[..|es|] == es
  {
  }

  /** After the exit of a run's last episode no entry was possible; so an episode beyond it shows a short signal. */
  lemma NoneAfter(acc: Account, cfg: Config, bars: seq<Bar>, k: nat)
    requires Complete(acc, cfg, bars) && k <= |acc.episodes|
    ensures k == |acc.episodes| <==> Idle(bars, LastExit(acc.episodes[..k]), |bars| - 1)
  {
    WholeOf(acc.episodes);
    if k < |acc.episodes| {
      EntryAnswersFirst(acc.episodes, cfg, bars, acc.equity, acc.liquidations, acc.funded, k);
    }
  }

  /** On a single series the legs cancel: a settled episode made no price PnL, except that a liquidation keeps the
      part of the perpetual's loss beyond its margin. */
  lemma SingleSeriesPnl(e: CarryEpisode, cfg: Config, bars: seq<Bar>)
    requires e.Settled(cfg, bars) && SingleSeries(bars)
    ensures e.pricePnl == if e.exitReason == Some(Liquidation)
                          then Max(0.0, -PerpPnl(e.legs, bars[e.exitBar.value].perpClose) - e.marginPerp)
                          else 0.0
  {
    KeepsMirrored(e.legs, e.rebalances, e.notionalPerp, e.marginPerp, e.entryBar, e.marked, e.kept, cfg, bars);
    MirroredCancels(e.legs, bars[e.exitBar.value].perpOpen);
    MirroredLiquidation(e.legs, e.marginPerp, bars[e.exitBar.value].perpClose);
    hide Keeps, Funded, HeldAt, BarsAfter, Survives, ExitFees, PricePnl, LiquidatedPnl, PerpPnl, Mirrored;
  }

  lemma MirroredLiquidation(l: Legs, margin: real, price: real)
    requires Mirrored(l)
    ensures LiquidatedPnl(l, margin, price, price) == Max(0.0, -PerpPnl(l, price) - margin)
  {
  }

  /** At every bar the marked price PnL of an episode, open or closed, is 0 as well. */
  lemma SingleSeriesMarks(e: CarryEpisode, cfg: Config, bars: seq<Bar>, j: nat)
    requires e.Valid(cfg, bars) && SingleSeries(bars) && j < |bars|
    ensures PricePnl(e.legs, bars[j].perpClose, bars[j].spotClose) == 0.0
    ensures PricePnl(e.legs, bars[j].perpOpen, bars[j].spotOpen) == 0.0
  {
    KeepsMirrored(e.legs, e.rebalances, e.notionalPerp, e.marginPerp, e.entryBar, e.marked, e.kept, cfg, bars);
    hide Keeps, Funded, HeldAt, PricePnl, Mirrored;
    MirroredCancels(e.legs, bars[j].perpClose);
    MirroredCancels(e.legs, bars[j].perpOpen);
  }

  lemma MirroredCancels(l: Legs, price: real)
    requires Mirrored(l)
    ensures PricePnl(l, price, price) == 0.0
  {
  }

  lemma KeepsMirrored(legs: Legs, rebalances: nat, notional: real, margin: real, entryBar: nat, marked: nat, kept: nat,
                      cfg: Config, bars: seq<Bar>)
    requires Keeps(legs, rebalances, notional, margin, entryBar, marked, kept, cfg, bars) && SingleSeries(bars)
    ensures Mirrored(legs)
  {
    hide HeldAt, Scheduled;
  }

  /** Each bar after the entry up to the exit was offered to a settled episode exactly once, and no other bar. */
  lemma OfferedOnce(e: CarryEpisode, cfg: Config, bars: seq<Bar>, i: nat)
    requires e.Settled(cfg, bars)
    ensures multiset(e.offered)[i] == if e.entryBar < i <= e.exitBar.value then 1 else 0
  {
    BarsAfterOnce(e.entryBar, e.exitBar.value, i);
  }

  lemma {:induction false} BarsAfterOnce(a: nat, b: nat, i: nat)
    ensures multiset(BarsAfter(a, b))[i] == if a < i <= b then 1 else 0
  {
    if b > a {
      BarsAfterOnce(a, b - 1, i);
      OneMore(BarsAfter(a, b - 1), b, i);
    }
  }

  lemma OneMore(xs: seq<nat>, x: nat, i: nat)
    ensures multiset(xs + [x])[i] == multiset(xs)[i] + if x == i then 1 else 0
  {
  }
}
