/**
  The money bookkeeping of the backtester's open/close path: entries, scale-ins, partial and full
  closes, margin-mode positions, funding, and the synthetic close at the end of the data. Amounts are
  exact reals.
 */
module LedgerEngine {
  import opened Common

  /** The execution spec of a lot-aware run; `lot` is the size step (ten to the minus size_decimals). */
  datatype Spec = Spec(takerFee: real, lot: real, minNotional: real, minNotionalMargin: real) {
    predicate Valid() { 0.0 <= takerFee < 0.1 && lot > 0.0 }
    function Threshold(): real { minNotional * (1.0 + minNotionalMargin) }
  }

  const LOT_SLACK: real := 0.000000001

  const DUST: real := 0.000000000001

  /** The adapter's lot floor: it rounds down after adding a billionth of a lot. */
  function FloorLot(q: real, lot: real): real
    requires lot > 0.0
  {
    if q <= 0.0 then 0.0 else (q / lot + LOT_SLACK).Floor as real * lot
  }

  ghost predicate IsLots(q: real, n: int, lot: real) { q == n as real * lot }

  ghost predicate WholeLots(q: real, lot: real) {
    exists n :: IsLots(q, n, lot)
  }

  lemma Scale(a: real, b: real, c: real)
    requires c >= 0.0
    ensures a <= b ==> a * c <= b * c
    ensures a < b && c > 0.0 ==> a * c < b * c
  {
  }

  lemma FloorLotIsWhole(q: real, lot: real) returns (n: int)
    requires lot > 0.0
    ensures IsLots(FloorLot(q, lot), n, lot)
    ensures n == if q <= 0.0 then 0 else (q / lot + LOT_SLACK).Floor
    ensures 0.0 <= FloorLot(q, lot) <= Max(q, 0.0) + LOT_SLACK * lot
  {
    if q <= 0.0 {
      n := 0;
    } else {
      n := (q / lot + LOT_SLACK).Floor;
      DivMul(q, lot);
      assert 0.0 <= n as real <= q / lot + LOT_SLACK;
      Scale(n as real, q / lot + LOT_SLACK, lot);
      Scale(0.0, n as real, lot);
      assert (q / lot + LOT_SLACK) * lot == q / lot * lot + LOT_SLACK * lot;
    }
  }

  /** Flooring a part of a whole-lot position never exceeds the position, slack included. */
  lemma FloorLotFits(q: real, p: real, lot: real)
    requires lot > 0.0 && 0.0 <= q <= p && WholeLots(p, lot)
    ensures FloorLot(q, lot) <= p
    ensures WholeLots(p - FloorLot(q, lot), lot)
  {
    var n :| IsLots(p, n, lot);
    var m := FloorLotIsWhole(q, lot);
    assert IsLots(p - FloorLot(q, lot), n - m, lot);
    if q > 0.0 {
      LotCount(q, n, lot);
      Scale(m as real, n as real, lot);
    }
  }

  lemma LotCount(q: real, n: int, lot: real)
    requires lot > 0.0 && q <= n as real * lot
    ensures (q / lot + LOT_SLACK).Floor <= n
  {
    DivMul(q, lot);
    Scale(n as real, q / lot, lot);
    assert q / lot <= n as real;
    assert q / lot + LOT_SLACK < (n + 1) as real;
  }

  lemma DivMul(a: real, b: real)
    requires b > 0.0
    ensures a / b * b == a
    ensures a > 0.0 ==> a / b > 0.0
    ensures a >= 0.0 ==> a / b >= 0.0
  {
  }

  // ---------------------------------------------------------------- events and trades

  datatype EventKind = OpenFill | AddFill | CloseFill | FundingAccrual | TerminalClose

  /** One recorded ledger event. Amounts that do not apply to a kind are 0. */
  datatype LedgerEvent = LedgerEvent(kind: EventKind, side: Side, quantity: real, price: real, fee: real,
                                     gross: real, entryFeeAllocated: real, funding: real,
                                     qtyBefore: real, qtyAfter: real, cashBefore: real, cashAfter: real,
                                     avgBefore: real)

  /** Totals over a run of events: gross realised, fees charged, entry fees charged, entry fees
      allocated to closes, funding, quantity opened and quantity closed. */
  datatype Totals = Totals(gross: real, fees: real, entryFees: real, feesAllocated: real, funding: real,
                           bought: real, sold: real) {
    function Add(e: LedgerEvent): Totals {
      var entry := e.kind == OpenFill || e.kind == AddFill;
      var exit := e.kind == CloseFill || e.kind == TerminalClose;
      Totals(gross + e.gross, fees + e.fee, entryFees + (if entry then e.fee else 0.0),
             feesAllocated + e.entryFeeAllocated, funding + e.funding,
             bought + (if entry then e.quantity else 0.0), sold + (if exit then e.quantity else 0.0))
    }
  }

  function TotalsOf(es: seq<LedgerEvent>): Totals {
    if es == [] then Totals(0.0, 0.0, 0.0, 0.0, 0.0, 0.0, 0.0)
    else TotalsOf(es[..|es| - 1]).Add(es[|es| - 1])
  }

  lemma TotalsSnoc(es: seq<LedgerEvent>, e: LedgerEvent)
    ensures TotalsOf(es + [e]) == TotalsOf(es).Add(e)
  {
  }

  /** Cash and quantity run through the events without a gap. */
  ghost predicate Continuous(es: seq<LedgerEvent>, cash0: real, cash: real, qty: real) {
    if es == [] then cash == cash0 && qty == 0.0
    else
      var e := es[|es| - 1];
      && e.cashAfter == cash
      && e.qtyAfter == qty
      && Continuous(es[..|es| - 1], cash0, e.cashBefore, e.qtyBefore)
  }

  lemma ContinuousSnoc(es: seq<LedgerEvent>, e: LedgerEvent, cash0: real)
    requires Continuous(es, cash0, e.cashBefore, e.qtyBefore)
    ensures Continuous(es + [e], cash0, e.cashAfter, e.qtyAfter)
  {
  }

  /** A booked trade; `pnl` is net of its entry-fee share and its exit fee. */
  datatype Trade = Trade(side: Side, entryPrice: real, exitPrice: real, shares: real,
                         entryFee: real, exitFee: real, pnl: real)

  function NetPnl(ts: seq<Trade>): real {
    if ts == [] then 0.0 else NetPnl(ts[..|ts| - 1]) + ts[|ts| - 1].pnl
  }

  lemma NetPnlSnoc(ts: seq<Trade>, t: Trade)
    ensures NetPnl(ts + [t]) == NetPnl(ts) + t.pnl
  {
  }

  /** Trade.close: the realised result of `shares` before fees. */
  function GrossPnl(side: Side, shares: real, entry: real, exit: real): real
    requires entry > 0.0
  {
    var pct := if side == Long then (exit - entry) / entry else (entry - exit) / entry;
    shares * entry * pct
  }

  lemma GrossIsPriceMove(side: Side, shares: real, entry: real, exit: real)
    requires entry > 0.0
    ensures GrossPnl(side, shares, entry, exit) ==
            if side == Long then shares * (exit - entry) else shares * (entry - exit)
  {
  }

  // ---------------------------------------------------------------- fill arithmetic

  function FillPrice(side: Side, opening: bool, raw: real, slip: real): real {
    if (side == Long) == opening then raw * (1.0 + slip) else raw * (1.0 - slip)
  }

  lemma FillPricePositive(side: Side, opening: bool, raw: real, slip: real)
    requires raw > 0.0 && 0.0 <= slip < 1.0
    ensures FillPrice(side, opening, raw, slip) > 0.0
  {
  }

  /** Margin and notional left after a close keep their share of the position. */
  lemma MarginRelease(locked: real, notional: real, p: real, q: real, avg: real, leverage: real, r: real,
                      lockedAfter: real, notionalAfter: real)
    requires 0.0 <= r <= 1.0 && r * p == q && locked * leverage <= p * avg
    requires lockedAfter == locked - locked * r && notionalAfter == notional * (1.0 - r)
    ensures lockedAfter * leverage <= (p - q) * avg
    ensures notional == p * avg ==> notionalAfter == (p - q) * avg
  {
    Scale(locked * leverage, p * avg, 1.0 - r);
    assert lockedAfter * leverage == locked * leverage * (1.0 - r);
    assert (p - q) * avg == p * avg * (1.0 - r);
  }

  lemma RatioBounds(p: real, q: real)
    requires p > 0.0 && 0.0 <= q <= p
    ensures 0.0 <= q / p <= 1.0
    ensures q < p ==> q / p < 1.0
    ensures q / p * p == q
    ensures Min(Max(q / p, 0.0), 1.0) == q / p
  {
  }

  /** Weighted-average cost after an add. */
  lemma BlendedCost(oldQty: real, avg: real, q: real, price: real)
    requires oldQty > 0.0 && avg > 0.0 && q > 0.0 && price > 0.0
    ensures var blended := (oldQty * avg + q * price) / (oldQty + q);
            blended > 0.0 && (oldQty + q) * blended == oldQty * avg + q * price
  {
  }

  /** Pro-rata allocation leaves the entry fee of the quantity still open. */
  lemma ProRata(fee: real, netted: real, initial: real, p: real, q: real)
    requires initial > 0.0 && netted * initial == fee * (initial - p)
    ensures (netted + fee * (q / initial)) * initial == fee * (initial - (p - q))
  {
  }

  lemma Positive(a: real, b: real)
    requires a > 0.0 && b > 0.0
    ensures a * b > 0.0
  {
  }

  datatype OpenTrade = OpenTrade(side: Side, entryPrice: real, shares: real)

  function SideOf(position: real): Side { if position < 0.0 then Short else Long }

  // ---------------------------------------------------------------- configuration and books

  /** Run configuration; marginPerTrade is 0 when unset. An execution spec sets the commission to its
      taker fee, as the constructor does. */
  datatype Config = Config(initialCash: real, commission: real, slippage: real, marginPerTrade: real,
                           leverage: real, spec: Option<Spec>) {
    predicate Valid() {
      && 0.0 <= commission < 1.0
      && 0.0 <= slippage < 1.0
      && marginPerTrade >= 0.0
      && leverage > 0.0
      && (spec.Some? ==> spec.value.Valid() && commission == spec.value.takerFee)
    }
  }

  /** The mutable state of the run: the simulator's local variables, the hold tracker's entry fee and
      its allocated part, the scale-in count and risk anchor, and what has been recorded. */
  datatype Books = Books(cash: real, position: real, avgCost: real, initialQuantity: real,
                         marginLocked: real, notional: real, entryFee: real, entryFeeNetted: real,
                         adds: nat, riskAnchor: real, open: Option<OpenTrade>,
                         trades: seq<Trade>, events: seq<LedgerEvent>, equityCurve: seq<real>, fundingTotal: real) {
    /** The price stop geometry is measured from. */
    function GeomCost(): real { if riskAnchor > 0.0 then riskAnchor else avgCost }

    /** Cash plus the open inventory at cost, as a close at cost would settle it: margin mode gives the locked margin
        back, and a short buys back its quantity. */
    function AtCost(): real {
      if marginLocked > 0.0 then cash + marginLocked + (if position < 0.0 then position * avgCost else 0.0)
      else cash + position * avgCost
    }
  }

  function StartBooks(cfg: Config): Books {
    Books(cfg.initialCash, 0.0, 0.0, 0.0, 0.0, 0.0, 0.0, 0.0, 0, 0.0, None, [], [], [], 0.0)
  }

  /** What the books do not record themselves: inventory at cost dropped by dust snaps; entry fees of finished
      positions that no trade carries (negative when over-allocated); whether an add followed a partial close of the
      current position; what margin mode paid for adds to longs; and the first-leg price of the current position. */
  datatype Audit = Audit(snapped: real, unallocated: real, lateAdd: bool, longAdds: real, firstLeg: real)

  // ---------------------------------------------------------------- operations

  function FundingPaid(position: real, mark: real, accrual: real): real { -position * mark * accrual }

  function Accrue(b: Books, mark: real, accrual: real): Books {
    if b.position == 0.0 || accrual == 0.0 then b
    else
      var paid := FundingPaid(b.position, mark, accrual);
      var e := LedgerEvent(FundingAccrual, SideOf(b.position), Abs(b.position), mark, 0.0, 0.0, 0.0, paid,
                           b.position, b.position, b.cash, b.cash + paid, b.avgCost);
      b.(cash := b.cash + paid, fundingTotal := b.fundingTotal + paid, events := b.events + [e])
  }

  /** The equity of a bar, by the formula of the position's mode. */
  function Equity(b: Books, mark: real): real {
    if b.marginLocked > 0.0 then
      b.cash + b.marginLocked + b.position * (mark - b.avgCost) - (if b.position < 0.0 then b.notional else 0.0)
    else b.cash + b.position * mark
  }

  datatype Fill = Fill(price: real, shares: real, fee: real, value: real, locked: real, cashAfter: real)

  /** Sizing of an entry from flat; None when the execution spec rejects it. */
  function EntryFill(cfg: Config, cash: real, side: Side, raw: real, fraction: real): Option<Fill>
    requires cfg.Valid() && raw > 0.0
  {
    var price := FillPrice(side, true, raw, cfg.slippage);
    FillPricePositive(side, true, raw, cfg.slippage);
    if cfg.spec.Some? then
      var spec := cfg.spec.value;
      var shares := FloorLot(cash * fraction / (1.0 + spec.takerFee) / price, spec.lot);
      var value := shares * price;
      var fee := value * spec.takerFee;
      if shares <= 0.0 || value < spec.Threshold() then None
      else Some(Fill(price, shares, fee, value, 0.0,
                     if side == Long then cash - (value + fee) else cash + value - fee))
    else if cfg.marginPerTrade != 0.0 then
      var locked := Min(cfg.marginPerTrade, cash);
      var value := locked * cfg.leverage;
      var fee := value * cfg.commission;
      Some(Fill(price, value / price, fee, value, locked,
                cash - (locked + fee) + if side == Long then 0.0 else value))
    else
      var invest := cash * fraction;
      var fee := invest * cfg.commission;
      var value := invest - fee;
      Some(Fill(price, value / price, fee, value, 0.0,
                if side == Long then cash - invest else cash + 2.0 * value - invest))
  }

  function Enter(b: Books, side: Side, f: Fill): Books {
    var position := if side == Long then f.shares else -f.shares;
    var e := LedgerEvent(OpenFill, side, f.shares, f.price, f.fee, 0.0, 0.0, 0.0, b.position, position, b.cash, f.cashAfter,
                         b.avgCost);
    b.(cash := f.cashAfter, position := position, avgCost := f.price, initialQuantity := f.shares,
       marginLocked := if f.locked > 0.0 then f.locked else b.marginLocked,
       notional := if f.locked > 0.0 then f.value else b.notional,
       entryFee := f.fee, entryFeeNetted := 0.0, adds := 0, riskAnchor := 0.0,
       open := Some(OpenTrade(side, f.price, f.shares)), events := b.events + [e])
  }

  function FillValue(quantity: real, price: real): real { quantity * price }

  function FeeOn(value: real, rate: real): real { value * rate }

  function BlendedPrice(oldQty: real, avg: real, quantity: real, value: real): real
    requires oldQty + quantity != 0.0
  {
    (oldQty * avg + value) / (oldQty + quantity)
  }

  /** A scale-in add of `quantity` at the bar's fill price. */
  function Add(cfg: Config, b: Books, quantity: real, raw: real): Books
    requires b.open.Some? && Abs(b.position) + quantity != 0.0
  {
    var side := SideOf(b.position);
    var price := FillPrice(side, true, raw, cfg.slippage);
    var value := FillValue(quantity, price);
    var fee := FeeOn(value, cfg.commission);
    var oldQty := Abs(b.position);
    var avg := BlendedPrice(oldQty, b.avgCost, quantity, value);
    var cash := if side == Long then b.cash - (value + fee) else b.cash + (value - fee);
    var position := if side == Long then b.position + quantity else b.position - quantity;
    var e := LedgerEvent(AddFill, side, quantity, price, fee, 0.0, 0.0, 0.0, b.position, position, b.cash, cash, b.avgCost);
    b.(cash := cash, position := position, avgCost := avg, initialQuantity := b.initialQuantity + quantity,
       riskAnchor := if b.riskAnchor <= 0.0 then b.avgCost else b.riskAnchor, adds := b.adds + 1,
       open := Some(OpenTrade(side, avg, b.open.value.shares + quantity)),
       entryFee := b.entryFee + fee, events := b.events + [e])
  }

  function Wanted(b: Books, fraction: real): real { Abs(b.position) * Min(fraction, 1.0) }

  /** The quantity a close books; None when a lot-floored partial close is skipped. */
  function CloseQuantity(cfg: Config, b: Books, fraction: real, raw: real): Option<real>
    requires cfg.Valid()
  {
    var wanted := Wanted(b, fraction);
    if cfg.spec.Some? && fraction < 1.0 then
      var floored := FloorLot(wanted, cfg.spec.value.lot);
      if floored <= 0.0 || floored * raw < cfg.spec.value.Threshold() then None else Some(floored)
    else Some(wanted)
  }

  /** The entry fee a close takes over: pro rata, or the true-up remainder when a scaled-in position ends. */
  function EntryFeeShare(b: Books, quantity: real, last: bool): real {
    if b.adds > 0 && last then Max(0.0, b.entryFee - b.entryFeeNetted)
    else b.entryFee * (if b.initialQuantity > 0.0 then quantity / b.initialQuantity else 1.0)
  }

  /** The closed share of a margin position, clamped as the engine clamps it. */
  function CloseRatio(b: Books, quantity: real): real {
    var p := Abs(b.position);
    if p > 0.0 then Min(Max(quantity / p, 0.0), 1.0) else 0.0
  }

  function CloseCash(b: Books, quantity: real, price: real, fee: real): real {
    var value := quantity * price;
    var released := b.marginLocked * CloseRatio(b, quantity);
    if SideOf(b.position) == Long then
      if b.marginLocked > 0.0 then b.cash + (released + quantity * (price - b.avgCost) - fee)
      else b.cash + (value - fee)
    else
      if b.marginLocked > 0.0 then b.cash + (released - value - fee)
      else b.cash - (value + fee)
  }

  function LockedAfter(b: Books, quantity: real): real {
    if b.marginLocked > 0.0 then Max(b.marginLocked - b.marginLocked * CloseRatio(b, quantity), 0.0) else b.marginLocked
  }

  function NotionalAfter(b: Books, quantity: real): real {
    if b.marginLocked > 0.0 then Max(b.notional * (1.0 - CloseRatio(b, quantity)), 0.0) else b.notional
  }

  function ExitFee(quantity: real, price: real, feeRate: real): real { quantity * price * feeRate }

  /** Booking the close of `quantity` at raw price `raw`; the position ends when only dust is left. */
  function Close(b: Books, quantity: real, raw: real, slip: real, feeRate: real, kind: EventKind): Books
    requires b.open.Some? && b.open.value.entryPrice > 0.0
  {
    var side := SideOf(b.position);
    var price := FillPrice(side, false, raw, slip);
    var fee := ExitFee(quantity, price, feeRate);
    var cash := CloseCash(b, quantity, price, fee);
    var left := if side == Long then b.position - quantity else b.position + quantity;
    var last := Abs(left) <= DUST;
    var gross := GrossPnl(b.open.value.side, quantity, b.open.value.entryPrice, price);
    var share := EntryFeeShare(b, quantity, last);
    var trade := Trade(b.open.value.side, b.open.value.entryPrice, price, quantity, share, fee, gross - (share + fee));
    var position := if last then 0.0 else left;
    var e := LedgerEvent(kind, side, quantity, price, fee, gross, share, 0.0, b.position, position, b.cash, cash, b.avgCost);
    var booked := b.(cash := cash, position := position, entryFeeNetted := b.entryFeeNetted + share,
                     trades := b.trades + [trade], events := b.events + [e]);
    if last then
      booked.(avgCost := 0.0, initialQuantity := 0.0, marginLocked := 0.0, notional := 0.0, adds := 0,
              riskAnchor := 0.0, open := None)
    else
      booked.(open := Some(b.open.value.(shares := b.open.value.shares - quantity)),
              marginLocked := LockedAfter(b, quantity), notional := NotionalAfter(b, quantity))
  }

  // ---------------------------------------------------------------- what the recorded events say

  predicate IsClose(e: LedgerEvent) { e.kind == CloseFill || e.kind == TerminalClose }

  /** The close that ends a position. */
  predicate Ends(e: LedgerEvent) { IsClose(e) && e.qtyAfter == 0.0 }

  /** The quantity a close leaves; when the close ends the position, the snap to zero drops it. */
  function Residue(e: LedgerEvent): real { Abs(e.qtyBefore) - e.quantity }

  /** The current position was closed in part. */
  predicate Reduced(es: seq<LedgerEvent>) {
    es != [] &&
    var e := es[|es| - 1];
    if e.kind == OpenFill then false else if IsClose(e) then e.qtyAfter != 0.0 else Reduced(es[..|es| - 1])
  }

  /** No add follows a partial close of the same position, and every position ends in a close of all it holds. */
  predicate Timely(es: seq<LedgerEvent>) {
    es == [] ||
    var front, e := es[..|es| - 1], es[|es| - 1];
    Timely(front) && (e.kind == AddFill ==> !Reduced(front)) && (Ends(e) ==> Residue(e) == 0.0)
  }

  predicate IsLongAdd(e: LedgerEvent) { e.kind == AddFill && e.side == Long }

  /** Some long was added to. */
  predicate LongAdded(es: seq<LedgerEvent>) { es != [] && (IsLongAdd(es[|es| - 1]) || LongAdded(es[..|es| - 1])) }

  function LongAddValue(es: seq<LedgerEvent>): real {
    if es == [] then 0.0
    else
      var e := es[|es| - 1];
      LongAddValue(es[..|es| - 1]) + if IsLongAdd(e) then FillValue(e.quantity, e.price) else 0.0
  }

  predicate MarginMode(cfg: Config) { cfg.spec.None? && cfg.marginPerTrade > 0.0 }

  /** What margin mode paid for adds to longs: no close gives it back. */
  function LongAdds(cfg: Config, es: seq<LedgerEvent>): real { if MarginMode(cfg) then LongAddValue(es) else 0.0 }

  /** Adds are fills of positive value. */
  predicate AddsHaveValue(es: seq<LedgerEvent>) {
    es == [] ||
    var e := es[|es| - 1];
    AddsHaveValue(es[..|es| - 1]) && (e.kind == AddFill ==> FillValue(e.quantity, e.price) > 0.0)
  }

  /** The margin a close leaves of what was locked. */
  function LockedLeft(locked: real, e: LedgerEvent): real {
    if e.qtyBefore == 0.0 then 0.0 else locked - locked * (e.quantity / Abs(e.qtyBefore))
  }

  /** The margin locked after the events: what the entry locked, less the share of each close; adds lock none. */
  function Locked(cfg: Config, es: seq<LedgerEvent>): real
    requires cfg.Valid()
  {
    if es == [] then 0.0
    else
      var e := es[|es| - 1];
      if e.kind == OpenFill then FillValue(e.quantity, e.price) / cfg.leverage
      else if IsClose(e) then LockedLeft(Locked(cfg, es[..|es| - 1]), e)
      else Locked(cfg, es[..|es| - 1])
  }

  /** What is left at cost when a position ends with a residue: its locked margin, or its value. */
  function Dropped(cfg: Config, locked: real, e: LedgerEvent): real {
    var worth := Residue(e) * e.avgBefore;
    (if MarginMode(cfg) then LockedLeft(locked, e) else if e.qtyBefore < 0.0 then 0.0 else worth)
    - if e.qtyBefore < 0.0 then worth else 0.0
  }

  /** Inventory at cost that snaps to zero dropped. */
  function Snapped(cfg: Config, es: seq<LedgerEvent>): real
    requires cfg.Valid()
  {
    if es == [] then 0.0
    else
      var e := es[|es| - 1];
      var front := es[..|es| - 1];
      Snapped(cfg, front) + if Ends(e) then Dropped(cfg, Locked(cfg, front), e) else 0.0
  }

  /** Quantity that snaps to zero dropped. */
  function Residues(es: seq<LedgerEvent>): real {
    if es == [] then 0.0
    else
      var e := es[|es| - 1];
      Residues(es[..|es| - 1]) + if Ends(e) then Residue(e) else 0.0
  }

  /** Positions that ended. */
  function Ended(es: seq<LedgerEvent>): nat {
    if es == [] then 0 else Ended(es[..|es| - 1]) + if Ends(es[|es| - 1]) then 1 else 0
  }

  /** How much more than its notional a unit of margin can be. */
  function MarginFactor(cfg: Config): real
    requires cfg.Valid()
  {
    if MarginMode(cfg) then Max(1.0, 1.0 / cfg.leverage) else 1.0
  }

  /** The dust limit at the average cost of the position, or at the margin that cost locks. */
  function SnapLimit(cfg: Config, e: LedgerEvent): real
    requires cfg.Valid()
  {
    DUST * e.avgBefore * MarginFactor(cfg)
  }

  /** The most the snaps can have dropped: the dust limit at the average cost of each ended position. */
  function DustLimit(cfg: Config, es: seq<LedgerEvent>): real
    requires cfg.Valid()
  {
    if es == [] then 0.0
    else
      var e := es[|es| - 1];
      DustLimit(cfg, es[..|es| - 1]) + if Ends(e) then SnapLimit(cfg, e) else 0.0
  }

  /** The residue is dust, and the margin is at most what the position's cost would lock. */
  predicate InDust(cfg: Config, locked: real, e: LedgerEvent) {
    && 0.0 <= Residue(e) <= DUST && e.avgBefore > 0.0
    && (MarginMode(cfg) ==> e.qtyBefore != 0.0 && 0.0 <= locked && locked * cfg.leverage <= Abs(e.qtyBefore) * e.avgBefore)
  }

  predicate EndsInDust(cfg: Config, es: seq<LedgerEvent>)
    requires cfg.Valid()
  {
    es == [] ||
    var front, e := es[..|es| - 1], es[|es| - 1];
    EndsInDust(cfg, front) && (Ends(e) ==> InDust(cfg, Locked(cfg, front), e))
  }

  lemma LogSnoc(cfg: Config, es: seq<LedgerEvent>, e: LedgerEvent)
    requires cfg.Valid()
    ensures var all := es + [e];
      && (Reduced(all) <==> if e.kind == OpenFill then false else if IsClose(e) then e.qtyAfter != 0.0 else Reduced(es))
      && (Timely(all) <==> Timely(es) && (e.kind == AddFill ==> !Reduced(es)) && (Ends(e) ==> Residue(e) == 0.0))
      && (LongAdded(all) <==> IsLongAdd(e) || LongAdded(es))
      && (AddsHaveValue(all) <==> AddsHaveValue(es) && (e.kind == AddFill ==> FillValue(e.quantity, e.price) > 0.0))
      && (EndsInDust(cfg, all) <==> EndsInDust(cfg, es) && (Ends(e) ==> InDust(cfg, Locked(cfg, es), e)))
      && Snapped(cfg, all) == Snapped(cfg, es) + (if Ends(e) then Dropped(cfg, Locked(cfg, es), e) else 0.0)
      && Residues(all) == Residues(es) + (if Ends(e) then Residue(e) else 0.0)
      && LongAddValue(all) == LongAddValue(es) + (if IsLongAdd(e) then FillValue(e.quantity, e.price) else 0.0)
      && LongAdds(cfg, all)
         == LongAdds(cfg, es) + (if MarginMode(cfg) && IsLongAdd(e) then FillValue(e.quantity, e.price) else 0.0)
      && Locked(cfg, all)
         == if e.kind == OpenFill then FillValue(e.quantity, e.price) / cfg.leverage
            else if IsClose(e) then LockedLeft(Locked(cfg, es), e)
            else Locked(cfg, es)
  {
    hide Dropped, Residue, InDust, LockedLeft, FillValue;
    assert (es + [e])[..|es|] == es;
  }

  /** A timely log drops nothing. */
  lemma {:induction false} TimelyDropsNothing(cfg: Config, es: seq<LedgerEvent>)
    requires cfg.Valid() && Timely(es)
    ensures Snapped(cfg, es) == 0.0 && Residues(es) == 0.0
  {
    hide Dropped, Locked;
    if es != [] {
      TimelyDropsNothing(cfg, es[..|es| - 1]);
      var e := es[|es| - 1];
      if Ends(e) {
        NoResidue(cfg, Locked(cfg, es[..|es| - 1]), e);
      }
    }
  }

  lemma NoResidue(cfg: Config, locked: real, e: LedgerEvent)
    requires Residue(e) == 0.0
    ensures Dropped(cfg, locked, e) == 0.0
  {
    if e.qtyBefore != 0.0 {
      assert e.quantity / Abs(e.qtyBefore) == 1.0;
    }
  }

  /** What the adds to longs cost is positive exactly when there are any. */
  lemma {:induction false} LongAddsCost(es: seq<LedgerEvent>)
    requires AddsHaveValue(es)
    ensures LongAddValue(es) >= 0.0
    ensures LongAddValue(es) == 0.0 <==> !LongAdded(es)
  {
    hide FillValue;
    if es != [] {
      LongAddsCost(es[..|es| - 1]);
    }
  }

  /** Dust snapped at the end of one position: at most DUST of quantity at its average cost, or at the margin that
      cost locks. */
  lemma DustBound(cfg: Config, locked: real, e: LedgerEvent)
    requires cfg.Valid() && InDust(cfg, locked, e)
    ensures Abs(Dropped(cfg, locked, e)) <= SnapLimit(cfg, e)
  {
    hide Locked, Snapped;
    var worth, factor := Residue(e) * e.avgBefore, MarginFactor(cfg);
    WorthInDust(cfg, locked, e, worth, factor, worth * factor);
    if MarginMode(cfg) {
      MarginOfResidue(locked, Abs(e.qtyBefore), e.quantity, e.avgBefore, cfg.leverage, worth, LockedLeft(locked, e));
      Leveraged(worth, cfg.leverage, worth / cfg.leverage, factor, worth * factor);
    }
    DroppedWithin(cfg, locked, e, worth, worth * factor);
    hide Residue, MarginFactor, LockedLeft, InDust, Dropped;
  }

  lemma DroppedWithin(cfg: Config, locked: real, e: LedgerEvent, worth: real, limit: real)
    requires worth == Residue(e) * e.avgBefore && 0.0 <= worth <= limit
    requires MarginMode(cfg) ==> 0.0 <= LockedLeft(locked, e) <= limit
    ensures Abs(Dropped(cfg, locked, e)) <= limit
  {
    hide LockedLeft;
  }

  lemma MarginOfResidue(locked: real, p: real, q: real, avg: real, leverage: real, worth: real, left: real)
    requires p > 0.0 && q <= p && leverage > 0.0 && locked >= 0.0 && locked * leverage <= p * avg
    requires worth == (p - q) * avg && left == locked - locked * (q / p)
    ensures 0.0 <= left <= worth / leverage
  {
    var share := 1.0 - q / p;
    ShareIs(p, q, share);
    assert left == locked * share;
    Scale(0.0, locked, share);
    Scale(locked * leverage, p * avg, share);
    ShareOf(locked, leverage, p, avg, share, p - q, left, worth);
    WithinQuotient(left, leverage, worth);
  }

  lemma ShareIs(p: real, q: real, share: real)
    requires p > 0.0 && q <= p && share == 1.0 - q / p
    ensures share >= 0.0 && share * p == p - q
  {
    DivMul(q, p);
    Scale(1.0, q / p, p);
  }

  lemma WithinQuotient(x: real, y: real, z: real)
    requires y > 0.0 && x * y <= z
    ensures x <= z / y
  {
    DivMul(z, y);
    Scale(z / y, x, y);
  }

  lemma ShareOf(locked: real, leverage: real, p: real, avg: real, share: real, residue: real, left: real, worth: real)
    requires share * p == residue && left == locked * share && worth == residue * avg
    requires locked * leverage * share <= p * avg * share
    ensures left * leverage <= worth
  {
    assert left * leverage == locked * leverage * share;
    assert worth == p * avg * share;
  }

  lemma WorthInDust(cfg: Config, locked: real, e: LedgerEvent, worth: real, factor: real, scaled: real)
    requires InDust(cfg, locked, e) && factor >= 1.0 && worth == Residue(e) * e.avgBefore && scaled == worth * factor
    ensures 0.0 <= worth <= scaled <= DUST * e.avgBefore * factor
  {
    hide Residue;
    Scale(0.0, Residue(e), e.avgBefore);
    Scale(Residue(e), DUST, e.avgBefore);
    Scale(worth, DUST * e.avgBefore, factor);
    Scale(1.0, factor, worth);
  }

  lemma Leveraged(worth: real, leverage: real, margin: real, factor: real, limit: real)
    requires worth >= 0.0 && leverage > 0.0 && margin == worth / leverage
    requires factor == Max(1.0, 1.0 / leverage) && limit == worth * factor
    ensures 0.0 <= margin <= limit && worth <= limit
  {
    assert margin == worth * (1.0 / leverage);
    Scale(1.0 / leverage, factor, worth);
    Scale(1.0, factor, worth);
  }

  lemma ResidueInDust(cfg: Config, locked: real, e: LedgerEvent)
    requires InDust(cfg, locked, e)
    ensures 0.0 <= Residue(e) <= DUST
  {
  }

  /** Over a whole log the snaps drop at most the dust limit of every ended position. */
  lemma {:induction false} SnapsAreBounded(cfg: Config, es: seq<LedgerEvent>)
    requires cfg.Valid() && EndsInDust(cfg, es)
    ensures Abs(Snapped(cfg, es)) <= DustLimit(cfg, es)
    ensures 0.0 <= Residues(es) <= DUST * Ended(es) as real
  {
    hide Dropped, SnapLimit, Residue, Locked;
    if es != [] {
      SnapsAreBounded(cfg, es[..|es| - 1]);
      var e := es[|es| - 1];
      if Ends(e) {
        ResidueInDust(cfg, Locked(cfg, es[..|es| - 1]), e);
        DustBound(cfg, Locked(cfg, es[..|es| - 1]), e);
        hide InDust;
      }
    }
  }

  // ---------------------------------------------------------------- the invariant

  ghost predicate Flat(b: Books) {
    && b.position == 0.0 && b.open == None && b.avgCost == 0.0 && b.initialQuantity == 0.0
    && b.marginLocked == 0.0 && b.notional == 0.0 && b.adds == 0 && b.riskAnchor == 0.0
  }

  /** An open position: the open trade mirrors quantity, side and cost, and stop geometry still
      measures from the first leg. */
  ghost predicate Holding(b: Books, a: Audit) {
    && b.position != 0.0
    && b.open == Some(OpenTrade(SideOf(b.position), b.avgCost, Abs(b.position)))
    && b.avgCost > 0.0
    && b.initialQuantity >= Abs(b.position)
    && b.GeomCost() == a.firstLeg > 0.0
    && (b.adds == 0 ==> b.riskAnchor == 0.0 && !a.lateAdd)
    && b.entryFee >= 0.0
    && b.marginLocked >= 0.0 && b.notional >= 0.0
  }

  /** The margin locks no more than the cost of the position stands for. */
  ghost predicate MarginCovered(b: Books, leverage: real) { b.marginLocked * leverage <= Abs(b.position) * b.avgCost }

  ghost predicate Shape(cfg: Config, b: Books, a: Audit) {
    && (Flat(b) || Holding(b, a))
    && (cfg.spec.Some? ==> cfg.spec.value.lot > 0.0 && WholeLots(Abs(b.position), cfg.spec.value.lot)
                           && b.adds == 0 && b.marginLocked == 0.0)
    && (b.marginLocked > 0.0 && b.adds == 0 ==> b.notional == Abs(b.position) * b.avgCost)
    && MarginCovered(b, cfg.leverage)
    && (b.marginLocked > 0.0 ==> cfg.marginPerTrade > 0.0)
  }

  /** Cash and inventory at cost are initial cash plus realised minus fees plus funding, less what snaps dropped and
      what margin mode paid for adds to longs. */
  ghost predicate Money(cfg: Config, b: Books, a: Audit) {
    var t := TotalsOf(b.events);
    && b.AtCost() + a.snapped + a.longAdds == cfg.initialCash + t.gross - t.fees + t.funding
    && b.fundingTotal == t.funding
  }

  ghost function Outstanding(b: Books): real {
    if b.position != 0.0 then b.entryFee - b.entryFeeNetted else 0.0
  }

  /** Every entry fee charged is allocated to a trade, outstanding, or left over when its position ended. */
  ghost predicate FeeBook(b: Books, a: Audit) {
    var t := TotalsOf(b.events);
    && t.entryFees - t.feesAllocated == Outstanding(b) + a.unallocated
    && NetPnl(b.trades) == t.gross - t.feesAllocated - (t.fees - t.entryFees)
    && (b.position != 0.0 && !a.lateAdd ==>
          b.entryFeeNetted * b.initialQuantity == b.entryFee * (b.initialQuantity - Abs(b.position)))
  }

  ghost predicate Chain(cfg: Config, b: Books) {
    Continuous(b.events, cfg.initialCash, b.cash, b.position)
  }

  ghost predicate Inv(cfg: Config, b: Books, a: Audit) {
    cfg.Valid() && Shape(cfg, b, a) && Money(cfg, b, a) && FeeBook(b, a) && Chain(cfg, b)
  }

  lemma StartInv(cfg: Config)
    requires cfg.Valid()
    ensures Inv(cfg, StartBooks(cfg), Audit(0.0, 0.0, false, 0.0, 0.0))
  {
    if cfg.spec.Some? {
      assert IsLots(0.0, 0, cfg.spec.value.lot);
    }
  }

  // ---------------------------------------------------------------- funding and marking

  lemma AccrueKeeps(cfg: Config, b: Books, a: Audit, mark: real, accrual: real)
    requires Inv(cfg, b, a)
    ensures Inv(cfg, Accrue(b, mark, accrual), a)
    ensures Accrue(b, mark, accrual).fundingTotal - b.fundingTotal == FundingPaid(b.position, mark, accrual)
    ensures Accrue(b, mark, accrual).AtCost() - b.AtCost() == FundingPaid(b.position, mark, accrual)
  {
    hide TotalsOf, Continuous, NetPnl, WholeLots;
    NoPayment(b.position, mark, accrual);
    hide FundingPaid;
    var c := Accrue(b, mark, accrual);
    if c != b {
      TotalsSnoc(b.events, c.events[|b.events|]);
      ContinuousSnoc(b.events, c.events[|b.events|], cfg.initialCash);
    }
  }

  lemma NoPayment(position: real, mark: real, accrual: real)
    ensures position == 0.0 || accrual == 0.0 ==> FundingPaid(position, mark, accrual) == 0.0
  {
  }

  // ---------------------------------------------------------------- entries

  /** The sizes, costs and cash of an entry fit together. */
  ghost predicate SoundFill(f: Fill, cash: real, side: Side, leverage: real) {
    && f.price > 0.0 && f.shares > 0.0 && f.shares * f.price == f.value && f.fee >= 0.0
    && f.locked >= 0.0
    && (f.locked > 0.0 ==> f.locked * leverage == f.value)
    && (f.locked > 0.0 ==> f.cashAfter + f.locked - (if side == Short then f.value else 0.0) == cash - f.fee)
    && (f.locked == 0.0 ==> f.cashAfter + (if side == Long then f.value else -f.value) == cash - f.fee)
  }

  lemma EntryFillFacts(cfg: Config, cash: real, side: Side, raw: real, fraction: real)
    requires cfg.Valid() && raw > 0.0 && cash > 0.0 && fraction > 0.0
    requires EntryFill(cfg, cash, side, raw, fraction).Some?
    ensures var f := EntryFill(cfg, cash, side, raw, fraction).value;
            && SoundFill(f, cash, side, cfg.leverage)
            && (cfg.spec.Some? ==> f.locked == 0.0 && WholeLots(f.shares, cfg.spec.value.lot)
                                   && f.value >= cfg.spec.value.Threshold())
            && (f.locked > 0.0 ==> cfg.marginPerTrade > 0.0)
            && (MarginMode(cfg) ==> f.locked > 0.0)
  {
    if cfg.spec.Some? {
      SpecFillFacts(cfg, cash, side, raw, fraction);
    } else if cfg.marginPerTrade != 0.0 {
      MarginFillFacts(cfg, cash, side, raw, fraction);
    } else {
      PlainFillFacts(cfg, cash, side, raw, fraction);
    }
  }

  lemma SpecFillFacts(cfg: Config, cash: real, side: Side, raw: real, fraction: real)
    requires cfg.Valid() && cfg.spec.Some? && raw > 0.0 && cash > 0.0 && fraction > 0.0
    requires EntryFill(cfg, cash, side, raw, fraction).Some?
    ensures var f := EntryFill(cfg, cash, side, raw, fraction).value;
            SoundFill(f, cash, side, cfg.leverage) && f.locked == 0.0 && WholeLots(f.shares, cfg.spec.value.lot)
  {
    hide FillPrice, FloorLot;
    var f := EntryFill(cfg, cash, side, raw, fraction).value;
    FillPricePositive(side, true, raw, cfg.slippage);
    Positive(f.shares, f.price);
    var n := FloorLotIsWhole(cash * fraction / (1.0 + cfg.spec.value.takerFee) / f.price, cfg.spec.value.lot);
  }

  lemma MarginFillFacts(cfg: Config, cash: real, side: Side, raw: real, fraction: real)
    requires cfg.Valid() && cfg.spec.None? && cfg.marginPerTrade != 0.0 && raw > 0.0 && cash > 0.0
    ensures var f := EntryFill(cfg, cash, side, raw, fraction).value;
            SoundFill(f, cash, side, cfg.leverage) && f.locked > 0.0
  {
    hide FillPrice;
    FillPricePositive(side, true, raw, cfg.slippage);
    Positive(Min(cfg.marginPerTrade, cash), cfg.leverage);
    DivMul(Min(cfg.marginPerTrade, cash) * cfg.leverage, FillPrice(side, true, raw, cfg.slippage));
  }

  lemma PlainFillFacts(cfg: Config, cash: real, side: Side, raw: real, fraction: real)
    requires cfg.Valid() && cfg.spec.None? && cfg.marginPerTrade == 0.0
    requires raw > 0.0 && cash > 0.0 && fraction > 0.0
    ensures SoundFill(EntryFill(cfg, cash, side, raw, fraction).value, cash, side, cfg.leverage)
  {
    hide FillPrice;
    FillPricePositive(side, true, raw, cfg.slippage);
    Positive(cash, fraction);
    NetShares(cash * fraction, cfg.commission, FillPrice(side, true, raw, cfg.slippage));
  }

  lemma NetShares(invest: real, rate: real, price: real)
    requires invest > 0.0 && 0.0 <= rate < 1.0 && price > 0.0
    ensures invest * rate >= 0.0 && (invest - invest * rate) / price > 0.0
    ensures (invest - invest * rate) / price * price == invest - invest * rate
  {
  }

  lemma FeeShare(amount: real, rate: real)
    requires amount > 0.0 && 0.0 <= rate < 1.0
    ensures 0.0 <= amount * rate < amount
  {
  }

  /** A lot-floored entry with its fee costs at most the budget plus a billionth of a lot. */
  lemma SpecEntryWithinBudget(cfg: Config, cash: real, side: Side, raw: real, fraction: real)
    requires cfg.Valid() && cfg.spec.Some? && raw > 0.0 && cash > 0.0 && fraction > 0.0
    requires EntryFill(cfg, cash, side, raw, fraction).Some?
    ensures var f := EntryFill(cfg, cash, side, raw, fraction).value;
            f.value + f.fee <= cash * fraction + LOT_SLACK * cfg.spec.value.lot * f.price * (1.0 + cfg.spec.value.takerFee)
  {
    var f := EntryFill(cfg, cash, side, raw, fraction).value;
    var spec := cfg.spec.value;
    FillPricePositive(side, true, raw, cfg.slippage);
    var net := cash * fraction / (1.0 + spec.takerFee);
    Positive(cash, fraction);
    DivMul(cash * fraction, 1.0 + spec.takerFee);
    DivMul(net, f.price);
    var n := FloorLotIsWhole(net / f.price, spec.lot);
    BudgetArithmetic(f.shares, net / f.price, LOT_SLACK * spec.lot, f.price, net, spec.takerFee, f.value, f.fee,
                     cash * fraction);
  }

  lemma BudgetArithmetic(shares: real, quotient: real, slack: real, price: real, net: real, rate: real, value: real,
                         fee: real, budget: real)
    requires price > 0.0 && rate >= 0.0 && shares <= quotient + slack
    requires quotient * price == net && net * (1.0 + rate) == budget
    requires value == shares * price && fee == value * rate
    ensures value + fee <= budget + slack * price * (1.0 + rate)
  {
  }

  function EnterAudit(a: Audit, price: real): Audit { a.(lateAdd := false, firstLeg := price) }

  lemma EnterKeeps(cfg: Config, b: Books, a: Audit, side: Side, raw: real, fraction: real)
    requires Inv(cfg, b, a) && b.position == 0.0 && b.cash > 0.0 && raw > 0.0 && fraction > 0.0
    requires EntryFill(cfg, b.cash, side, raw, fraction).Some?
    ensures var f := EntryFill(cfg, b.cash, side, raw, fraction).value;
            Inv(cfg, Enter(b, side, f), EnterAudit(a, f.price))
  {
    hide TotalsOf, Continuous, NetPnl, WholeLots, EntryFill;
    var f := EntryFill(cfg, b.cash, side, raw, fraction).value;
    EntryFillFacts(cfg, b.cash, side, raw, fraction);
    var c := Enter(b, side, f);
    TotalsSnoc(b.events, c.events[|b.events|]);
    ContinuousSnoc(b.events, c.events[|b.events|], cfg.initialCash);
  }

  // ---------------------------------------------------------------- scale-in adds

  function AddAudit(a: Audit, b: Books, value: real): Audit {
    a.(lateAdd := a.lateAdd || Abs(b.position) != b.initialQuantity,
       longAdds := a.longAdds + if b.marginLocked > 0.0 && SideOf(b.position) == Long then value else 0.0)
  }

  ghost predicate Addable(cfg: Config, b: Books, a: Audit, quantity: real, raw: real) {
    Inv(cfg, b, a) && b.position != 0.0 && quantity > 0.0 && raw > 0.0 && cfg.spec.None?
  }

  lemma AddBlend(cfg: Config, b: Books, a: Audit, quantity: real, raw: real)
    requires Addable(cfg, b, a, quantity, raw)
    ensures var c := Add(cfg, b, quantity, raw);
            var price := FillPrice(SideOf(b.position), true, raw, cfg.slippage);
            && price > 0.0
            && c.avgCost > 0.0
            && Abs(c.position) == Abs(b.position) + quantity && SideOf(c.position) == SideOf(b.position)
            && Abs(c.position) * c.avgCost == Abs(b.position) * b.avgCost + quantity * price
            && c.entryFee >= b.entryFee
  {
    hide TotalsOf, Continuous, NetPnl, FillPrice, Money, FeeBook, Chain, WholeLots;
    var price := FillPrice(SideOf(b.position), true, raw, cfg.slippage);
    FillPricePositive(SideOf(b.position), true, raw, cfg.slippage);
    BlendedCost(Abs(b.position), b.avgCost, quantity, price);
    Positive(quantity, price);
    FeeShare(quantity * price, cfg.commission);
  }

  /** The fields of the books after an add, without the arithmetic inside them. */
  lemma AddFields(cfg: Config, b: Books, quantity: real, raw: real)
    requires b.open.Some? && Abs(b.position) + quantity != 0.0
    ensures var c := Add(cfg, b, quantity, raw);
            var side := SideOf(b.position);
            var value := FillValue(quantity, FillPrice(side, true, raw, cfg.slippage));
            var fee := FeeOn(value, cfg.commission);
            && c.cash == b.cash - fee + (if side == Long then -value else value)
            && c.position == (if side == Long then b.position + quantity else b.position - quantity)
            && c.initialQuantity == b.initialQuantity + quantity && c.adds == b.adds + 1
            && c.open == Some(OpenTrade(side, c.avgCost, b.open.value.shares + quantity))
            && c.riskAnchor == (if b.riskAnchor <= 0.0 then b.avgCost else b.riskAnchor)
            && c.entryFee == b.entryFee + fee && c.entryFeeNetted == b.entryFeeNetted
            && c.marginLocked == b.marginLocked && c.notional == b.notional
            && c.trades == b.trades && c.fundingTotal == b.fundingTotal
            && |c.events| == |b.events| + 1 && c.events == b.events + [c.events[|b.events|]]
            && var e := c.events[|b.events|];
            && e.kind == AddFill && e.side == side && e.quantity == quantity && e.fee == fee
            && e.price == FillPrice(side, true, raw, cfg.slippage)
            && e.gross == 0.0 && e.entryFeeAllocated == 0.0 && e.funding == 0.0
            && e.cashBefore == b.cash && e.qtyBefore == b.position && e.cashAfter == c.cash && e.qtyAfter == c.position
  {
  }

  lemma AddShape(cfg: Config, b: Books, a: Audit, quantity: real, raw: real, value: real)
    requires Addable(cfg, b, a, quantity, raw)
    ensures Shape(cfg, Add(cfg, b, quantity, raw), AddAudit(a, b, value))
    ensures Add(cfg, b, quantity, raw).GeomCost() == b.GeomCost()
  {
    AddFields(cfg, b, quantity, raw);
    AddSigns(cfg, b, a, quantity, raw);
    AddCovered(cfg, b, a, quantity, raw);
    hide Add, FillPrice, FeeOn, FillValue, WholeLots, Money, FeeBook, Chain, MarginCovered;
  }

  lemma AddSigns(cfg: Config, b: Books, a: Audit, quantity: real, raw: real)
    requires Addable(cfg, b, a, quantity, raw)
    ensures var c := Add(cfg, b, quantity, raw);
            && c.avgCost > 0.0 && c.entryFee >= b.entryFee
            && Abs(c.position) == Abs(b.position) + quantity && SideOf(c.position) == SideOf(b.position)
  {
    AddBlend(cfg, b, a, quantity, raw);
    hide Add, Inv;
  }

  lemma AddCovered(cfg: Config, b: Books, a: Audit, quantity: real, raw: real)
    requires Addable(cfg, b, a, quantity, raw)
    ensures MarginCovered(Add(cfg, b, quantity, raw), cfg.leverage)
  {
    AddFields(cfg, b, quantity, raw);
    AddBlend(cfg, b, a, quantity, raw);
    Positive(quantity, FillPrice(SideOf(b.position), true, raw, cfg.slippage));
    assert MarginCovered(b, cfg.leverage);
    hide Add, Inv, FillPrice, FeeOn, FillValue, MarginCovered;
    CoveredByMore(b, Add(cfg, b, quantity, raw), cfg.leverage);
  }

  lemma CoveredByMore(b: Books, c: Books, leverage: real)
    requires MarginCovered(b, leverage) && c.marginLocked == b.marginLocked
    requires Abs(b.position) * b.avgCost <= Abs(c.position) * c.avgCost
    ensures MarginCovered(c, leverage)
  {
  }

  lemma AddMoney(cfg: Config, b: Books, a: Audit, quantity: real, raw: real)
    requires Addable(cfg, b, a, quantity, raw)
    ensures Money(cfg, Add(cfg, b, quantity, raw),
                  AddAudit(a, b, quantity * FillPrice(SideOf(b.position), true, raw, cfg.slippage)))
  {
    AddFields(cfg, b, quantity, raw);
    AddBlend(cfg, b, a, quantity, raw);
    hide Add, FillPrice, FeeOn, WholeLots, FeeBook, Chain, TotalsOf;
    var c := Add(cfg, b, quantity, raw);
    TotalsSnoc(b.events, c.events[|b.events|]);
  }

  lemma AddFees(cfg: Config, b: Books, a: Audit, quantity: real, raw: real, value: real)
    requires Addable(cfg, b, a, quantity, raw)
    ensures FeeBook(Add(cfg, b, quantity, raw), AddAudit(a, b, value))
    ensures Chain(cfg, Add(cfg, b, quantity, raw))
  {
    AddFields(cfg, b, quantity, raw);
    hide Add, FillPrice, FeeOn, FillValue, WholeLots, TotalsOf, NetPnl, Continuous;
    var c := Add(cfg, b, quantity, raw);
    TotalsSnoc(b.events, c.events[|b.events|]);
    ContinuousSnoc(b.events, c.events[|b.events|], cfg.initialCash);
    if !a.lateAdd && Abs(b.position) == b.initialQuantity {
      NonZeroProduct(b.entryFeeNetted, b.initialQuantity, b.entryFeeNetted * b.initialQuantity);
    }
  }

  /** An add keeps the books; quantity at cost grows by what was paid, and the stop anchor stays put. */
  lemma AddKeeps(cfg: Config, b: Books, a: Audit, quantity: real, raw: real)
    requires Addable(cfg, b, a, quantity, raw)
    ensures var c := Add(cfg, b, quantity, raw);
            && Inv(cfg, c, AddAudit(a, b, quantity * FillPrice(SideOf(b.position), true, raw, cfg.slippage)))
            && Abs(c.position) == Abs(b.position) + quantity
            && Abs(c.position) * c.avgCost
               == Abs(b.position) * b.avgCost + quantity * FillPrice(SideOf(b.position), true, raw, cfg.slippage)
            && c.GeomCost() == b.GeomCost()
  {
    var value := quantity * FillPrice(SideOf(b.position), true, raw, cfg.slippage);
    AddBlend(cfg, b, a, quantity, raw);
    AddShape(cfg, b, a, quantity, raw, value);
    AddMoney(cfg, b, a, quantity, raw);
    AddFees(cfg, b, a, quantity, raw, value);
    hide Add, FillPrice, Shape, Money, FeeBook, Chain, AddAudit, Books.GeomCost;
  }

  /** An add changes cash and inventory at cost by its fee, and so does it the equity, exactly when the position holds
      no locked margin. Margin mode pays the add from cash and leaves margin and notional alone: the value of an add to
      a long is lost to both; the proceeds of an add to a short raise the equity until the close spends them. */
  lemma AddBreaksMarginIdentity(cfg: Config, b: Books, a: Audit, quantity: real, raw: real)
    requires Addable(cfg, b, a, quantity, raw)
    ensures var value := quantity * FillPrice(SideOf(b.position), true, raw, cfg.slippage);
            var c := Add(cfg, b, quantity, raw);
            var lost := if b.marginLocked == 0.0 then 0.0 else value;
            && value > 0.0
            && c.AtCost() == b.AtCost() - FeeOn(value, cfg.commission) - (if SideOf(b.position) == Long then lost else 0.0)
            && Equity(c, c.avgCost) == Equity(b, b.avgCost) - FeeOn(value, cfg.commission)
                                       + (if SideOf(b.position) == Long then -lost else lost)
  {
    hide TotalsOf, Continuous, NetPnl, FillPrice, WholeLots;
    AddBlend(cfg, b, a, quantity, raw);
    Positive(quantity, FillPrice(SideOf(b.position), true, raw, cfg.slippage));
    hide Money, FeeBook, Chain;
  }

  // ---------------------------------------------------------------- closes

  lemma CloseQuantityFacts(cfg: Config, b: Books, a: Audit, fraction: real, raw: real)
    requires Inv(cfg, b, a) && b.position != 0.0 && fraction > 0.0 && raw > 0.0
    ensures CloseQuantity(cfg, b, fraction, raw).Some? ==>
              var q := CloseQuantity(cfg, b, fraction, raw).value;
              && 0.0 < q <= Abs(b.position)
              && (cfg.spec.Some? ==> WholeLots(Abs(b.position) - q, cfg.spec.value.lot))
              && (fraction >= 1.0 ==> q == Abs(b.position))
    ensures CloseQuantity(cfg, b, fraction, raw).None? ==>
              && cfg.spec.Some? && fraction < 1.0
              && var floored := FloorLot(Wanted(b, fraction), cfg.spec.value.lot);
              floored == 0.0 || floored * raw < cfg.spec.value.Threshold()
  {
    hide Money, FeeBook, Chain, FloorLot, WholeLots, Wanted;
    PartOf(b, fraction);
    if cfg.spec.Some? {
      ZeroLots(cfg.spec.value.lot);
      var n := FloorLotIsWhole(Wanted(b, fraction), cfg.spec.value.lot);
      FloorLotFits(Wanted(b, fraction), Abs(b.position), cfg.spec.value.lot);
    }
  }

  lemma PartOf(b: Books, fraction: real)
    requires b.position != 0.0 && fraction > 0.0
    ensures 0.0 < Wanted(b, fraction) <= Abs(b.position)
    ensures fraction >= 1.0 ==> Wanted(b, fraction) == Abs(b.position)
  {
    var p, m := Abs(b.position), Min(fraction, 1.0);
    PartNumbers(p, m, Wanted(b, fraction));
  }

  lemma PartNumbers(p: real, m: real, part: real)
    requires p > 0.0 && 0.0 < m <= 1.0 && part == p * m
    ensures 0.0 < part <= p && (m == 1.0 ==> part == p)
  {
  }

  lemma ZeroLots(lot: real)
    ensures WholeLots(0.0, lot)
  {
    assert IsLots(0.0, 0, lot);
  }

  /** Inventory at cost that a dust snap drops, and the entry fee that no trade takes over. */
  function CloseAudit(a: Audit, b: Books, quantity: real, c: Books): Audit {
    if c.position != 0.0 then a
    else
      var left := if SideOf(b.position) == Long then b.position - quantity else b.position + quantity;
      var dropped :=
        if b.marginLocked > 0.0 then
          LockedAfter(b, quantity) + (if SideOf(b.position) == Short then left * b.avgCost else 0.0)
        else left * b.avgCost;
      a.(snapped := a.snapped + dropped, unallocated := a.unallocated + b.entryFee - c.entryFeeNetted)
  }

  ghost predicate Closable(cfg: Config, b: Books, a: Audit, quantity: real, raw: real, slip: real, kind: EventKind) {
    && Inv(cfg, b, a) && b.position != 0.0
    && 0.0 < quantity <= Abs(b.position)
    && raw > 0.0 && 0.0 <= slip < 1.0
    && (kind == CloseFill || kind == TerminalClose)
    && (cfg.spec.Some? ==> WholeLots(Abs(b.position) - quantity, cfg.spec.value.lot))
  }

  /** The margin left after a close, free of the clamps. */
  lemma MarginAfter(cfg: Config, b: Books, a: Audit, quantity: real, raw: real, slip: real, kind: EventKind)
    requires Closable(cfg, b, a, quantity, raw, slip, kind) && b.marginLocked > 0.0
    ensures CloseRatio(b, quantity) == quantity / Abs(b.position)
    ensures LockedAfter(b, quantity) == b.marginLocked - b.marginLocked * CloseRatio(b, quantity) >= 0.0
    ensures NotionalAfter(b, quantity) == b.notional * (1.0 - CloseRatio(b, quantity)) >= 0.0
    ensures quantity < Abs(b.position) ==> LockedAfter(b, quantity) > 0.0
  {
    hide Closable, LockedAfter, NotionalAfter, CloseRatio, Abs;
    MarginState(cfg, b, a, quantity, raw, slip, kind);
    CloseRatioRange(b, quantity);
    MarginUnclamped(b, quantity);
  }

  lemma CloseRatioRange(b: Books, quantity: real)
    requires 0.0 < quantity <= Abs(b.position)
    ensures CloseRatio(b, quantity) == quantity / Abs(b.position) && 0.0 <= CloseRatio(b, quantity) <= 1.0
    ensures quantity < Abs(b.position) ==> CloseRatio(b, quantity) < 1.0
  {
  }

  lemma MarginUnclamped(b: Books, quantity: real)
    requires b.marginLocked > 0.0 && b.notional >= 0.0 && 0.0 <= CloseRatio(b, quantity) <= 1.0
    ensures LockedAfter(b, quantity) == b.marginLocked - b.marginLocked * CloseRatio(b, quantity) >= 0.0
    ensures NotionalAfter(b, quantity) == b.notional * (1.0 - CloseRatio(b, quantity)) >= 0.0
    ensures CloseRatio(b, quantity) < 1.0 ==> LockedAfter(b, quantity) > 0.0
  {
  }

  /** The margin left stays within what the cost of the position left would lock, and without adds the notional left is
      that cost. */
  lemma MarginShares(cfg: Config, b: Books, a: Audit, quantity: real, raw: real, slip: real, kind: EventKind)
    requires Closable(cfg, b, a, quantity, raw, slip, kind) && b.marginLocked > 0.0
    ensures LockedAfter(b, quantity) * cfg.leverage <= (Abs(b.position) - quantity) * b.avgCost
    ensures b.adds == 0 ==> NotionalAfter(b, quantity) == (Abs(b.position) - quantity) * b.avgCost
  {
    hide Closable, LockedAfter, NotionalAfter, CloseRatio, Abs;
    MarginAfter(cfg, b, a, quantity, raw, slip, kind);
    MarginState(cfg, b, a, quantity, raw, slip, kind);
    RatioBounds(Abs(b.position), quantity);
    MarginRelease(b.marginLocked, b.notional, Abs(b.position), quantity, b.avgCost, cfg.leverage,
                  CloseRatio(b, quantity), LockedAfter(b, quantity), NotionalAfter(b, quantity));
  }

  lemma MarginState(cfg: Config, b: Books, a: Audit, quantity: real, raw: real, slip: real, kind: EventKind)
    requires Closable(cfg, b, a, quantity, raw, slip, kind) && b.marginLocked > 0.0
    ensures 0.0 < quantity <= Abs(b.position) && b.notional >= 0.0
    ensures b.marginLocked * cfg.leverage <= Abs(b.position) * b.avgCost
    ensures b.adds == 0 ==> b.notional == Abs(b.position) * b.avgCost
  {
  }

  lemma CloseShape(cfg: Config, b: Books, a: Audit, quantity: real, raw: real, slip: real, feeRate: real, kind: EventKind)
    requires Closable(cfg, b, a, quantity, raw, slip, kind)
    ensures var c := Close(b, quantity, raw, slip, feeRate, kind);
            && Shape(cfg, c, CloseAudit(a, b, quantity, c))
            && (c.position == 0.0 <==> Abs(b.position) - quantity <= DUST)
            && (c.position != 0.0 ==> Abs(c.position) == Abs(b.position) - quantity && SideOf(c.position) == SideOf(b.position))
            && (c.position != 0.0 ==> c.avgCost == b.avgCost && c.GeomCost() == b.GeomCost() && c.adds == b.adds)
  {
    hide TotalsOf, Continuous, NetPnl, WholeLots, FillPrice, ExitFee, GrossPnl, CloseCash, LockedAfter, NotionalAfter,
         EntryFeeShare, Money, FeeBook, Chain;
    if b.marginLocked > 0.0 {
      MarginAfter(cfg, b, a, quantity, raw, slip, kind);
      MarginShares(cfg, b, a, quantity, raw, slip, kind);
    } else {
      NoMargin(b, quantity);
    }
    if cfg.spec.Some? {
      ZeroLots(cfg.spec.value.lot);
    }
  }

  lemma CloseChain(cfg: Config, b: Books, a: Audit, quantity: real, raw: real, slip: real, feeRate: real, kind: EventKind)
    requires Closable(cfg, b, a, quantity, raw, slip, kind)
    ensures Chain(cfg, Close(b, quantity, raw, slip, feeRate, kind))
  {
  }

  lemma NoMargin(b: Books, quantity: real)
    requires b.marginLocked <= 0.0
    ensures LockedAfter(b, quantity) == b.marginLocked && NotionalAfter(b, quantity) == b.notional
  {
  }

  function Realized(b: Books, quantity: real, price: real): real {
    if SideOf(b.position) == Long then quantity * (price - b.avgCost) else quantity * (b.avgCost - price)
  }

  /** Cash and margin move by the realised result less the exit fee and the cost of what is closed. */
  lemma CloseCashChange(cfg: Config, b: Books, a: Audit, quantity: real, raw: real, slip: real, kind: EventKind,
                        price: real, fee: real)
    requires Closable(cfg, b, a, quantity, raw, slip, kind)
    ensures b.marginLocked <= 0.0 ==>
              CloseCash(b, quantity, price, fee)
                + (if SideOf(b.position) == Long then b.position - quantity else b.position + quantity) * b.avgCost
              == b.AtCost() - fee + Realized(b, quantity, price)
    ensures b.marginLocked > 0.0 ==>
              CloseCash(b, quantity, price, fee) + LockedAfter(b, quantity)
                + (if b.position < 0.0 then (b.position + quantity) * b.avgCost else 0.0)
              == b.AtCost() - fee + Realized(b, quantity, price)
  {
    hide Closable, LockedAfter, NotionalAfter, CloseRatio;
    ClosableState(cfg, b, a, quantity, raw, slip, kind);
    if b.marginLocked > 0.0 {
      MarginAfter(cfg, b, a, quantity, raw, slip, kind);
    }
    Distribute(b.position, quantity, b.avgCost, price);
  }

  lemma Distribute(position: real, quantity: real, avg: real, price: real)
    ensures quantity * (price - avg) == quantity * price - quantity * avg
    ensures quantity * (avg - price) == quantity * avg - quantity * price
    ensures (position - quantity) * avg == position * avg - quantity * avg
    ensures (position + quantity) * avg == position * avg + quantity * avg
  {
  }

  /** The fields of the books after a close, without the arithmetic inside them. */
  lemma CloseFields(b: Books, quantity: real, raw: real, slip: real, feeRate: real, kind: EventKind)
    requires b.open.Some? && b.open.value.entryPrice > 0.0
    ensures var c := Close(b, quantity, raw, slip, feeRate, kind);
            var price := FillPrice(SideOf(b.position), false, raw, slip);
            var left := if SideOf(b.position) == Long then b.position - quantity else b.position + quantity;
            && c.cash == CloseCash(b, quantity, price, ExitFee(quantity, price, feeRate))
            && c.position == (if Abs(left) <= DUST then 0.0 else left)
            && (Abs(left) > DUST ==> c.avgCost == b.avgCost && c.marginLocked == LockedAfter(b, quantity)
                                     && c.notional == NotionalAfter(b, quantity))
            && (Abs(left) <= DUST ==> c.avgCost == 0.0 && c.marginLocked == 0.0)
            && c.fundingTotal == b.fundingTotal
            && |c.events| == |b.events| + 1 && c.events == b.events + [c.events[|b.events|]]
            && c.events[|b.events|].gross == GrossPnl(b.open.value.side, quantity, b.open.value.entryPrice, price)
            && c.events[|b.events|].fee == ExitFee(quantity, price, feeRate) && c.events[|b.events|].funding == 0.0
  {
  }

  lemma CloseAtCost(cfg: Config, b: Books, a: Audit, quantity: real, raw: real, slip: real, feeRate: real, kind: EventKind)
    requires Closable(cfg, b, a, quantity, raw, slip, kind)
    ensures var c := Close(b, quantity, raw, slip, feeRate, kind);
            var price := FillPrice(SideOf(b.position), false, raw, slip);
            c.AtCost() + CloseAudit(a, b, quantity, c).snapped
            == b.AtCost() + a.snapped + Realized(b, quantity, price) - ExitFee(quantity, price, feeRate)
  {
    hide Closable, ExitFee, FillPrice, CloseCash, LockedAfter, NotionalAfter, Realized, Close, CloseRatio;
    ClosableState(cfg, b, a, quantity, raw, slip, kind);
    var c := Close(b, quantity, raw, slip, feeRate, kind);
    var price := FillPrice(SideOf(b.position), false, raw, slip);
    CloseFields(b, quantity, raw, slip, feeRate, kind);
    CloseCashChange(cfg, b, a, quantity, raw, slip, kind, price, ExitFee(quantity, price, feeRate));
    if b.marginLocked > 0.0 {
      MarginAfter(cfg, b, a, quantity, raw, slip, kind);
    } else {
      NoMargin(b, quantity);
    }
  }

  lemma CloseMoney(cfg: Config, b: Books, a: Audit, quantity: real, raw: real, slip: real, feeRate: real, kind: EventKind)
    requires Closable(cfg, b, a, quantity, raw, slip, kind)
    ensures var c := Close(b, quantity, raw, slip, feeRate, kind); Money(cfg, c, CloseAudit(a, b, quantity, c))
  {
    hide ExitFee, FillPrice, CloseCash, LockedAfter, NotionalAfter, Close, CloseRatio, FeeBook, Chain, WholeLots,
         TotalsOf, GrossPnl;
    var c := Close(b, quantity, raw, slip, feeRate, kind);
    var price := FillPrice(SideOf(b.position), false, raw, slip);
    CloseFields(b, quantity, raw, slip, feeRate, kind);
    GrossIsPriceMove(SideOf(b.position), quantity, b.avgCost, price);
    TotalsSnoc(b.events, c.events[|b.events|]);
    CloseAtCost(cfg, b, a, quantity, raw, slip, feeRate, kind);
  }

  /** The fee book moves by the entry-fee share of the close. */
  lemma CloseFees(cfg: Config, b: Books, a: Audit, quantity: real, raw: real, slip: real, feeRate: real, kind: EventKind)
    requires Closable(cfg, b, a, quantity, raw, slip, kind)
    ensures var c := Close(b, quantity, raw, slip, feeRate, kind); FeeBook(c, CloseAudit(a, b, quantity, c))
  {
    hide TotalsOf, Continuous, NetPnl, WholeLots, FillPrice, ExitFee, GrossPnl, CloseCash, LockedAfter, NotionalAfter, Chain,
         Money;
    var c := Close(b, quantity, raw, slip, feeRate, kind);
    TotalsSnoc(b.events, c.events[|b.events|]);
    NetPnlSnoc(b.trades, c.trades[|b.trades|]);
    if c.position != 0.0 && !a.lateAdd {
      SharePartial(cfg, b, a, quantity, raw, slip, feeRate, kind);
    }
  }

  lemma SharePartial(cfg: Config, b: Books, a: Audit, quantity: real, raw: real, slip: real, feeRate: real, kind: EventKind)
    requires Closable(cfg, b, a, quantity, raw, slip, kind) && !a.lateAdd
    requires Close(b, quantity, raw, slip, feeRate, kind).position != 0.0
    ensures var c := Close(b, quantity, raw, slip, feeRate, kind);
            c.entryFeeNetted * c.initialQuantity == c.entryFee * (c.initialQuantity - Abs(c.position))
  {
    hide TotalsOf, Continuous, NetPnl, WholeLots, FillPrice, ExitFee, GrossPnl, CloseCash, LockedAfter, NotionalAfter, Chain,
         Money;
    ProRata(b.entryFee, b.entryFeeNetted, b.initialQuantity, Abs(b.position), quantity);
  }

  /** Every close, partial or full, keeps the whole invariant. */
  lemma CloseKeeps(cfg: Config, b: Books, a: Audit, quantity: real, raw: real, slip: real, feeRate: real, kind: EventKind)
    requires Closable(cfg, b, a, quantity, raw, slip, kind)
    ensures var c := Close(b, quantity, raw, slip, feeRate, kind); Inv(cfg, c, CloseAudit(a, b, quantity, c))
  {
    hide Shape, Money, FeeBook, Chain, Close, CloseAudit;
    CloseShape(cfg, b, a, quantity, raw, slip, feeRate, kind);
    CloseChain(cfg, b, a, quantity, raw, slip, feeRate, kind);
    CloseMoney(cfg, b, a, quantity, raw, slip, feeRate, kind);
    CloseFees(cfg, b, a, quantity, raw, slip, feeRate, kind);
  }

  // ---------------------------------------------------------------- what a finished position leaves behind

  /** A close that ends a position, the residue within dust. After adds the allocated total is the larger of the
      charged fee and what was already allocated; without adds the residue's share of the fee is not allocated. So
      nothing is left over exactly when the guard of the final true-up is met, or, without adds, when the close took
      the whole position or no fee was charged. */
  lemma EndAllocates(cfg: Config, b: Books, a: Audit, quantity: real, raw: real, slip: real, feeRate: real, kind: EventKind)
    requires Closable(cfg, b, a, quantity, raw, slip, kind) && Abs(b.position) - quantity <= DUST
    ensures var c := Close(b, quantity, raw, slip, feeRate, kind);
            var a' := CloseAudit(a, b, quantity, c);
            && c.position == 0.0
            && (b.adds > 0 ==> c.entryFeeNetted == Max(b.entryFee, b.entryFeeNetted))
            && (b.adds == 0 ==>
                  (b.entryFee - c.entryFeeNetted) * b.initialQuantity == b.entryFee * (Abs(b.position) - quantity))
            && (a'.unallocated == a.unallocated <==>
                  if b.adds > 0 then b.entryFeeNetted <= b.entryFee
                  else quantity == Abs(b.position) || b.entryFee == 0.0)
  {
    hide TotalsOf, FillPrice, ExitFee, GrossPnl, CloseCash, NetPnl, Continuous, WholeLots, LockedAfter, NotionalAfter;
    if b.adds == 0 {
      FinalShare(b.entryFee, b.entryFeeNetted, b.initialQuantity, Abs(b.position), quantity,
                 EntryFeeShare(b, quantity, true));
    }
  }

  lemma FinalShare(fee: real, netted: real, initial: real, p: real, q: real, share: real)
    requires initial > 0.0 && netted * initial == fee * (initial - p) && share == fee * (q / initial)
    ensures var rest := fee - (netted + share);
            && rest * initial == fee * (p - q)
            && (rest == 0.0 <==> p == q || fee == 0.0)
  {
    ProRata(fee, netted, initial, p, q);
    var rest := fee - (netted + share);
    assert rest * initial == fee * initial - (netted + share) * initial;
    assert fee * (initial - (p - q)) == fee * initial - fee * (p - q);
    NonZeroProduct(rest, initial, rest * initial);
    NonZeroProduct(fee, p - q, fee * (p - q));
  }

  lemma NonZeroProduct(x: real, y: real, product: real)
    requires product == x * y
    ensures product == 0.0 <==> x == 0.0 || y == 0.0
  {
  }

  /** When no add followed a partial close, the guard of the final true-up is always met. */
  lemma TimelyAddsAllocateOnce(cfg: Config, b: Books, a: Audit)
    requires Inv(cfg, b, a) && b.position != 0.0 && !a.lateAdd
    ensures 0.0 <= b.entryFeeNetted <= b.entryFee
  {
    hide TotalsOf, NetPnl, Continuous, WholeLots;
    NettedBounds(b.entryFee, b.entryFeeNetted, b.initialQuantity, Abs(b.position));
  }

  lemma NettedBounds(fee: real, netted: real, initial: real, p: real)
    requires fee >= 0.0 && 0.0 < p <= initial && netted * initial == fee * (initial - p)
    ensures 0.0 <= netted <= fee
  {
    Scale(0.0, fee, initial - p);
    Scale(netted, 0.0, initial);
    Scale(initial - p, initial, fee);
    Scale(fee, netted, initial);
  }

  /** A lot-sized run whose lot exceeds the dust limit ends positions only in closes of all they hold. */
  lemma SpecCloseExact(cfg: Config, b: Books, a: Audit, quantity: real, raw: real, slip: real, kind: EventKind)
    requires Closable(cfg, b, a, quantity, raw, slip, kind) && Abs(b.position) - quantity <= DUST
    requires cfg.spec.Some? && cfg.spec.value.lot > DUST
    ensures quantity == Abs(b.position)
  {
    NoSmallLots(Abs(b.position) - quantity, cfg.spec.value.lot);
  }

  lemma NoSmallLots(q: real, lot: real)
    requires WholeLots(q, lot) && 0.0 <= q <= DUST < lot
    ensures q == 0.0
  {
    var n :| IsLots(q, n, lot);
    Scale(1.0, n as real, lot);
    Scale(n as real, -1.0, lot);
  }

  // ---------------------------------------------------------------- what the events say of the books

  /** The events tell what the audit tells: what was dropped, what adds to longs cost margin mode, whether adds and
      final closes were timely; they tell the margin that is locked; and the quantities they carry add up to the
      position and the residues. */
  ghost predicate LogBook(cfg: Config, b: Books, a: Audit)
    requires cfg.Valid()
  {
    var t := TotalsOf(b.events);
    && (b.position != 0.0 && MarginMode(cfg) ==> b.marginLocked == Locked(cfg, b.events) > 0.0)
    && a.snapped == Snapped(cfg, b.events)
    && a.longAdds == LongAdds(cfg, b.events)
    && AddsHaveValue(b.events)
    && (b.position != 0.0 && !Reduced(b.events) ==> Abs(b.position) == b.initialQuantity)
    && (Timely(b.events) ==> a.unallocated == 0.0 && !a.lateAdd)
    && t.bought - t.sold == Abs(b.position) + Residues(b.events)
    && EndsInDust(cfg, b.events)
    && (cfg.spec.Some? && cfg.spec.value.lot > DUST ==> Timely(b.events))
  }

  ghost predicate ValidState(cfg: Config, b: Books, a: Audit) { Inv(cfg, b, a) && LogBook(cfg, b, a) }

  /** Books that a run can reach satisfy this. */
  ghost predicate Sound(cfg: Config, b: Books) { exists a :: ValidState(cfg, b, a) }

  lemma StartIsSound(cfg: Config)
    requires cfg.Valid()
    ensures Sound(cfg, StartBooks(cfg))
  {
    StartInv(cfg);
    assert ValidState(cfg, StartBooks(cfg), Audit(0.0, 0.0, false, 0.0, 0.0));
  }

  lemma AccrueIsSound(cfg: Config, b: Books, mark: real, accrual: real)
    requires Sound(cfg, b)
    ensures Sound(cfg, Accrue(b, mark, accrual))
  {
    hide Inv, TotalsOf, Snapped, Residues, Timely, Reduced, LongAdded, EndsInDust, AddsHaveValue, Locked, LongAdds;
    var a :| ValidState(cfg, b, a);
    var c := Accrue(b, mark, accrual);
    AccrueKeeps(cfg, b, a, mark, accrual);
    ConfigIsValid(cfg, b, a);
    if c != b {
      TotalsSnoc(b.events, c.events[|b.events|]);
      LogSnoc(cfg, b.events, c.events[|b.events|]);
    }
    assert ValidState(cfg, c, a);
  }

  lemma ConfigIsValid(cfg: Config, b: Books, a: Audit)
    requires Inv(cfg, b, a)
    ensures cfg.Valid()
    ensures b.position != 0.0 ==> b.open.Some? && b.open.value.entryPrice > 0.0
  {
  }

  /** An entry is not a late add, drops nothing, and its quantity is all the position holds. */
  lemma EnterIsSound(cfg: Config, b: Books, side: Side, raw: real, fraction: real)
    requires Sound(cfg, b) && cfg.Valid() && b.position == 0.0 && b.cash > 0.0 && raw > 0.0 && fraction > 0.0
    requires EntryFill(cfg, b.cash, side, raw, fraction).Some?
    ensures Sound(cfg, Enter(b, side, EntryFill(cfg, b.cash, side, raw, fraction).value))
  {
    hide Inv, TotalsOf, Snapped, Residues, Timely, Reduced, LongAdded, EndsInDust, AddsHaveValue, Locked, LongAdds, EntryFill;
    var a :| ValidState(cfg, b, a);
    var f := EntryFill(cfg, b.cash, side, raw, fraction).value;
    var c := Enter(b, side, f);
    EnterKeeps(cfg, b, a, side, raw, fraction);
    EntryFillFacts(cfg, b.cash, side, raw, fraction);
    if MarginMode(cfg) {
      SameQuotient(FillValue(f.shares, f.price), f.locked, cfg.leverage);
    }
    TotalsSnoc(b.events, c.events[|b.events|]);
    LogSnoc(cfg, b.events, c.events[|b.events|]);
    assert ValidState(cfg, c, EnterAudit(a, f.price));
  }

  lemma MarginIsMode(cfg: Config, b: Books, a: Audit)
    requires ValidState(cfg, b, a) && b.position != 0.0
    ensures cfg.Valid()
    ensures b.marginLocked > 0.0 <==> MarginMode(cfg)
    ensures MarginMode(cfg) ==> b.marginLocked == Locked(cfg, b.events)
  {
  }

  lemma AddIsSound(cfg: Config, b: Books, quantity: real, raw: real)
    requires Sound(cfg, b) && b.position != 0.0 && quantity > 0.0 && raw > 0.0 && cfg.spec.None?
    ensures cfg.Valid() && b.open.Some? && b.open.value.entryPrice > 0.0
    ensures Sound(cfg, Add(cfg, b, quantity, raw))
  {
    var a :| ValidState(cfg, b, a);
    MarginIsMode(cfg, b, a);
    hide Inv, TotalsOf, Snapped, Residues, Timely, Reduced, LongAdded, EndsInDust, AddsHaveValue, Locked, LongAdds,
         FillPrice, BlendedPrice, FeeOn;
    ConfigIsValid(cfg, b, a);
    var c := Add(cfg, b, quantity, raw);
    var price := FillPrice(SideOf(b.position), true, raw, cfg.slippage);
    FillPricePositive(SideOf(b.position), true, raw, cfg.slippage);
    AddKeeps(cfg, b, a, quantity, raw);
    TotalsSnoc(b.events, c.events[|b.events|]);
    LogSnoc(cfg, b.events, c.events[|b.events|]);
    Positive(quantity, price);
    assert ValidState(cfg, c, AddAudit(a, b, quantity * price));
  }

  /** What the event of a close records. */
  lemma CloseEvent(cfg: Config, b: Books, a: Audit, quantity: real, raw: real, slip: real, feeRate: real, kind: EventKind)
    requires Closable(cfg, b, a, quantity, raw, slip, kind)
    ensures var c := Close(b, quantity, raw, slip, feeRate, kind);
            && c.events == b.events + [c.events[|b.events|]]
            && var e := c.events[|b.events|];
            && e.kind == kind && e.quantity == quantity && e.qtyBefore == b.position && e.qtyAfter == c.position
            && e.avgBefore == b.avgCost && b.avgCost > 0.0
            && (c.position == 0.0 <==> Residue(e) <= DUST) && Residue(e) >= 0.0
            && (c.position != 0.0 ==> Abs(c.position) == Residue(e))
  {
    hide FillPrice, ExitFee, GrossPnl, CloseCash, LockedAfter, NotionalAfter, EntryFeeShare, Money, FeeBook, Chain,
         WholeLots;
  }

  /** What the snap drops, and the margin left, are what the events say. */
  lemma DroppedIsRecorded(cfg: Config, b: Books, a: Audit, quantity: real, raw: real, slip: real, feeRate: real,
                          kind: EventKind)
    requires Closable(cfg, b, a, quantity, raw, slip, kind) && ValidState(cfg, b, a)
    ensures cfg.Valid()
    ensures var c := Close(b, quantity, raw, slip, feeRate, kind);
            |c.events| == |b.events| + 1 &&
            var e := c.events[|b.events|];
            && CloseAudit(a, b, quantity, c).snapped
               == a.snapped + (if c.position == 0.0 then Dropped(cfg, Locked(cfg, b.events), e) else 0.0)
            && (MarginMode(cfg) ==> LockedAfter(b, quantity) == LockedLeft(b.marginLocked, e))
            && (MarginMode(cfg) ==> b.marginLocked * cfg.leverage <= Abs(e.qtyBefore) * e.avgBefore)
  {
    hide Closable, ValidState, Close, LockedAfter, NotionalAfter, CloseAudit, Dropped, Residue, Locked, CloseRatio, LockedLeft,
         CostLeft;
    ClosableState(cfg, b, a, quantity, raw, slip, kind);
    MarginIsMode(cfg, b, a);
    CloseEvent(cfg, b, a, quantity, raw, slip, feeRate, kind);
    var c := Close(b, quantity, raw, slip, feeRate, kind);
    var e := c.events[|b.events|];
    if b.marginLocked > 0.0 {
      MarginAfter(cfg, b, a, quantity, raw, slip, kind);
      MarginState(cfg, b, a, quantity, raw, slip, kind);
      LockedByEvent(b, quantity, e);
    }
    SnappedByClose(a, b, quantity, c);
    DroppedAmount(cfg, Locked(cfg, b.events), e);
  }

  lemma ClosableState(cfg: Config, b: Books, a: Audit, quantity: real, raw: real, slip: real, kind: EventKind)
    requires Closable(cfg, b, a, quantity, raw, slip, kind)
    ensures cfg.Valid() && b.position != 0.0 && b.open.Some? && b.open.value.entryPrice > 0.0
    ensures 0.0 < quantity <= Abs(b.position) && (kind == CloseFill || kind == TerminalClose)
  {
  }

  /** The cost of what a close leaves, as far as the margin does not stand for it. */
  function CostLeft(position: real, quantity: real, avg: real, margin: bool): real {
    if SideOf(position) == Short then (position + quantity) * avg else if margin then 0.0 else (position - quantity) * avg
  }

  lemma LockedByEvent(b: Books, quantity: real, e: LedgerEvent)
    requires e.quantity == quantity && e.qtyBefore == b.position != 0.0
    requires LockedAfter(b, quantity) == b.marginLocked - b.marginLocked * CloseRatio(b, quantity)
    requires CloseRatio(b, quantity) == quantity / Abs(b.position)
    ensures LockedAfter(b, quantity) == LockedLeft(b.marginLocked, e)
  {
    hide LockedAfter, CloseRatio;
  }

  lemma SnappedByClose(a: Audit, b: Books, quantity: real, c: Books)
    ensures CloseAudit(a, b, quantity, c).snapped
         == a.snapped
            + if c.position != 0.0 then 0.0
              else
                (if b.marginLocked > 0.0 then LockedAfter(b, quantity) else 0.0)
                + CostLeft(b.position, quantity, b.avgCost, b.marginLocked > 0.0)
  {
    hide LockedAfter, NotionalAfter;
  }

  lemma DroppedAmount(cfg: Config, locked: real, e: LedgerEvent)
    requires e.qtyBefore != 0.0
    ensures Dropped(cfg, locked, e)
         == (if MarginMode(cfg) then LockedLeft(locked, e) else 0.0)
            + CostLeft(e.qtyBefore, e.quantity, e.avgBefore, MarginMode(cfg))
  {
    hide LockedLeft;
    assert -Residue(e) * e.avgBefore == -(Residue(e) * e.avgBefore);
  }

  lemma SameQuotient(product: real, x: real, y: real)
    requires y > 0.0 && x * y == product
    ensures product / y == x
  {
  }

  lemma CloseLog(cfg: Config, b: Books, a: Audit, quantity: real, raw: real, slip: real, feeRate: real, kind: EventKind)
    requires Closable(cfg, b, a, quantity, raw, slip, kind) && ValidState(cfg, b, a)
    ensures cfg.Valid()
    ensures var c := Close(b, quantity, raw, slip, feeRate, kind);
            LogBook(cfg, c, CloseAudit(a, b, quantity, c))
  {
    hide Inv, Closable, TotalsOf, Snapped, Residues, Timely, Reduced, LongAdded, EndsInDust, AddsHaveValue, Locked,
         LongAdds, Close, CloseAudit, Dropped, LockedAfter, LockedLeft, NotionalAfter, CloseRatio, WholeLots;
    ClosableState(cfg, b, a, quantity, raw, slip, kind);
    CloseEvent(cfg, b, a, quantity, raw, slip, feeRate, kind);
    AuditKeeps(cfg, b, a, quantity, raw, slip, feeRate, kind);
    DroppedIsRecorded(cfg, b, a, quantity, raw, slip, feeRate, kind);
    if b.marginLocked > 0.0 {
      MarginAfter(cfg, b, a, quantity, raw, slip, kind);
    }
    MarginIsMode(cfg, b, a);
    CloseFields(b, quantity, raw, slip, feeRate, kind);
    var c := Close(b, quantity, raw, slip, feeRate, kind);
    TotalsSnoc(b.events, c.events[|b.events|]);
    LogSnoc(cfg, b.events, c.events[|b.events|]);
    if cfg.spec.Some? && cfg.spec.value.lot > DUST && c.position == 0.0 {
      SpecCloseExact(cfg, b, a, quantity, raw, slip, kind);
    }
  }

  /** A close changes of the audit only what the end of the position settles; a timely end leaves no fee over. */
  lemma AuditKeeps(cfg: Config, b: Books, a: Audit, quantity: real, raw: real, slip: real, feeRate: real,
                   kind: EventKind)
    requires Closable(cfg, b, a, quantity, raw, slip, kind)
    ensures var c := Close(b, quantity, raw, slip, feeRate, kind);
            var a' := CloseAudit(a, b, quantity, c);
            && a'.longAdds == a.longAdds && a'.lateAdd == a.lateAdd
            && (c.position != 0.0 ==> a' == a)
            && (!a.lateAdd && (c.position == 0.0 ==> quantity == Abs(b.position)) ==> a'.unallocated == a.unallocated)
  {
    CloseEvent(cfg, b, a, quantity, raw, slip, feeRate, kind);
    hide Close, Inv;
    if Close(b, quantity, raw, slip, feeRate, kind).position == 0.0 {
      EndAllocates(cfg, b, a, quantity, raw, slip, feeRate, kind);
      if !a.lateAdd {
        TimelyAddsAllocateOnce(cfg, b, a);
      }
    }
  }

  lemma CloseIsSound(cfg: Config, b: Books, a: Audit, quantity: real, raw: real, slip: real, feeRate: real,
                     kind: EventKind)
    requires Closable(cfg, b, a, quantity, raw, slip, kind) && ValidState(cfg, b, a)
    ensures Sound(cfg, Close(b, quantity, raw, slip, feeRate, kind))
  {
    ConfigIsValid(cfg, b, a);
    hide Inv, TotalsOf, Snapped, Residues, Timely, Reduced, LongAdded, EndsInDust, AddsHaveValue, Locked, LongAdds, Close,
         CloseAudit;
    var c := Close(b, quantity, raw, slip, feeRate, kind);
    var a' := CloseAudit(a, b, quantity, c);
    CloseKeeps(cfg, b, a, quantity, raw, slip, feeRate, kind);
    CloseLog(cfg, b, a, quantity, raw, slip, feeRate, kind);
    assert ValidState(cfg, c, a');
  }

  // ---------------------------------------------------------------- what holds of every reachable state

  /** Cash and inventory at cost: initial cash plus realised minus fees plus funding, less what snaps dropped and what
      margin mode paid for adds to longs. */
  lemma CashIdentity(cfg: Config, b: Books)
    requires Sound(cfg, b)
    ensures cfg.Valid()
    ensures var t := TotalsOf(b.events);
            && b.AtCost() == cfg.initialCash + t.gross - t.fees + t.funding - Snapped(cfg, b.events)
                             - LongAdds(cfg, b.events)
            && (!MarginMode(cfg) ==> b.AtCost() == b.cash + b.position * b.avgCost)
            && Abs(Snapped(cfg, b.events)) <= DustLimit(cfg, b.events)
            && (Timely(b.events) ==> Snapped(cfg, b.events) == 0.0)
            && LongAdds(cfg, b.events) >= 0.0
            && (LongAdds(cfg, b.events) == 0.0 <==> !(MarginMode(cfg) && LongAdded(b.events)))
  {
    var a :| ValidState(cfg, b, a);
    hide TotalsOf, Snapped, Residues, Timely, Reduced, LongAdded, EndsInDust, AddsHaveValue, Locked, LongAddValue,
         DustLimit, NetPnl, Continuous, WholeLots;
    SnapsAreBounded(cfg, b.events);
    LongAddsCost(b.events);
    if Timely(b.events) {
      TimelyDropsNothing(cfg, b.events);
    }
  }

  /** How far a short's notional falls behind its cost when adds to it are not counted in. */
  function Uncounted(b: Books): real {
    if b.marginLocked > 0.0 && b.position < 0.0 then Abs(b.position) * b.avgCost - b.notional else 0.0
  }

  /** The equity point of a bar is initial cash plus realised minus fees plus funding, less what snaps dropped and what
      margin mode paid for adds to longs, plus the open result at the mark and what the notional of an added-to short
      does not count. */
  lemma EquityPoint(cfg: Config, b: Books, mark: real)
    requires Sound(cfg, b)
    ensures cfg.Valid()
    ensures var t := TotalsOf(b.events);
            && Equity(b, mark)
               == cfg.initialCash + t.gross - t.fees + t.funding - Snapped(cfg, b.events) - LongAdds(cfg, b.events)
                  + b.position * (mark - b.avgCost) + Uncounted(b)
            && (b.adds == 0 ==> Uncounted(b) == 0.0)
  {
    CashIdentity(cfg, b);
    EquityOverCost(b, mark);
    if b.adds == 0 {
      AllCounted(cfg, b);
    }
    hide Sound, TotalsOf, Snapped, LongAdds, Equity, Uncounted;
  }

  lemma EquityOverCost(b: Books, mark: real)
    ensures Equity(b, mark) == b.AtCost() + b.position * (mark - b.avgCost) + Uncounted(b)
  {
  }

  lemma AllCounted(cfg: Config, b: Books)
    requires Sound(cfg, b) && b.adds == 0
    ensures Uncounted(b) == 0.0
  {
    var a :| ValidState(cfg, b, a);
    hide LogBook, Money, FeeBook, Chain, WholeLots;
  }

  /** Quantities opened and added less quantities closed are the position, up to residues within dust. */
  lemma QuantityConserved(cfg: Config, b: Books)
    requires Sound(cfg, b)
    ensures var t := TotalsOf(b.events);
            && t.bought - t.sold == Abs(b.position) + Residues(b.events)
            && 0.0 <= Residues(b.events) <= DUST * Ended(b.events) as real
            && (Timely(b.events) ==> Residues(b.events) == 0.0)
  {
    var a :| ValidState(cfg, b, a);
    ConfigIsValid(cfg, b, a);
    hide Inv, TotalsOf, Snapped, Residues, Timely, Reduced, LongAdded, EndsInDust, DustLimit;
    SnapsAreBounded(cfg, b.events);
    if Timely(b.events) {
      TimelyDropsNothing(cfg, b.events);
    }
  }

  /** In a timely log every entry fee charged is allocated to a trade or outstanding, once. */
  lemma FeesChargedOnce(cfg: Config, b: Books)
    requires Sound(cfg, b) && Timely(b.events)
    ensures var t := TotalsOf(b.events); t.entryFees - t.feesAllocated == Outstanding(b)
  {
    var a :| ValidState(cfg, b, a);
    hide TotalsOf, Timely, NetPnl, Continuous, WholeLots, Reduced, LongAdded, EndsInDust, Residues;
  }

  /** Final cash, from flat: initial cash plus net trade results plus funding, less the entry fees no trade took over,
      what dust snaps dropped, and what margin mode paid for adds to longs. In a timely log the first two are 0, so
      final cash is right exactly when margin mode added to no long. */
  lemma FlatCash(cfg: Config, b: Books)
    requires Sound(cfg, b) && b.position == 0.0
    ensures cfg.Valid()
    ensures var t := TotalsOf(b.events);
            b.cash == cfg.initialCash + NetPnl(b.trades) + b.fundingTotal - (t.entryFees - t.feesAllocated)
                      - Snapped(cfg, b.events) - LongAdds(cfg, b.events)
    ensures Timely(b.events) ==>
              b.cash == cfg.initialCash + NetPnl(b.trades) + b.fundingTotal - LongAdds(cfg, b.events)
    ensures Timely(b.events) ==>
              (b.cash == cfg.initialCash + NetPnl(b.trades) + b.fundingTotal
               <==> !(MarginMode(cfg) && LongAdded(b.events)))
  {
    CashIdentity(cfg, b);
    var a :| ValidState(cfg, b, a);
    hide TotalsOf, Timely, NetPnl, Continuous, WholeLots, Reduced, LongAdded, EndsInDust, AddsHaveValue, Locked,
         LongAdds, Residues, Snapped;
    if Timely(b.events) {
      FeesChargedOnce(cfg, b);
    }
  }

  // ---------------------------------------------------------------- an add after a partial close

  const EXAMPLE: Config := Config(100.0, 0.5, 0.0, 0.0, 1.0, None)

  /** All cash into 50 shares at 1 (fee 50), half closed. */
  function ExampleHalf(): Books {
    Close(Enter(StartBooks(EXAMPLE), Long, Fill(1.0, 50.0, 50.0, 50.0, 0.0, 0.0)), 25.0, 1.0, 0.0, 0.5, CloseFill)
  }

  lemma ExampleEntry()
    ensures EntryFill(EXAMPLE, 100.0, Long, 1.0, 1.0) == Some(Fill(1.0, 50.0, 50.0, 50.0, 0.0, 0.0))
  {
  }

  lemma ExampleHalfBooks()
    ensures var b := ExampleHalf();
            && b.open == Some(OpenTrade(Long, 1.0, 25.0)) && b.position == 25.0 && b.avgCost == 1.0
            && b.cash == 12.5 && b.entryFee == 50.0 && b.entryFeeNetted == 25.0 && b.initialQuantity == 50.0
            && b.marginLocked == 0.0 && b.fundingTotal == 0.0 && NetPnl(b.trades) == -37.5
  {
  }

  /** A close at 1 of shares that cost 1, at the example's fee: the exit fee is half the quantity. */
  lemma ExampleClose(b: Books, quantity: real, share: real)
    requires b.open.Some? && b.open.value.entryPrice == 1.0 && b.open.value.side == Long && b.avgCost == 1.0
    requires b.marginLocked == 0.0 && 0.0 < quantity <= b.position
    requires share == EntryFeeShare(b, quantity, Abs(b.position - quantity) <= DUST)
    ensures var c := Close(b, quantity, 1.0, 0.0, 0.5, CloseFill);
            && c.cash == b.cash + quantity - quantity * 0.5
            && c.entryFeeNetted == b.entryFeeNetted + share && c.fundingTotal == b.fundingTotal
            && NetPnl(c.trades) == NetPnl(b.trades) - (share + quantity * 0.5)
            && (Abs(b.position - quantity) > DUST ==>
                 && c.position == b.position - quantity && c.avgCost == 1.0 && c.marginLocked == 0.0
                 && c.entryFee == b.entryFee && c.initialQuantity == b.initialQuantity && c.adds == b.adds
                 && c.open == Some(b.open.value.(shares := b.open.value.shares - quantity)))
            && (Abs(b.position - quantity) <= DUST ==> c.position == 0.0)
  {
  }

  lemma ExampleAddedBooks()
    ensures var b := Add(EXAMPLE, ExampleHalf(), 75.0, 1.0);
            && b.open == Some(OpenTrade(Long, 1.0, 100.0)) && b.position == 100.0 && b.avgCost == 1.0
            && b.adds > 0 && b.cash == -100.0 && b.entryFee == 87.5 && b.entryFeeNetted == 25.0 && b.initialQuantity == 125.0
            && b.marginLocked == 0.0 && b.fundingTotal == 0.0 && NetPnl(b.trades) == -37.5
  {
  }

  /** Then 75 more are bought at 1 (fee 37.5), 96 of the 100 shares are closed and finally the last 4: the closes
      have taken over 92.2 of the 87.5 charged, and the trades' net results are 4.7 short of the change in cash. */
  lemma LateAddOverAllocates()
    ensures var b := Add(EXAMPLE, ExampleHalf(), 75.0, 1.0);
            && b.open.Some? && b.open.value.entryPrice > 0.0 && b.position == 100.0
            && var partly := Close(b, 96.0, 1.0, 0.0, 0.5, CloseFill);
            && partly.open.Some? && partly.open.value.entryPrice > 0.0
            && var ended := Close(partly, 4.0, 1.0, 0.0, 0.5, CloseFill);
            && ended.position == 0.0
            && ended.cash == EXAMPLE.initialCash + NetPnl(ended.trades) + ended.fundingTotal + 4.7
  {
    hide Close, NetPnl, Add, ExampleHalf;
    ExampleHalfBooks();
    ExampleAddedBooks();
    var b2 := Add(EXAMPLE, ExampleHalf(), 75.0, 1.0);
    ExampleClose(b2, 96.0, 67.2);
    var b3 := Close(b2, 96.0, 1.0, 0.0, 0.5, CloseFill);
    assert b3.entryFeeNetted == 92.2 && b3.entryFee == 87.5 && b3.position == 4.0;
    ExampleClose(b3, 4.0, 0.0);
  }

  // ---------------------------------------------------------------- the run

  /** What the bar's gates and evaluators ask for; an add carries the quantity they sized. */
  datatype Order = NoOrder | EnterOrder(side: Side, fraction: real) | AddOrder(quantity: real)

  /** One bar: fill and mark prices, the funding accrual (0 when absent), the close fraction pending at the
      open, the order, the intrabar stop fill, and a resting take-profit fill with its fraction. */
  datatype Bar = Bar(fill: real, mark: real, accrual: real, closeFraction: real, order: Order,
                     stop: Option<real>, tier: Option<(real, real)>, makerFee: real) {
    predicate Valid(cfg: Config) {
      && fill > 0.0 && mark > 0.0 && closeFraction >= 0.0
      && (order.EnterOrder? ==> order.fraction > 0.0)
      && (order.AddOrder? ==> order.quantity > 0.0 && cfg.spec.None?)
      && (stop.Some? ==> stop.value > 0.0)
      && (tier.Some? ==> tier.value.0 > 0.0 && tier.value.1 > 0.0)
    }

    /** The bar never closes part of a position. */
    predicate Whole() {
      (closeFraction > 0.0 ==> closeFraction >= 1.0) && (tier.Some? ==> tier.value.0 >= 1.0)
    }
  }

  /** A close asked for with a fraction of the position; nothing when flat or when a lot-floored part is skipped. */
  function Closed(cfg: Config, b: Books, fraction: real, raw: real, slip: real, feeRate: real, kind: EventKind): Books
    requires cfg.Valid()
  {
    if fraction <= 0.0 || b.position == 0.0 || b.open.None? || b.open.value.entryPrice <= 0.0 then b
    else
      var q := CloseQuantity(cfg, b, fraction, raw);
      if q.None? then b else Close(b, q.value, raw, slip, feeRate, kind)
  }

  /** An order acts when its side of the book allows it: entries from flat with cash, adds on a position. */
  function Ordered(cfg: Config, b: Books, order: Order, raw: real): Books
    requires cfg.Valid() && raw > 0.0
  {
    if order.EnterOrder? && b.position == 0.0 && b.cash > 0.0 then
      var f := EntryFill(cfg, b.cash, order.side, raw, order.fraction);
      if f.None? then b else Enter(b, order.side, f.value)
    else if order.AddOrder? && b.position != 0.0 && b.open.Some? && Abs(b.position) + order.quantity != 0.0 then
      Add(cfg, b, order.quantity, raw)
    else b
  }

  function Marked(b: Books, mark: real): Books { b.(equityCurve := b.equityCurve + [Equity(b, mark)]) }

  /** What one bar does to the books: funding, the equity point, the pending close, the order, the stop, the resting
      take-profit. */
  function BarBooks(cfg: Config, b: Books, bar: Bar): Books
    requires cfg.Valid() && bar.Valid(cfg)
  {
    var marked := Marked(Accrue(b, bar.mark, bar.accrual), bar.mark);
    var closed := Closed(cfg, marked, bar.closeFraction, bar.fill, cfg.slippage, cfg.commission, CloseFill);
    var ordered := Ordered(cfg, closed, bar.order, bar.fill);
    var stopped :=
      if bar.stop.Some? then Closed(cfg, ordered, 1.0, bar.stop.value, cfg.slippage, cfg.commission, CloseFill)
      else ordered;
    if bar.tier.Some? then Closed(cfg, stopped, bar.tier.value.0, bar.tier.value.1, 0.0, bar.makerFee, CloseFill)
    else stopped
  }

  predicate AllValid(cfg: Config, bars: seq<Bar>) { forall bar | bar in bars :: bar.Valid(cfg) }

  function BarsBooks(cfg: Config, bars: seq<Bar>): Books
    requires cfg.Valid() && AllValid(cfg, bars)
  {
    if bars == [] then StartBooks(cfg)
    else BarBooks(cfg, BarsBooks(cfg, bars[..|bars| - 1]), bars[|bars| - 1])
  }

  /** The books of a whole run: every bar, then the synthetic close at the last close price, whose cash replaces the
      last equity point. */
  function RunBooks(cfg: Config, bars: seq<Bar>, lastClose: real): Books
    requires cfg.Valid() && AllValid(cfg, bars)
  {
    var b := Closed(cfg, BarsBooks(cfg, bars), 1.0, lastClose, cfg.slippage, cfg.commission, TerminalClose);
    if b.equityCurve == [] then b else b.(equityCurve := b.equityCurve[|b.equityCurve| - 1 := b.cash])
  }

  /** What a step leaves alone: the equity curve; whole positions, unless it closes in part; and it adds nothing,
      unless it is an add. */
  ghost predicate StepKeeps(b: Books, c: Books, whole: bool, adds: bool) {
    && c.equityCurve == b.equityCurve
    && (whole && Timely(b.events) && !Reduced(b.events) ==> Timely(c.events) && !Reduced(c.events))
    && (!adds ==> (LongAdded(c.events) <==> LongAdded(b.events)) && LongAddValue(c.events) == LongAddValue(b.events))
  }

  lemma AccrueStep(cfg: Config, b: Books, mark: real, accrual: real)
    requires cfg.Valid()
    ensures StepKeeps(b, Accrue(b, mark, accrual), true, false)
  {
    hide Timely, Reduced, LongAdded, LongAddValue, LongAdds;
    var c := Accrue(b, mark, accrual);
    if c != b {
      LogSnoc(cfg, b.events, c.events[|b.events|]);
    }
  }

  lemma MarkIsSound(cfg: Config, b: Books, curve: seq<real>)
    requires Sound(cfg, b)
    ensures Sound(cfg, b.(equityCurve := curve))
  {
    hide TotalsOf, Continuous, NetPnl, WholeLots, Snapped, Residues, Timely, Reduced, LongAdded, EndsInDust, MarginMode;
    var a :| ValidState(cfg, b, a);
    assert ValidState(cfg, b.(equityCurve := curve), a);
  }

  /** A requested close keeps the books sound; a full one ends flat and whole. */
  lemma ClosedStep(cfg: Config, b: Books, fraction: real, raw: real, slip: real, feeRate: real, kind: EventKind)
    requires cfg.Valid() && Sound(cfg, b) && raw > 0.0 && 0.0 <= slip < 1.0 && (kind == CloseFill || kind == TerminalClose)
    ensures var c := Closed(cfg, b, fraction, raw, slip, feeRate, kind);
            && Sound(cfg, c)
            && StepKeeps(b, c, fraction <= 0.0 || fraction >= 1.0, false)
            && (fraction >= 1.0 ==> c.position == 0.0)
    ensures b.position != 0.0 && fraction >= 1.0 ==> CloseQuantity(cfg, b, fraction, raw).Some?
    ensures b.position != 0.0 ==> b.open.Some? && b.open.value.entryPrice > 0.0
  {
    var a :| ValidState(cfg, b, a);
    ConfigIsValid(cfg, b, a);
    hide Inv, LogBook, CloseQuantity, Close, Timely, Reduced, LongAdded, LongAddValue, LongAdds;
    if b.position != 0.0 && fraction > 0.0 {
      CloseQuantityFacts(cfg, b, a, fraction, raw);
      var q := CloseQuantity(cfg, b, fraction, raw);
      if q.Some? {
        CloseIsSound(cfg, b, a, q.value, raw, slip, feeRate, kind);
        CloseEvent(cfg, b, a, q.value, raw, slip, feeRate, kind);
        var c := Close(b, q.value, raw, slip, feeRate, kind);
        LogSnoc(cfg, b.events, c.events[|b.events|]);
        SameCurve(b, q.value, raw, slip, feeRate, kind);
      }
    }
  }

  lemma SameCurve(b: Books, quantity: real, raw: real, slip: real, feeRate: real, kind: EventKind)
    requires b.open.Some? && b.open.value.entryPrice > 0.0
    ensures Close(b, quantity, raw, slip, feeRate, kind).equityCurve == b.equityCurve
  {
  }

  lemma OrderedStep(cfg: Config, b: Books, order: Order, raw: real)
    requires cfg.Valid() && Sound(cfg, b) && raw > 0.0
    requires order.EnterOrder? ==> order.fraction > 0.0
    requires order.AddOrder? ==> order.quantity > 0.0 && cfg.spec.None?
    ensures var c := Ordered(cfg, b, order, raw);
            Sound(cfg, c) && StepKeeps(b, c, true, order.AddOrder?)
  {
    hide Sound, EntryFill, Timely, Reduced, LongAdded, LongAddValue, LongAdds, Enter, Add;
    var c := Ordered(cfg, b, order, raw);
    if c != b {
      if order.EnterOrder? {
        var f := EntryFill(cfg, b.cash, order.side, raw, order.fraction).value;
        EnterIsSound(cfg, b, order.side, raw, order.fraction);
        EnterEvent(b, order.side, f);
      } else {
        AddIsSound(cfg, b, order.quantity, raw);
        AddEvent(cfg, b, order.quantity, raw);
      }
      LogSnoc(cfg, b.events, c.events[|b.events|]);
    }
  }

  lemma EnterEvent(b: Books, side: Side, f: Fill)
    ensures var c := Enter(b, side, f);
            && c.equityCurve == b.equityCurve && |c.events| == |b.events| + 1
            && c.events == b.events + [c.events[|b.events|]] && c.events[|b.events|].kind == OpenFill
  {
  }

  lemma AddEvent(cfg: Config, b: Books, quantity: real, raw: real)
    requires b.open.Some? && Abs(b.position) + quantity != 0.0
    ensures var c := Add(cfg, b, quantity, raw);
            && c.equityCurve == b.equityCurve && |c.events| == |b.events| + 1
            && c.events == b.events + [c.events[|b.events|]] && c.events[|b.events|].kind == AddFill
  {
  }

  /** A bar keeps the books sound and appends its equity point. A bar that closes nothing in part keeps whole
      positions whole, and only an add order adds. */
  lemma BarKeeps(cfg: Config, b: Books, bar: Bar)
    requires cfg.Valid() && Sound(cfg, b) && bar.Valid(cfg)
    ensures var c := BarBooks(cfg, b, bar);
            && Sound(cfg, c)
            && c.equityCurve == b.equityCurve + [Equity(Accrue(b, bar.mark, bar.accrual), bar.mark)]
            && (bar.Whole() && Timely(b.events) && !Reduced(b.events) ==> Timely(c.events) && !Reduced(c.events))
            && (!bar.order.AddOrder? ==> (LongAdded(c.events) <==> LongAdded(b.events)))
  {
    hide Sound, Accrue, Equity, Closed, Ordered, Timely, Reduced, LongAdded, LongAddValue, CloseQuantity;
    AccrueIsSound(cfg, b, bar.mark, bar.accrual);
    AccrueStep(cfg, b, bar.mark, bar.accrual);
    var accrued := Accrue(b, bar.mark, bar.accrual);
    MarkIsSound(cfg, accrued, accrued.equityCurve + [Equity(accrued, bar.mark)]);
    var marked := Marked(accrued, bar.mark);
    ClosedStep(cfg, marked, bar.closeFraction, bar.fill, cfg.slippage, cfg.commission, CloseFill);
    var closed := Closed(cfg, marked, bar.closeFraction, bar.fill, cfg.slippage, cfg.commission, CloseFill);
    OrderedStep(cfg, closed, bar.order, bar.fill);
    var ordered := Ordered(cfg, closed, bar.order, bar.fill);
    if bar.stop.Some? {
      ClosedStep(cfg, ordered, 1.0, bar.stop.value, cfg.slippage, cfg.commission, CloseFill);
    }
    var stopped :=
      if bar.stop.Some? then Closed(cfg, ordered, 1.0, bar.stop.value, cfg.slippage, cfg.commission, CloseFill)
      else ordered;
    if bar.tier.Some? {
      ClosedStep(cfg, stopped, bar.tier.value.0, bar.tier.value.1, 0.0, bar.makerFee, CloseFill);
    }
  }

  predicate AllWhole(bars: seq<Bar>) { forall bar | bar in bars :: bar.Whole() }

  predicate NoAdds(bars: seq<Bar>) { forall bar | bar in bars :: !bar.order.AddOrder? }

  lemma {:induction false} BarsKeep(cfg: Config, bars: seq<Bar>)
    requires cfg.Valid() && AllValid(cfg, bars)
    ensures var b := BarsBooks(cfg, bars);
            && Sound(cfg, b) && |b.equityCurve| == |bars|
            && (AllWhole(bars) ==> Timely(b.events) && !Reduced(b.events))
            && (NoAdds(bars) ==> !LongAdded(b.events))
  {
    hide Sound, BarBooks, Equity, Accrue;
    if bars == [] {
      StartIsSound(cfg);
    } else {
      var front, bar := bars[..|bars| - 1], bars[|bars| - 1];
      assert bar in bars;
      BarsKeep(cfg, front);
      BarKeeps(cfg, BarsBooks(cfg, front), bar);
    }
  }

  /** Every run ends flat. Its final cash is initial cash, net trade results and funding, less the entry fees no trade
      took over, what dust snaps dropped and what margin mode paid for adds to longs. When the log is timely, final cash
      is right to the cent exactly when margin mode added to no long; and the log is timely when no bar closes in part,
      and for lots larger than the dust limit. */
  lemma RunCash(cfg: Config, bars: seq<Bar>, lastClose: real)
    requires cfg.Valid() && AllValid(cfg, bars) && lastClose > 0.0
    ensures var b := RunBooks(cfg, bars, lastClose);
            var t := TotalsOf(b.events);
            var due := cfg.initialCash + NetPnl(b.trades) + b.fundingTotal;
            && Sound(cfg, b) && b.position == 0.0
            && |b.equityCurve| == |bars| && (bars != [] ==> b.equityCurve[|bars| - 1] == b.cash)
            && b.cash == due - (t.entryFees - t.feesAllocated) - Snapped(cfg, b.events) - LongAdds(cfg, b.events)
            && (Timely(b.events) ==> b.cash == due - LongAdds(cfg, b.events))
            && (Timely(b.events) ==> (b.cash == due <==> !(MarginMode(cfg) && LongAdded(b.events))))
            && (AllWhole(bars) || (cfg.spec.Some? && cfg.spec.value.lot > DUST) ==> Timely(b.events))
            && (NoAdds(bars) ==> !LongAdded(b.events))
  {
    hide Sound, Equity, Accrue, Closed, BarsBooks, Timely, Reduced, LongAdded, LongAdds, CloseQuantity, TotalsOf, Snapped,
         NetPnl;
    BarsKeep(cfg, bars);
    var b := BarsBooks(cfg, bars);
    ClosedStep(cfg, b, 1.0, lastClose, cfg.slippage, cfg.commission, TerminalClose);
    var c := Closed(cfg, b, 1.0, lastClose, cfg.slippage, cfg.commission, TerminalClose);
    if bars != [] {
      MarkIsSound(cfg, c, c.equityCurve[|c.equityCurve| - 1 := c.cash]);
    }
    var r := RunBooks(cfg, bars, lastClose);
    if cfg.spec.Some? && cfg.spec.value.lot > DUST {
      LotsAreTimely(cfg, r);
    }
    FlatCash(cfg, r);
  }

  lemma LotsAreTimely(cfg: Config, b: Books)
    requires Sound(cfg, b) && cfg.spec.Some? && cfg.spec.value.lot > DUST
    ensures Timely(b.events)
  {
  }

  // ---------------------------------------------------------------- a run whose final cash is wrong

  function EntryBar(price: real): Bar { Bar(price, price, 0.0, 0.0, EnterOrder(Long, 1.0), None, None, 0.0) }

  function AddBar(price: real, quantity: real): Bar { Bar(price, price, 0.0, 0.0, AddOrder(quantity), None, None, 0.0) }

  /** A margin-mode entry on the first bar opens a long. */
  lemma EntryBarOpens(cfg: Config, price: real)
    requires cfg.Valid() && MarginMode(cfg) && cfg.initialCash > 0.0 && price > 0.0
    ensures var b := BarBooks(cfg, StartBooks(cfg), EntryBar(price));
            b.position > 0.0 && LongAddValue(b.events) == 0.0
  {
    hide EntryFill, Equity;
    var marked := Marked(StartBooks(cfg), price);
    assert BarBooks(cfg, StartBooks(cfg), EntryBar(price)) == Ordered(cfg, marked, EnterOrder(Long, 1.0), price);
    MarginFill(cfg, price);
    EntryFillFacts(cfg, cfg.initialCash, Long, price, 1.0);
    EnterEvent(marked, Long, EntryFill(cfg, cfg.initialCash, Long, price, 1.0).value);
  }

  lemma MarginFill(cfg: Config, price: real)
    requires cfg.Valid() && MarginMode(cfg) && price > 0.0
    ensures EntryFill(cfg, cfg.initialCash, Long, price, 1.0).Some?
  {
  }

  lemma AddBarAdds(cfg: Config, b: Books, price: real, quantity: real)
    requires cfg.Valid() && Sound(cfg, b) && cfg.spec.None? && b.position > 0.0 && price > 0.0 && quantity > 0.0
    ensures LongAddValue(BarBooks(cfg, b, AddBar(price, quantity)).events)
         == LongAddValue(b.events) + quantity * FillPrice(Long, true, price, cfg.slippage)
  {
    AddIsSound(cfg, b, quantity, price);
    hide Sound, Equity, FillPrice, BlendedPrice, FeeOn, LongAddValue, Locked, EndsInDust, Snapped, Timely;
    var marked := Marked(b, price);
    var c := Add(cfg, marked, quantity, price);
    assert BarBooks(cfg, b, AddBar(price, quantity)) == c;
    LogSnoc(cfg, b.events, c.events[|b.events|]);
  }

  /** Every margin-mode configuration has a run whose final cash is wrong: enter a long, add to it, hold to the end.
      The final cash is short by all that the add cost. */
  lemma LongAddRun(cfg: Config, price: real, quantity: real, lastClose: real)
    requires cfg.Valid() && MarginMode(cfg) && cfg.initialCash > 0.0
    requires price > 0.0 && quantity > 0.0 && lastClose > 0.0
    ensures var bars := [EntryBar(price), AddBar(price, quantity)];
            && AllValid(cfg, bars)
            && var b := RunBooks(cfg, bars, lastClose);
            var cost := quantity * FillPrice(Long, true, price, cfg.slippage);
            cost > 0.0 && b.cash == cfg.initialCash + NetPnl(b.trades) + b.fundingTotal - cost
  {
    hide Sound, BarBooks, Closed, LongAddValue, LongAdded, Timely, NetPnl, FillPrice, TotalsOf, Snapped, Equity,
         CloseQuantity;
    var entry, add := EntryBar(price), AddBar(price, quantity);
    var bars := [entry, add];
    FillPricePositive(Long, true, price, cfg.slippage);
    Positive(quantity, FillPrice(Long, true, price, cfg.slippage));
    assert bars[..1] == [entry] && [entry][..0] == [];
    StartIsSound(cfg);
    BarKeeps(cfg, StartBooks(cfg), entry);
    var entered := BarBooks(cfg, StartBooks(cfg), entry);
    EntryBarOpens(cfg, price);
    BarKeeps(cfg, entered, add);
    AddBarAdds(cfg, entered, price, quantity);
    var b := BarBooks(cfg, entered, add);
    TwoBars(cfg, entry, add);
    ClosedStep(cfg, b, 1.0, lastClose, cfg.slippage, cfg.commission, TerminalClose);
    RunCash(cfg, bars, lastClose);
  }

  lemma TwoBars(cfg: Config, first: Bar, second: Bar)
    requires cfg.Valid() && first.Valid(cfg) && second.Valid(cfg)
    ensures AllValid(cfg, [first, second])
    ensures BarsBooks(cfg, [first, second]) == BarBooks(cfg, BarBooks(cfg, StartBooks(cfg), first), second)
  {
    hide BarBooks;
    assert [first, second][..1] == [first] && [first][..0] == [];
    assert BarsBooks(cfg, [first]) == BarBooks(cfg, BarsBooks(cfg, []), first);
  }

  /** The simulator as an object: each method books one step of the bar loop on its books. */
  class Engine {
    const cfg: Config
    var books: Books

    ghost predicate Valid()
      reads this
    {
      cfg.Valid() && Sound(cfg, books)
    }

    constructor (cfg: Config)
      requires cfg.Valid()
      ensures this.cfg == cfg && Valid() && books == StartBooks(cfg)
    {
      this.cfg, books := cfg, StartBooks(cfg);
      new;
      StartIsSound(cfg);
    }

    method AccrueFunding(mark: real, accrual: real)
      requires Valid()
      modifies this
      ensures Valid() && books == Accrue(old(books), mark, accrual)
    {
      hide Sound;
      AccrueIsSound(cfg, books, mark, accrual);
      if books.position != 0.0 && accrual != 0.0 {
        var paid := FundingPaid(books.position, mark, accrual);
        var e := LedgerEvent(FundingAccrual, SideOf(books.position), Abs(books.position), mark, 0.0, 0.0, 0.0, paid,
                             books.position, books.position, books.cash, books.cash + paid, books.avgCost);
        books := books.(cash := books.cash + paid);
        books := books.(fundingTotal := books.fundingTotal + paid);
        books := books.(events := books.events + [e]);
        assert books == Accrue(old(books), mark, accrual);
      }
    }

    method MarkEquity(mark: real)
      requires Valid()
      modifies this
      ensures Valid() && books == Marked(old(books), mark)
    {
      hide Sound;
      var equity := Equity(books, mark);
      MarkIsSound(cfg, books, books.equityCurve + [equity]);
      books := books.(equityCurve := books.equityCurve + [equity]);
    }

    method OpenPosition(side: Side, raw: real, fraction: real)
      requires Valid() && books.position == 0.0 && books.cash > 0.0 && raw > 0.0 && fraction > 0.0
      requires cfg.Valid()
      modifies this
      ensures Valid() && books == Ordered(cfg, old(books), EnterOrder(side, fraction), raw)
    {
      hide Sound, EntryFill;
      var fill := EntryFill(cfg, books.cash, side, raw, fraction);
      if fill.Some? {
        var f := fill.value;
        EnterIsSound(cfg, books, side, raw, fraction);
        var cashBefore, qtyBefore, avgBefore := books.cash, books.position, books.avgCost;
        books := books.(cash := f.cashAfter, position := if side == Long then f.shares else -f.shares);
        if f.locked > 0.0 {
          books := books.(marginLocked := f.locked, notional := f.value);
        }
        books := books.(open := Some(OpenTrade(side, f.price, f.shares)));
        books := books.(avgCost := f.price, initialQuantity := f.shares);
        books := books.(entryFee := f.fee, entryFeeNetted := 0.0);
        books := books.(events := books.events + [LedgerEvent(OpenFill, side, f.shares, f.price, f.fee, 0.0, 0.0, 0.0,
                                                              qtyBefore, books.position, cashBefore, books.cash,
                                                              avgBefore)]);
        books := books.(adds := 0, riskAnchor := 0.0);
      }
    }

    method ScaleIn(quantity: real, raw: real)
      requires Valid() && cfg.Valid()
      requires books.position != 0.0 && quantity > 0.0 && raw > 0.0 && cfg.spec.None?
      modifies this
      ensures Valid() && old(books.open).Some? && books == Add(cfg, old(books), quantity, raw)
    {
      hide Sound, FillPrice, FillValue, FeeOn, BlendedPrice;
      AddIsSound(cfg, books, quantity, raw);
      var side := SideOf(books.position);
      var price := FillPrice(side, true, raw, cfg.slippage);
      var value := FillValue(quantity, price);
      var fee := FeeOn(value, cfg.commission);
      var cashBefore, qtyBefore, avgBefore := books.cash, books.position, books.avgCost;
      if side == Long {
        books := books.(cash := books.cash - (value + fee), position := books.position + quantity);
      } else {
        books := books.(cash := books.cash + (value - fee), position := books.position - quantity);
      }
      if books.riskAnchor <= 0.0 {
        books := books.(riskAnchor := books.avgCost);
      }
      var oldQty := Abs(qtyBefore);
      books := books.(avgCost := BlendedPrice(oldQty, books.avgCost, quantity, value));
      books := books.(initialQuantity := books.initialQuantity + quantity, adds := books.adds + 1);
      books := books.(open := Some(OpenTrade(side, books.avgCost, books.open.value.shares + quantity)));
      books := books.(entryFee := books.entryFee + fee);
      books := books.(events := books.events + [LedgerEvent(AddFill, side, quantity, price, fee, 0.0, 0.0, 0.0,
                                                            qtyBefore, books.position, cashBefore, books.cash, avgBefore)]);
    }

    /** One close; a lot-floored partial close may be skipped. */
    method BookClose(fraction: real, raw: real, slip: real, feeRate: real, kind: EventKind) returns (booked: bool)
      requires Valid() && books.position != 0.0 && fraction > 0.0 && raw > 0.0 && 0.0 <= slip < 1.0
      requires cfg.Valid() && (kind == CloseFill || kind == TerminalClose)
      modifies this
      ensures Valid() && books == Closed(cfg, old(books), fraction, raw, slip, feeRate, kind)
      ensures booked == CloseQuantity(cfg, old(books), fraction, raw).Some?
      ensures fraction >= 1.0 ==> booked && books.position == 0.0
    {
      hide Sound, CloseQuantity, CloseCash, LockedAfter, NotionalAfter, GrossPnl, FillPrice, ExitFee, EntryFeeShare,
           StepKeeps;
      ClosedStep(cfg, books, fraction, raw, slip, feeRate, kind);
      var quantity := CloseQuantity(cfg, books, fraction, raw);
      if quantity.None? {
        return false;
      }
      var q := quantity.value;
      var cashBefore, qtyBefore, avgBefore := books.cash, books.position, books.avgCost;
      var side := SideOf(books.position);
      var price := FillPrice(side, false, raw, slip);
      var fee := ExitFee(q, price, feeRate);
      var lockedAfter, notionalAfter := LockedAfter(books, q), NotionalAfter(books, q);
      var left := if side == Long then books.position - q else books.position + q;
      var open := books.open.value;
      var gross := GrossPnl(open.side, q, open.entryPrice, price);
      var share := EntryFeeShare(books, q, Abs(left) <= DUST);
      books := books.(cash := CloseCash(books, q, price, fee), position := left);
      books := books.(entryFeeNetted := books.entryFeeNetted + share);
      books := books.(trades := books.trades + [Trade(open.side, open.entryPrice, price, q, share, fee, gross - (share + fee))]);
      if Abs(books.position) <= DUST {
        books := books.(position := 0.0, avgCost := 0.0, initialQuantity := 0.0);
        books := books.(marginLocked := 0.0, notional := 0.0, adds := 0, riskAnchor := 0.0, open := None);
      } else {
        books := books.(marginLocked := lockedAfter, notional := notionalAfter);
        books := books.(open := Some(open.(shares := open.shares - q)));
      }
      books := books.(events := books.events + [LedgerEvent(kind, side, q, price, fee, gross, share, 0.0,
                                                            qtyBefore, books.position, cashBefore, books.cash, avgBefore)]);
      booked := true;
    }

    /** One bar of the open/close path, in the loop's order. */
    method Step(bar: Bar)
      requires Valid() && cfg.Valid() && bar.Valid(cfg)
      modifies this
      ensures Valid() && books == BarBooks(cfg, old(books), bar)
      ensures books.equityCurve
              == old(books.equityCurve) + [Equity(Accrue(old(books), bar.mark, bar.accrual), bar.mark)]
    {
      hide Sound, Close, CloseQuantity, Enter, EntryFill, Add, Equity, Accrue, StepKeeps;
      BarKeeps(cfg, books, bar);
      AccrueFunding(bar.mark, bar.accrual);
      MarkEquity(bar.mark);
      if bar.closeFraction > 0.0 && books.position != 0.0 {
        var booked := BookClose(bar.closeFraction, bar.fill, cfg.slippage, cfg.commission, CloseFill);
      }
      if bar.order.EnterOrder? && books.position == 0.0 && books.cash > 0.0 {
        OpenPosition(bar.order.side, bar.fill, bar.order.fraction);
      } else if bar.order.AddOrder? && books.position != 0.0 {
        ScaleIn(bar.order.quantity, bar.fill);
      }
      if bar.stop.Some? && books.position != 0.0 {
        var booked := BookClose(1.0, bar.stop.value, cfg.slippage, cfg.commission, CloseFill);
      }
      if bar.tier.Some? && books.position != 0.0 {
        var booked := BookClose(bar.tier.value.0, bar.tier.value.1, 0.0, bar.makerFee, CloseFill);
      }
    }

    /** The whole run. */
    method Run(bars: seq<Bar>, lastClose: real)
      requires Valid() && cfg.Valid() && books == StartBooks(cfg)
      requires lastClose > 0.0 && AllValid(cfg, bars)
      modifies this
      ensures Valid() && books == RunBooks(cfg, bars, lastClose) && books.position == 0.0
      ensures |books.equityCurve| == |bars| && (bars != [] ==> books.equityCurve[|bars| - 1] == books.cash)
      // initial cash, net trade results and funding make up the final cash, to the cent, less the adds to longs that
      // margin mode paid for
      ensures Timely(books.events) ==>
                books.cash == cfg.initialCash + NetPnl(books.trades) + books.fundingTotal - LongAdds(cfg, books.events)
      ensures Timely(books.events) ==>
                (books.cash == cfg.initialCash + NetPnl(books.trades) + books.fundingTotal
                 <==> !(MarginMode(cfg) && LongAdded(books.events)))
      ensures AllWhole(bars) || (cfg.spec.Some? && cfg.spec.value.lot > DUST) ==> Timely(books.events)
      ensures NoAdds(bars) ==> !LongAdded(books.events)
    {
      hide Sound, Equity, Accrue, BarBooks, Timely, Reduced, LongAdded, CloseQuantity, LongAdds, AllWhole, NoAdds;
      for i := 0 to |bars|
        invariant Valid() && |books.equityCurve| == i && books == BarsBooks(cfg, bars[..i])
      {
        assert bars[i] in bars;
        assert bars[..i + 1][..i] == bars[..i];
        Step(bars[i]);
      }
      assert bars[..|bars|] == bars;
      RunCash(cfg, bars, lastClose);
      if books.position != 0.0 {
        var booked := BookClose(1.0, lastClose, cfg.slippage, cfg.commission, TerminalClose);
      }
      if |books.equityCurve| > 0 {
        books := books.(equityCurve := books.equityCurve[|books.equityCurve| - 1 := books.cash]);
      }
    }
  }
}
