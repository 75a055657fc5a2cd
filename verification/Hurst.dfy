/**
  The Hurst gate: a hysteresis on a stream of readings, its stateless meaning, and a bound on how often it flips.
 */
module Hurst {
  import opened Common

  datatype Mode = Gate | Size

  datatype Config = Config(
    enabled: bool,
    mode: Mode,
    failClosed: bool,
    min: Option<real>,
    max: Option<real>,
    disarmMin: Option<real>,
    disarmMax: Option<real>,
    sizeFloor: Option<real>)

  datatype State = Unknown | Armed | Disarmed

  const SIZE_SPAN := 0.15
  const DEFAULT_SIZE_FLOOR := 0.25

  predicate InUnit(x: Option<real>) { x.Some? ==> 0.0 < x.value < 1.0 }

  /** The configurations validation accepts. */
  predicate Accepts(cfg: Config) {
    && InUnit(cfg.min) && InUnit(cfg.max) && InUnit(cfg.disarmMin) && InUnit(cfg.disarmMax)
    && (cfg.sizeFloor.Some? ==> cfg.mode == Size && 0.0 < cfg.sizeFloor.value <= 1.0)
    && if cfg.mode == Size then cfg.min.None? && cfg.max.None? && cfg.disarmMin.None? && cfg.disarmMax.None?
       else
         && (cfg.disarmMin.Some? ==> cfg.min.Some? && cfg.disarmMin.value <= cfg.min.value)
         && (cfg.disarmMax.Some? ==> cfg.max.Some? && cfg.disarmMax.value >= cfg.max.value)
         && (cfg.min.Some? || cfg.max.Some?)
         && (cfg.min.Some? && cfg.max.Some? ==> cfg.min.value < cfg.max.value)
  }

  predicate InArmBand(cfg: Config, h: real) {
    (cfg.min.Some? ==> h >= cfg.min.value) && (cfg.max.Some? ==> h <= cfg.max.value)
  }

  predicate CrossedDisarm(cfg: Config, h: real) {
    var lo := if cfg.disarmMin.Some? then cfg.disarmMin else cfg.min;
    var hi := if cfg.disarmMax.Some? then cfg.disarmMax else cfg.max;
    (lo.Some? && h < lo.value) || (hi.Some? && h > hi.value)
  }

  // ---------------------------------------------------------------- the stateless meaning

  predicate Decisive(cfg: Config, h: real) { InArmBand(cfg, h) || CrossedDisarm(cfg, h) }

  function LastDecisive(cfg: Config, readings: seq<real>): Option<real> {
    if readings == [] then None
    else
      var h := readings[|readings| - 1];
      if Decisive(cfg, h) then Some(h) else LastDecisive(cfg, readings[..|readings| - 1])
  }

  /** Armed exactly when the last decisive reading was in the arm band. */
  function StateOf(cfg: Config, readings: seq<real>): State {
    if readings == [] then Unknown
    else
      var last := LastDecisive(cfg, readings);
      if last.Some? && InArmBand(cfg, last.value) then Armed else Disarmed
  }

  function Advanced(cfg: Config, state: State, h: real): State {
    match state
    case Armed => if CrossedDisarm(cfg, h) then Disarmed else Armed
    case Disarmed => if InArmBand(cfg, h) then Armed else Disarmed
    case Unknown => if InArmBand(cfg, h) then Armed else Disarmed
  }

  /** An accepted band never contains a reading past its own disarm bounds. */
  lemma BandIsSafe(cfg: Config, h: real)
    requires Accepts(cfg)
    ensures !(InArmBand(cfg, h) && CrossedDisarm(cfg, h))
  {
  }

  /** Stepping the remembered state computes the stateless meaning of the whole history. */
  lemma AdvanceIsStateless(cfg: Config, readings: seq<real>, h: real)
    requires Accepts(cfg)
    ensures Advanced(cfg, StateOf(cfg, readings), h) == StateOf(cfg, readings + [h])
  {
    assert (readings + [h])[..|readings|] == readings;
    BandIsSafe(cfg, h);
    if readings == [] {
      assert LastDecisive(cfg, readings) == None;
    }
  }

  // ---------------------------------------------------------------- flapping

  /** The smaller of the configured distances between an arm bound and its disarm bound. */
  function Gap(cfg: Config): real {
    var low := if cfg.min.Some? && cfg.disarmMin.Some? then cfg.min.value - cfg.disarmMin.value else 0.0;
    var high := if cfg.max.Some? && cfg.disarmMax.Some? then cfg.disarmMax.value - cfg.max.value else 0.0;
    if cfg.min.None? then high else if cfg.max.None? then low else Min(low, high)
  }

  function Variation(readings: seq<real>): real {
    if |readings| <= 1 then 0.0
    else Variation(readings[..|readings| - 1]) + Abs(readings[|readings| - 1] - readings[|readings| - 2])
  }

  /** Changes between armed and disarmed; the first reading's state is not a change. */
  function Flips(cfg: Config, readings: seq<real>): nat {
    if |readings| <= 1 then 0
    else
      var front := readings[..|readings| - 1];
      Flips(cfg, front) + if StateOf(cfg, readings) != StateOf(cfg, front) then 1 else 0
  }

  /** The reading at the last flip. */
  function LastFlip(cfg: Config, readings: seq<real>): real
    requires Flips(cfg, readings) > 0
  {
    var front := readings[..|readings| - 1];
    if StateOf(cfg, readings) != StateOf(cfg, front) then readings[|readings| - 1] else LastFlip(cfg, front)
  }

  /** Readings that arm and readings that disarm lie at least the gap apart. */
  lemma ReadingsSeparated(cfg: Config, a: real, c: real)
    requires Accepts(cfg) && cfg.mode == Gate && InArmBand(cfg, a) && CrossedDisarm(cfg, c)
    ensures Abs(a - c) >= Gap(cfg) >= 0.0
  {
  }

  function Cost(n: int, gap: real): real { n as real * gap }

  lemma CostFacts(n: int, gap: real)
    ensures Cost(0, gap) == 0.0 && Cost(-1, gap) == -gap
    ensures Cost(n + 1, gap) == Cost(n, gap) + gap
  {
  }

  lemma DifferentStates(cfg: Config, xs: seq<real>, ys: seq<real>)
    requires xs != [] && ys != [] && StateOf(cfg, xs) != StateOf(cfg, ys)
    ensures StateOf(cfg, xs).Armed? != StateOf(cfg, ys).Armed?
  {
  }

  /** A flip into a state happens at a reading that decides that state. */
  lemma FlipDecides(cfg: Config, readings: seq<real>)
    requires Accepts(cfg) && |readings| > 1
    requires StateOf(cfg, readings) != StateOf(cfg, readings[..|readings| - 1])
    ensures var h := readings[|readings| - 1];
      if StateOf(cfg, readings).Armed? then InArmBand(cfg, h) else CrossedDisarm(cfg, h)
  {
  }

  /** After its first flip the gate needs the readings to travel the whole gap for each further flip. */
  lemma {:induction false} FlipsCost(cfg: Config, readings: seq<real>)
    requires Accepts(cfg) && cfg.mode == Gate
    ensures Flips(cfg, readings) > 0 ==>
      && var h := LastFlip(cfg, readings);
      && (if StateOf(cfg, readings).Armed? then InArmBand(cfg, h) else CrossedDisarm(cfg, h))
      && Cost(Flips(cfg, readings) - 1, Gap(cfg)) + Abs(readings[|readings| - 1] - h) <= Variation(readings)
  {
    hide Accepts, InArmBand, CrossedDisarm, Gap, StateOf, Cost;
    if |readings| > 1 {
      var front := readings[..|readings| - 1];
      var h := readings[|readings| - 1];
      FlipsCost(cfg, front);
      VariationNonNegative(readings);
      if StateOf(cfg, readings) != StateOf(cfg, front) {
        FlipDecides(cfg, readings);
        if Flips(cfg, front) > 0 {
          var last := LastFlip(cfg, front);
          DifferentStates(cfg, readings, front);
          if StateOf(cfg, readings).Armed? {
            ReadingsSeparated(cfg, h, last);
          } else {
            ReadingsSeparated(cfg, last, h);
          }
        }
        CostFacts(Flips(cfg, front) - 1, Gap(cfg));
      }
    }
  }

  lemma {:induction false} VariationNonNegative(readings: seq<real>)
    ensures Variation(readings) >= 0.0
  {
    if |readings| > 1 {
      VariationNonNegative(readings[..|readings| - 1]);
    }
  }

  /** The flips after the first, times the gap, never exceed the total variation of the readings. */
  ghost predicate FlapsWithinVariation(cfg: Config, readings: seq<real>) {
    Cost(Flips(cfg, readings) - 1, Gap(cfg)) <= Variation(readings)
  }

  lemma FlapBound(cfg: Config, readings: seq<real>)
    requires Accepts(cfg) && cfg.mode == Gate
    ensures FlapsWithinVariation(cfg, readings)
  {
    hide Accepts, InArmBand, CrossedDisarm, Gap, Cost;
    FlipsCost(cfg, readings);
    VariationNonNegative(readings);
    GapNonNegative(cfg);
    CostFacts(0, Gap(cfg));
  }

  lemma GapNonNegative(cfg: Config)
    requires Accepts(cfg) && cfg.mode == Gate
    ensures Gap(cfg) >= 0.0
  {
  }

  // ---------------------------------------------------------------- the gate

  /** The gate's state, with the finite readings it has seen. */
  class HurstGate {
    const cfg: Config
    const sizeFloor: real
    var state: State
    ghost var readings: seq<real>

    ghost predicate Valid()
      reads this
    {
      && Accepts(cfg) && 0.0 < sizeFloor <= 1.0
      && state == StateOf(cfg, readings)
    }

    constructor (cfg: Config)
      requires Accepts(cfg)
      ensures Valid() && this.cfg == cfg && readings == [] && state == Unknown
    {
      this.cfg := cfg;
      this.sizeFloor := if cfg.sizeFloor.Some? && 0.0 < cfg.sizeFloor.value <= 1.0 then cfg.sizeFloor.value
                        else DEFAULT_SIZE_FLOOR;
      this.state := Unknown;
      this.readings := [];
    }

    method Advance(h: Option<real>) returns (s: State)
      requires Valid()
      modifies this
      ensures Valid()
      ensures readings == if h.Some? then old(readings) + [h.value] else old(readings)
      ensures s == state == StateOf(cfg, readings)
    {
      if h.None? {
        return state;
      }
      AdvanceIsStateless(cfg, readings, h.value);
      if state == Armed {
        if CrossedDisarm(cfg, h.value) {
          state := Disarmed;
        }
      } else if state == Disarmed {
        if InArmBand(cfg, h.value) {
          state := Armed;
        }
      } else {
        state := if InArmBand(cfg, h.value) then Armed else Disarmed;
      }
      readings := readings + [h.value];
      s := state;
    }

    function SizeMultiplier(h: Option<real>): (m: real)
      requires 0.0 < sizeFloor <= 1.0
      ensures sizeFloor <= m <= 1.0
      ensures h.Some? && Abs(h.value - 0.5) >= SIZE_SPAN ==> m == 1.0
    {
      if h.None? then 1.0 else Min(1.0, Max(sizeFloor, Abs(h.value - 0.5) / SIZE_SPAN))
    }

    /** One entry decision: whether it is blocked, and the size multiplier. A gate blocks exactly when the last
        decisive reading did not arm it, or when it knows nothing, fails closed and the book is flat. */
    method Step(h: Option<real>, flat: bool) returns (blocked: bool, multiplier: real)
      requires Valid()
      modifies this
      ensures Valid()
      ensures readings == if cfg.enabled && h.Some? then old(readings) + [h.value] else old(readings)
      ensures !cfg.enabled ==> !blocked && multiplier == 1.0
      ensures cfg.enabled && cfg.mode == Gate ==>
        && multiplier == 1.0
        && (blocked <==> StateOf(cfg, readings) == Disarmed || (readings == [] && cfg.failClosed && flat))
      ensures cfg.enabled && cfg.mode == Size ==>
        && (blocked <==> h.None? && cfg.failClosed && flat)
        && multiplier == SizeMultiplier(h)
    {
      if !cfg.enabled {
        return false, 1.0;
      }
      var s := Advance(h);
      if cfg.mode == Size {
        if h.Some? {
          return false, SizeMultiplier(h);
        }
        return cfg.failClosed && flat, 1.0;
      }
      if state == Disarmed {
        return true, 1.0;
      }
      if state == Unknown && cfg.failClosed && flat {
        return true, 1.0;
      }
      return false, 1.0;
    }

    /** Feeding a whole stream: the gate ends in its stateless meaning, having flipped no more often than the
        readings travelled. */
    method Run(stream: seq<Option<real>>)
      requires Valid() && readings == []
      modifies this
      ensures Valid() && readings == Known(stream)
      ensures cfg.mode == Gate ==> FlapsWithinVariation(cfg, readings)
    {
      hide Accepts, StateOf, FlapsWithinVariation;
      for i := 0 to |stream|
        invariant Valid() && readings == Known(stream[..i])
      {
        assert stream[..i + 1][..i] == stream[..i];
        var s := Advance(stream[i]);
      }
      assert stream[..|stream|] == stream;
      if cfg.mode == Gate {
        FlapBound(cfg, readings);
      }
    }
  }

  /** The finite readings of a stream. */
  function Known(stream: seq<Option<real>>): seq<real> {
    if stream == [] then []
    else
      var h := stream[|stream| - 1];
      Known(stream[..|stream| - 1]) + if h.Some? then [h.value] else []
  }
}
