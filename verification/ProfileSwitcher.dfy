/**
  The two-profile switcher: its counters against a rule that only looks at the history of bars.
 */
module ProfileSwitcher {
  import opened Common

  /** A bar whose label names a profile, and whether the book was flat on it. */
  datatype Bar = Bar(profile: nat, flat: bool)

  /** The bars whose labels are mapped; the others are skipped. */
  function Mapped(profiles: map<nat, nat>, bars: seq<(nat, bool)>): seq<Bar> {
    if bars == [] then []
    else
      var (lbl, flat) := bars[|bars| - 1];
      Mapped(profiles, bars[..|bars| - 1]) + if lbl in profiles then [Bar(profiles[lbl], flat)] else []
  }

  // ---------------------------------------------------------------- the history rule

  /** How many of the last bars in a row name the same profile as the last one. */
  function TrailingRun(history: seq<Bar>): nat {
    if history == [] then 0
    else if |history| == 1 || history[|history| - 2].profile != history[|history| - 1].profile then 1
    else 1 + TrailingRun(history[..|history| - 1])
  }

  /** The last bar is flat and closes a run long enough to switch. */
  predicate Confirms(history: seq<Bar>, confirmBars: nat) {
    history != [] && history[|history| - 1].flat && TrailingRun(history) >= confirmBars
  }

  /** The active profile: the one named by the last confirming bar, or the initial one. */
  function ActiveAfter(history: seq<Bar>, confirmBars: nat, initial: nat): nat {
    if history == [] then initial
    else if Confirms(history, confirmBars) then history[|history| - 1].profile
    else ActiveAfter(history[..|history| - 1], confirmBars, initial)
  }

  /** How often the active profile changed. */
  function Switches(history: seq<Bar>, confirmBars: nat, initial: nat): nat {
    if history == [] then 0
    else
      var front := history[..|history| - 1];
      Switches(front, confirmBars, initial)
      + if ActiveAfter(history, confirmBars, initial) != ActiveAfter(front, confirmBars, initial) then 1 else 0
  }

  /** The counter's meaning: the trailing run, unless it names the active profile. */
  function Counted(history: seq<Bar>, confirmBars: nat, initial: nat): nat {
    if history == [] || history[|history| - 1].profile == ActiveAfter(history, confirmBars, initial) then 0
    else TrailingRun(history)
  }

  /** Every switch uses up its own run of confirming bars. */
  lemma {:induction false} SwitchesCost(history: seq<Bar>, confirmBars: nat, initial: nat)
    requires confirmBars >= 1
    ensures Switches(history, confirmBars, initial) * confirmBars + Counted(history, confirmBars, initial) <= |history|
  {
    if history != [] {
      var front := history[..|history| - 1];
      SwitchesCost(front, confirmBars, initial);
      var before := ActiveAfter(front, confirmBars, initial);
      var last := history[|history| - 1].profile;
      if before != last {
        assert TrailingRun(history) <= Counted(front, confirmBars, initial) + 1;
        if Confirms(history, confirmBars) {
          NextMultiple(Switches(front, confirmBars, initial), confirmBars);
        }
      }
    }
  }

  lemma NextMultiple(n: nat, k: nat)
    ensures (n + 1) * k == n * k + k
  {
  }

  // ---------------------------------------------------------------- the switcher

  class Switcher {
    const profiles: map<nat, nat>
    const confirmBars: nat
    const initial: nat
    var active: nat
    var pending: Option<nat>
    var seen: nat
    ghost var history: seq<Bar>

    /** The fields are functions of the mapped history. */
    ghost predicate Valid()
      reads this
    {
      && confirmBars >= 1
      && active == ActiveAfter(history, confirmBars, initial)
      && seen == Counted(history, confirmBars, initial)
      && pending == if seen == 0 then None else Some(history[|history| - 1].profile)
    }

    constructor (profiles: map<nat, nat>, confirmBars: nat, initial: nat)
      requires confirmBars >= 1
      ensures Valid() && history == [] && active == initial
      ensures this.profiles == profiles && this.confirmBars == confirmBars && this.initial == initial
    {
      this.profiles, this.confirmBars, this.initial := profiles, confirmBars, initial;
      this.active, this.pending, this.seen := initial, None, 0;
      this.history := [];
    }

    method Step(lbl: nat, flat: bool) returns (profile: nat)
      requires Valid()
      modifies this
      ensures Valid() && profile == active
      ensures history == if lbl in profiles then old(history) + [Bar(profiles[lbl], flat)] else old(history)
      ensures active != old(active) ==>
        lbl in profiles && flat && active == profiles[lbl] && TrailingRun(history) >= confirmBars
      ensures lbl in profiles && flat && TrailingRun(history) >= confirmBars ==> active == profiles[lbl]
    {
      if lbl !in profiles {
        return active;
      }
      var desired := profiles[lbl];
      ghost var front := history;
      history := history + [Bar(desired, flat)];
      assert history[..|history| - 1] == front;
      if desired == active {
        pending := None;
        seen := 0;
        return active;
      }
      if pending == Some(desired) {
        seen := seen + 1;
      } else {
        pending := Some(desired);
        seen := 1;
      }
      assert seen == TrailingRun(history);
      if flat && seen >= confirmBars {
        active := desired;
        pending := None;
        seen := 0;
      }
      return active;
    }

    /** A whole stream of bars: the active profile is the history rule's, and every switch used up its own run of
        confirming bars. */
    method Run(bars: seq<(nat, bool)>)
      requires Valid() && history == []
      modifies this
      ensures Valid() && history == Mapped(profiles, bars)
      ensures active == ActiveAfter(Mapped(profiles, bars), confirmBars, initial)
      ensures Switches(history, confirmBars, initial) * confirmBars <= |history| <= |bars|
    {
      hide ActiveAfter, Counted;
      for i := 0 to |bars|
        invariant Valid() && history == Mapped(profiles, bars[..i]) && |history| <= i
      {
        assert bars[..i + 1][..i] == bars[..i];
        var p := Step(bars[i].0, bars[i].1);
      }
      assert bars[..|bars|] == bars;
      SwitchesCost(history, confirmBars, initial);
    }
  }
}
