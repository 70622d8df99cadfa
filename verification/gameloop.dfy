/** The body of the ten-second tick in src/hooks/useGameLoop.js: passive
    income from the excavators, boosted by the generators. The interval
    itself is timing and is not modelled; the abyss-dust draw changes no
    state and is left out. */
module GameLoop {
  import opened Wrappers
  import opened State
  import opened Reducer

  /** The tick's gold gain, `None` when it is NaN: with excavators but no
      `generator` key, `undefined * 0.2` poisons the sum. A missing or
      non-positive excavator count gains nothing. */
  function TickGain(machines: map<string, int>): Option<int>
  {
    if "excavator" !in machines || machines["excavator"] <= 0 then Some(0)
    else if "generator" !in machines then None
    else
      var multiplier := 1.0 + (machines["generator"] as real) * 0.2;
      Some((((machines["excavator"] * 5) as real) * multiplier).Floor)
  }

  /** What one tick dispatches: ADD_GOLD with a positive gain, else nothing
      (NaN is not positive). */
  function Tick(s: GameState): (acts: seq<Action>)
    ensures acts != [] <==> TickGain(s.machines).Some? && TickGain(s.machines).value > 0
    ensures acts != [] ==> acts == [AddGold(TickGain(s.machines).value)]
  {
    match TickGain(s.machines)
    case Some(gain) => if gain > 0 then [AddGold(gain)] else []
    case None => []
  }

  /** With both machines present and excavators working, the gain is the
      whole number `excavator * (5 + generator)`: the product is never fractional. */
  lemma GainFormula(machines: map<string, int>)
    requires "excavator" in machines && "generator" in machines && machines["excavator"] > 0
    ensures TickGain(machines).Some?
    ensures TickGain(machines).value == machines["excavator"] * (5 + machines["generator"])
  {
    var e, g := machines["excavator"], machines["generator"];
    var x := ((e * 5) as real) * (1.0 + (g as real) * 0.2);
    assert TickGain(machines).value == x.Floor;
    ScaledIncome(e, g, x);
  }

  /** `(e * 5) * (1 + g * 0.2)` is exactly `e * (5 + g)`. */
  lemma ScaledIncome(e: int, g: int, x: real)
    requires x == ((e * 5) as real) * (1.0 + (g as real) * 0.2)
    ensures x.Floor == e * (5 + g)
  {
    var E, G := e as real, g as real;
    calc {
      x;
      ((e * 5) as real) * (1.0 + G * 0.2);
      (5.0 * E) * (1.0 + G * 0.2);
      { assert (5.0 * E) * (G * 0.2) == E * G; }
      5.0 * E + E * G;
      (e * (5 + g)) as real;
    }
  }

  /** For non-negative levels the gain is non-negative and grows with
      either machine. */
  lemma GainMonotone(a: map<string, int>, b: map<string, int>)
    requires "excavator" in a && "generator" in a && "excavator" in b && "generator" in b
    requires 0 <= a["excavator"] <= b["excavator"] && 0 <= a["generator"] <= b["generator"]
    ensures TickGain(a).Some? && TickGain(b).Some?
    ensures 0 <= TickGain(a).value <= TickGain(b).value
  {
    if a["excavator"] > 0 { GainFormula(a); }
    if b["excavator"] > 0 { GainFormula(b); }
    ProductMonotone(a["excavator"], 5 + a["generator"], b["excavator"], 5 + b["generator"]);
  }

  lemma ProductMonotone(x: int, y: int, x': int, y': int)
    requires 0 <= x <= x' && 0 <= y <= y'
    ensures 0 <= x * y <= x' * y'
  {
    assert x * y <= x' * y by { assert (x' - x) * y >= 0; }
    assert x' * y <= x' * y' by { assert x' * (y' - y) >= 0; }
  }

  /** A tick adds exactly the gain to the purse (nothing when there is no
      positive gain) and changes nothing else. */
  lemma TickOutcome(s: GameState)
    ensures var acts := Tick(s);
      Runs(s, acts)
      && var t := Run(s, acts);
      t == s.(resources := s.resources.(gold := t.resources.gold))
      && t.resources.gold == s.resources.gold
           + (if TickGain(s.machines).Some? then Max(0, TickGain(s.machines).value) else 0)
  {
    var acts := Tick(s);
    if acts != [] {
      RunSingle(s, acts[0]);
    } else {
      assert Run(s, acts) == s;
    }
  }

  /** Excavators without a generator key make the gain NaN: the tick pays nothing. */
  lemma MissingGeneratorPaysNothing(s: GameState)
    requires "excavator" in s.machines && s.machines["excavator"] > 0 && "generator" !in s.machines
    ensures TickGain(s.machines).None? && Tick(s) == []
  {
  }

  /** A fresh game has no excavator, so its ticks dispatch nothing. */
  lemma FreshGameEarnsNothing()
    ensures TickGain(INITIAL.machines) == Some(0) && Tick(INITIAL) == []
  {
  }
}
