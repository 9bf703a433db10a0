/** The execution gate and the risk overrides applied after it (agent/runner.go, agent/risk_overrides.go). */
module ExecutionGates {
  import opened Text

  /** A pipeline signal as text; the empty text means that no signal was given. */
  datatype Signal = Unset | Buy | Sell | Hold | Unknown(text: string)

  datatype Plan = Plan(action: Signal, ticker: string, entry: real, stop: real, target: real, size: real,
      confidence: real, rationale: string)
  datatype FinalSignal = FinalSignal(signal: Signal, confidence: real)

  // ---------------------------------------------------------------- which signal counts

  function CanonicalSignal(plan: Plan, final: FinalSignal): (s: Signal)
    ensures s != Unset
    ensures final.signal != Unset ==> s == final.signal
    ensures final.signal == Unset ==> s == plan.action || (plan.action == Unset && s == Hold)
  {
    if final.signal != Unset then final.signal else if plan.action != Unset then plan.action else Hold
  }

  predicate Actionable(s: Signal) { s == Buy || s == Sell }

  // ---------------------------------------------------------------- ValidateExecutablePlan

  const MINIMUM_RISK_REWARD: real := 1.5

  predicate ValidPlan(plan: Plan, signal: Signal, minConfidence: real) {
    if signal == Unset || signal == Hold then true
    else if signal != Buy && signal != Sell then false
    else if TrimSpace(plan.ticker) == "" then false
    else if plan.confidence < minConfidence then false
    else if plan.entry <= 0.0 || plan.size <= 0.0 then false
    else if plan.stop <= 0.0 || plan.target <= 0.0 then false
    else if signal == Buy && !(plan.stop < plan.entry && plan.entry < plan.target) then false
    else if signal == Sell && !(plan.target < plan.entry && plan.entry < plan.stop) then false
    else
      var risk := if signal == Buy then plan.entry - plan.stop else plan.stop - plan.entry;
      var reward := if signal == Buy then plan.target - plan.entry else plan.entry - plan.target;
      !(risk <= 0.0 || reward / risk < MINIMUM_RISK_REWARD)
  }

  /** The three levels in the order the signal needs. */
  predicate LevelsOrdered(signal: Signal, stop: real, entry: real, target: real) {
    if signal == Buy then stop < entry < target else target < entry < stop
  }

  function Distance(a: real, b: real): (d: real)
    ensures d >= 0.0
  {
    if a >= b then a - b else b - a
  }

  /** The reward is at least one and a half times the risk, said without division. */
  predicate PaysForRisk(stop: real, entry: real, target: real) {
    2.0 * Distance(target, entry) >= 3.0 * Distance(entry, stop)
  }

  lemma RatioAsProduct(reward: real, risk: real)
    requires risk > 0.0
    ensures reward / risk < MINIMUM_RISK_REWARD <==> 2.0 * reward < 3.0 * risk
  {
    var ratio := reward / risk;
    assert ratio * risk == reward;
    if ratio < 1.5 { ScaleStrict(ratio, 1.5, risk); } else { ScaleWeak(1.5, ratio, risk); }
  }

  lemma ScaleStrict(a: real, b: real, c: real)
    requires a < b && c > 0.0
    ensures a * c < b * c
  {
  }

  lemma ScaleWeak(a: real, b: real, c: real)
    requires a <= b && c >= 0.0
    ensures a * c <= b * c
  {
  }

  /** An actionable plan passes exactly when its ticker, confidence, size, levels and risk/reward all hold up. */
  lemma ValidPlanExact(plan: Plan, signal: Signal, minConfidence: real)
    requires Actionable(signal)
    ensures ValidPlan(plan, signal, minConfidence) <==>
      && TrimSpace(plan.ticker) != "" && plan.confidence >= minConfidence && plan.size > 0.0
      && plan.entry > 0.0 && plan.stop > 0.0 && plan.target > 0.0
      && LevelsOrdered(signal, plan.stop, plan.entry, plan.target) && PaysForRisk(plan.stop, plan.entry, plan.target)
  {
    hide TrimSpace;
    if LevelsOrdered(signal, plan.stop, plan.entry, plan.target) {
      RatioAsProduct(Distance(plan.target, plan.entry), Distance(plan.entry, plan.stop));
    }
  }

  // ---------------------------------------------------------------- runExecutionGate

  /** The text appended when the gate or an override falls back to hold. */
  function Appended(existing: string, addition: string): string {
    var a, b := TrimSpace(existing), TrimSpace(addition);
    if a == "" then b else if b == "" then a else a + " " + b
  }

  /** The part of the pipeline state that the gate reads and writes. */
  class PipelineState {
    var plan: Plan
    var final: FinalSignal

    constructor (plan: Plan, final: FinalSignal)
      ensures this.plan == plan && this.final == final
    {
      this.plan, this.final := plan, final;
    }

    /** After a gate that passes, an action is a plan that holds up on the confidence of the signal that counts;
        the gate only ever falls back to hold with nothing to trade. */
    method RunGate(minConfidence: real, note: string) returns (ok: bool)
      modifies this
      ensures var signal, before := CanonicalSignal(plan, final), old(CanonicalSignal(plan, final));
        && ok == ValidPlan(plan, signal, minConfidence)
        && (signal == before || (signal == Hold && plan.action == Hold && plan.size == 0.0))
        && (signal == before <==> before == Hold || plan.confidence >= minConfidence)
        && (signal != Hold ==> plan == old(plan).(confidence := plan.confidence) && final == old(final))
      ensures plan.confidence == if old(final.signal) != Unset then old(final.confidence) else old(plan.confidence)
      ensures plan.ticker == old(plan.ticker) && plan.entry == old(plan.entry) && plan.stop == old(plan.stop)
        && plan.target == old(plan.target)
    {
      var signal := CanonicalSignal(plan, final);
      if final.signal != Unset { plan := plan.(confidence := final.confidence); }
      if signal != Hold && plan.confidence < minConfidence {
        final := FinalSignal(Hold, plan.confidence);
        plan := plan.(action := Hold, size := 0.0, rationale := Appended(plan.rationale, note));
        signal := Hold;
      }
      ok := ValidPlan(plan, signal, minConfidence);
    }
  }

  // ---------------------------------------------------------------- overrides

  datatype Overrides = Overrides(stopMultiplier: Option<real>, targetMultiplier: Option<real>,
      minConfidence: Option<real>)

  function Max0(x: real): real { if x > 0.0 then x else 0.0 }

  function Below(entry: real, distance: real): real { Max0(entry - distance) }

  function Scaled(distance: real, multiplier: real): real { distance * multiplier }

  /** AdjustTradingPlanTargets */
  function Adjust(plan: Plan, signal: Signal, o: Overrides): Plan {
    if plan.entry <= 0.0 then plan
    else
      var stop :=
        if o.stopMultiplier.Some? && plan.stop > 0.0 then
          var scaled := Scaled(Distance(plan.entry, plan.stop), o.stopMultiplier.value);
          if signal == Buy then Below(plan.entry, scaled) else if signal == Sell then plan.entry + scaled else plan.stop
        else plan.stop;
      var target :=
        if o.targetMultiplier.Some? && plan.target > 0.0 then
          var scaled := Scaled(Distance(plan.target, plan.entry), o.targetMultiplier.value);
          if signal == Buy then plan.entry + scaled else if signal == Sell
            then Below(plan.entry, scaled) else plan.target
        else plan.target;
      plan.(stop := stop, target := target)
  }

  function Factor(multiplier: Option<real>): real { if multiplier.Some? then multiplier.value else 1.0 }

  lemma PositiveProduct(d: real, m: real)
    requires d > 0.0
    ensures Scaled(d, m) > 0.0 <==> m > 0.0
  {
  }

  lemma UnitFactor(d: real)
    ensures Scaled(d, 1.0) == d
  {
  }

  function Risk(plan: Plan, o: Overrides): real { Scaled(Distance(plan.entry, plan.stop), Factor(o.stopMultiplier)) }

  function Reward(plan: Plan, o: Overrides): real {
    Scaled(Distance(plan.target, plan.entry), Factor(o.targetMultiplier))
  }

  /** Where the levels of an ordered plan end up. */
  lemma AdjustedLevels(plan: Plan, signal: Signal, o: Overrides)
    requires Actionable(signal) && plan.entry > 0.0 && plan.stop > 0.0 && plan.target > 0.0
    requires LevelsOrdered(signal, plan.stop, plan.entry, plan.target)
    ensures Risk(plan, o) > 0.0 <==> Factor(o.stopMultiplier) > 0.0
    ensures Reward(plan, o) > 0.0 <==> Factor(o.targetMultiplier) > 0.0
    ensures var adjusted := Adjust(plan, signal, o);
      && adjusted.entry == plan.entry
      && adjusted.stop == (if signal == Buy then Below(plan.entry, Risk(plan, o)) else plan.entry + Risk(plan, o))
      && adjusted.target == (if signal == Buy then plan.entry + Reward(plan, o) else Below(plan.entry, Reward(plan, o)))
  {
    hide Scaled;
    UnitFactor(Distance(plan.entry, plan.stop));
    UnitFactor(Distance(plan.target, plan.entry));
    PositiveProduct(Distance(plan.entry, plan.stop), Factor(o.stopMultiplier));
    PositiveProduct(Distance(plan.target, plan.entry), Factor(o.targetMultiplier));
  }

  /** Overriding an ordered plan keeps the order exactly when every given multiplier is positive. */
  lemma OrderKeptExactly(plan: Plan, signal: Signal, o: Overrides)
    requires Actionable(signal) && plan.entry > 0.0 && plan.stop > 0.0 && plan.target > 0.0
    requires LevelsOrdered(signal, plan.stop, plan.entry, plan.target)
    ensures var adjusted := Adjust(plan, signal, o);
      LevelsOrdered(signal, adjusted.stop, adjusted.entry, adjusted.target) <==>
        Factor(o.stopMultiplier) > 0.0 && Factor(o.targetMultiplier) > 0.0
  {
    hide Adjust, Risk, Reward;
    AdjustedLevels(plan, signal, o);
  }

  lemma PaysScaled(reward: real, risk: real, target: real, stop: real)
    requires reward >= 0.0 && risk >= 0.0 && 2.0 * reward >= 3.0 * risk && target >= stop >= 0.0
    ensures 2.0 * Scaled(reward, target) >= 3.0 * Scaled(risk, stop)
  {
    var wider, kept, lost := Scaled(reward, target), Scaled(reward, stop), Scaled(risk, stop);
    assert wider >= kept by { WiderPays(reward, target, stop); }
    assert 2.0 * kept >= 3.0 * lost by { PaysAlike(reward, risk, stop); }
    hide Scaled;
  }

  lemma NonNegativeProduct(a: real, b: real)
    requires a >= 0.0 && b >= 0.0
    ensures Scaled(a, b) >= 0.0
  {
  }

  lemma WiderPays(reward: real, target: real, stop: real)
    requires reward >= 0.0 && target >= stop
    ensures Scaled(reward, target) >= Scaled(reward, stop)
  {
    NonNegativeProduct(reward, target - stop);
    assert Scaled(reward, target - stop) == Scaled(reward, target) - Scaled(reward, stop);
  }

  lemma PaysAlike(reward: real, risk: real, stop: real)
    requires 2.0 * reward >= 3.0 * risk && stop >= 0.0
    ensures 2.0 * Scaled(reward, stop) >= 3.0 * Scaled(risk, stop)
  {
    NonNegativeProduct(2.0 * reward - 3.0 * risk, stop);
    assert Scaled(2.0 * reward - 3.0 * risk, stop) == 2.0 * Scaled(reward, stop) - 3.0 * Scaled(risk, stop);
  }

  function Min(a: real, b: real): real { if a <= b then a else b }

  /** After positive multipliers, risk/reward holds up exactly when the scaled distances do,
      a level below the entry going no further than zero. */
  lemma RiskRewardExact(plan: Plan, signal: Signal, o: Overrides)
    requires Actionable(signal) && plan.entry > 0.0 && plan.stop > 0.0 && plan.target > 0.0
    requires LevelsOrdered(signal, plan.stop, plan.entry, plan.target)
    requires Factor(o.targetMultiplier) > 0.0 && Factor(o.stopMultiplier) > 0.0
    ensures var adjusted := Adjust(plan, signal, o);
      PaysForRisk(adjusted.stop, adjusted.entry, adjusted.target) <==>
        if signal == Buy then 2.0 * Reward(plan, o) >= 3.0 * Min(Risk(plan, o), plan.entry)
        else 2.0 * Min(Reward(plan, o), plan.entry) >= 3.0 * Risk(plan, o)
  {
    hide Adjust, Risk, Reward;
    AdjustedLevels(plan, signal, o);
  }

  /** A buy keeps its risk/reward when the target is widened at least as much as the stop. */
  lemma BuyKeepsRiskReward(plan: Plan, o: Overrides)
    requires plan.entry > 0.0 && plan.stop > 0.0 && plan.target > 0.0
    requires LevelsOrdered(Buy, plan.stop, plan.entry, plan.target) && PaysForRisk(plan.stop, plan.entry, plan.target)
    requires Factor(o.targetMultiplier) >= Factor(o.stopMultiplier) > 0.0
    ensures var adjusted := Adjust(plan, Buy, o); PaysForRisk(adjusted.stop, adjusted.entry, adjusted.target)
  {
    hide Adjust, Scaled;
    var risk, reward := Distance(plan.entry, plan.stop), Distance(plan.target, plan.entry);
    PaysScaled(reward, risk, Factor(o.targetMultiplier), Factor(o.stopMultiplier));
    RiskRewardExact(plan, Buy, o);
  }

  /** A sell may lose it, because its target cannot go below zero. */
  lemma SellMayLoseRiskReward()
    ensures exists plan: Plan, o: Overrides ::
      && ValidPlan(plan, Sell, 0.0) && Factor(o.targetMultiplier) == Factor(o.stopMultiplier) > 0.0
      && var adjusted := Adjust(plan, Sell, o);
      !PaysForRisk(adjusted.stop, adjusted.entry, adjusted.target) && !ValidPlan(adjusted, Sell, 0.0)
  {
    var plan := Plan(Sell, "T", 10.0, 11.0, 8.0, 1.0, 1.0, "");
    var o := Overrides(Some(10.0), Some(10.0), None);
    assert TrimSpace("T") == "T" by { assert TrimLeft("T") == "T" && TrimRight("T") == "T"; }
    ValidPlanExact(plan, Sell, 0.0);
    assert ValidPlan(plan, Sell, 0.0);
    var adjusted := Adjust(plan, Sell, o);
    assert adjusted.target == 0.0 && adjusted.stop == 20.0;
    assert !PaysForRisk(adjusted.stop, adjusted.entry, adjusted.target) && !ValidPlan(adjusted, Sell, 0.0);
  }

  /** What a finished run hands on. */
  class RunResult {
    var signal: Signal
    var plan: Plan
    var final: FinalSignal

    constructor (signal: Signal, plan: Plan, final: FinalSignal)
      ensures this.signal == signal && this.plan == plan && this.final == final
    {
      this.signal, this.plan, this.final := signal, plan, final;
    }

    method AdjustTargets(o: Overrides)
      modifies this`plan
      ensures plan == Adjust(old(plan), signal, o)
    {
      hide Scaled;
      if plan.entry <= 0.0 { return; }
      if o.stopMultiplier.Some? && plan.stop > 0.0 {
        var scaled := Scaled(Distance(plan.entry, plan.stop), o.stopMultiplier.value);
        if signal == Buy {
          plan := plan.(stop := Max0(plan.entry - scaled));
        } else if signal == Sell {
          plan := plan.(stop := plan.entry + scaled);
        }
      }
      if o.targetMultiplier.Some? && plan.target > 0.0 {
        var scaled := Scaled(Distance(plan.target, plan.entry), o.targetMultiplier.value);
        if signal == Buy {
          plan := plan.(target := plan.entry + scaled);
        } else if signal == Sell {
          plan := plan.(target := Max0(plan.entry - scaled));
        }
      }
    }

    /** ApplyStrategyRiskOverridesToResult: an action survives only with enough confidence; a plan that passed the gate
        keeps its levels in order exactly when the multipliers are positive. */
    method ApplyOverrides(o: Overrides, note: string)
      modifies this
      ensures o.minConfidence.Some? && old(final.confidence) < o.minConfidence.value ==>
        signal == final.signal == plan.action == Hold && plan.size == 0.0
      ensures !(o.minConfidence.Some? && old(final.confidence) < o.minConfidence.value) ==>
        signal == old(signal) && final == old(final) && plan == Adjust(old(plan), signal, o)
      ensures final.confidence == old(final.confidence) && plan.entry == old(plan.entry)
      ensures forall minConfidence :: Actionable(old(signal)) && ValidPlan(old(plan), old(signal), minConfidence) ==>
        (LevelsOrdered(old(signal), plan.stop, plan.entry, plan.target) <==>
          Factor(o.stopMultiplier) > 0.0 && Factor(o.targetMultiplier) > 0.0)
    {
      ghost var was, asked := plan, signal;
      forall minConfidence | Actionable(asked) && ValidPlan(was, asked, minConfidence)
        ensures LevelsOrdered(asked, Adjust(was, asked, o).stop, was.entry, Adjust(was, asked, o).target) <==>
          Factor(o.stopMultiplier) > 0.0 && Factor(o.targetMultiplier) > 0.0
      {
        ValidPlanExact(was, asked, minConfidence);
        OrderKeptExactly(was, asked, o);
      }
      if o.stopMultiplier.Some? || o.targetMultiplier.Some? { AdjustTargets(o); }
      if o.minConfidence.Some? && final.confidence < o.minConfidence.value {
        signal := Hold;
        final := final.(signal := Hold);
        plan := plan.(action := Hold, size := 0.0, rationale := Appended(plan.rationale, note));
      }
    }
  }
}
