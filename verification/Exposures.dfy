/** Loss estimates, grid sizing and broker exposures (adaptive-risk/src/exposure.rs). */
module Exposures {
  import opened Decimals
  import opened Outcomes

  datatype Side = Buy | Sell

  datatype LossEstimate = LossEstimate(
    side: Side,
    price: real,
    stop: Option<real>,
    contractSize: real,
    conversion: real,
    costsPerUnit: real,
    fixedCosts: real,
    isOpenPosition: bool)
  {
    predicate Valid()
    {
      stop.Some? && 0.0 < price && 0.0 < stop.value && 0.0 < contractSize && 0.0 < conversion
      && 0.0 <= costsPerUnit && 0.0 <= fixedCosts && 0.0 < Distance()
    }

    /** Positive when the stop lies on the losing side of the price. */
    function Distance(): real
      requires stop.Some?
    {
      if side.Buy? then price - stop.value else stop.value - price
    }

    function UnitLoss(slippagePct: real): Option<real>
    {
      if !Valid() then None
      else
        var priceRisk := Distance() * contractSize * conversion;
        var slipBasis := Max(priceRisk, price * contractSize * conversion / 10000.0);
        Some(priceRisk + costsPerUnit + Pct(slipBasis, slippagePct))
    }

    function Loss(volume: real, slippagePct: real): Option<real>
    {
      if volume < 0.0 || UnitLoss(slippagePct).None? then None
      else Some(UnitLoss(slippagePct).value * volume + fixedCosts)
    }
  }

  /** How a quotient is rounded; nothing when it cannot be formed. */
  type Division = (real, real) -> Option<real>

  function ExactDivision(): Division
  {
    (x: real, y: real) => if y == 0.0 then None else Some(x / y)
  }

  datatype VolumeLimits = VolumeLimits(min: real, max: real, step: real)
  {
    predicate Valid() { 0.0 < min <= max && 0.0 < step }

    function SizeBy(divide: Division, budget: real, estimate: LossEstimate, slip: real, requested: real): Option<real>
    {
      if !Valid() || requested <= 0.0 || estimate.UnitLoss(slip).None? then None
      else
        var quotient := divide(Max(budget - estimate.fixedCosts, 0.0), estimate.UnitLoss(slip).value);
        if quotient.None? then None
        else
          var steps := divide(Min(Min(quotient.value, max), requested), step);
          if steps.None? then None
          else
            var volume := Multiple(steps.value.Floor, step);
            if volume < min then None
            else
              var loss := estimate.Loss(volume, slip);
              if loss.None? || budget < loss.value then None else Some(volume)
    }

    function Size(budget: real, estimate: LossEstimate, slip: real, requested: real): Option<real>
    {
      SizeBy(ExactDivision(), budget, estimate, slip, requested)
    }

    /** `volume` may be sent: a multiple of the step, within every bound, its all-in loss within budget. */
    ghost predicate Fits(volume: real, budget: real, estimate: LossEstimate, slip: real, requested: real)
    {
      && Valid()
      && (exists k: int :: volume == Multiple(k, step))
      && min <= volume <= max && volume <= requested
      && estimate.Loss(volume, slip).Some? && estimate.Loss(volume, slip).value <= budget
    }
  }

  datatype Exposure = Exposure(
    brokerId: string, requestId: Option<string>, volume: real, estimate: LossEstimate, overlapping: bool)
  {
    function Risk(slip: real, overlap: real): Option<real>
    {
      if volume <= 0.0 || brokerId == "" then None
      else
        var loss := estimate.Loss(volume, slip);
        if loss.None? then None else Some(loss.value * if overlapping then overlap else 1.0)
    }
  }

  lemma UnitLossPositive(e: LossEstimate, slip: real)
    requires e.UnitLoss(slip).Some? && 0.0 <= slip
    ensures 0.0 < e.UnitLoss(slip).value
  {
    MulPositive(e.Distance(), e.contractSize);
    MulPositive(e.Distance() * e.contractSize, e.conversion);
    var priceRisk := e.Distance() * e.contractSize * e.conversion;
    MulNonNegative(Max(priceRisk, e.price * e.contractSize * e.conversion / 10000.0), slip);
  }

  lemma LossMonotone(e: LossEstimate, slip: real, small: real, large: real)
    requires 0.0 <= slip && 0.0 <= small <= large && e.Valid()
    ensures 0.0 <= e.Loss(small, slip).value <= e.Loss(large, slip).value
  {
    UnitLossPositive(e, slip);
    MulMono(small, large, e.UnitLoss(slip).value);
    MulNonNegative(small, e.UnitLoss(slip).value);
  }

  lemma RiskNonNegative(e: Exposure, slip: real, overlap: real)
    requires 0.0 <= slip && 0.0 <= overlap && e.Risk(slip, overlap).Some?
    ensures 0.0 <= e.Risk(slip, overlap).value
  {
    LossMonotone(e.estimate, slip, e.volume, e.volume);
    MulNonNegative(e.estimate.Loss(e.volume, slip).value, overlap);
  }

  /** A volume's loss is within budget exactly when the volume is within the quotient that `Size` divides out. */
  lemma LossWithinBudget(e: LossEstimate, slip: real, volume: real, budget: real)
    requires 0.0 <= slip && 0.0 < volume && e.Valid()
    ensures 0.0 < e.UnitLoss(slip).value
    ensures e.Loss(volume, slip).value <= budget
       <==> volume <= Max(budget - e.fixedCosts, 0.0) / e.UnitLoss(slip).value
  {
    var unit := e.UnitLoss(slip).value;
    UnitLossPositive(e, slip);
    MulPositive(volume, unit);
    DivIff(volume, Max(budget - e.fixedCosts, 0.0), unit);
  }

  lemma GridWithin(l: VolumeLimits, budget: real, e: LossEstimate, slip: real, requested: real, volume: real)
    requires 0.0 <= slip && l.Valid() && e.Valid() && l.min <= volume
    requires exists k: int :: volume == Multiple(k, l.step)
    ensures 0.0 < e.UnitLoss(slip).value
    ensures l.Fits(volume, budget, e, slip, requested)
       <==> volume <= Min(Min(Max(budget - e.fixedCosts, 0.0) / e.UnitLoss(slip).value, l.max), requested)
  {
    LossWithinBudget(e, slip, volume, budget);
  }

  /** `Size` returns the greatest volume that fits, and refuses exactly when none does. */
  lemma SizeIsGreatest(l: VolumeLimits, budget: real, e: LossEstimate, slip: real, requested: real)
    requires 0.0 <= slip
    ensures l.Size(budget, e, slip, requested).Some? ==>
      l.Fits(l.Size(budget, e, slip, requested).value, budget, e, slip, requested)
    ensures forall v: real :: l.Fits(v, budget, e, slip, requested) ==>
      l.Size(budget, e, slip, requested).Some? && v <= l.Size(budget, e, slip, requested).value
  {
    if l.Valid() && 0.0 < requested && e.Valid() {
      UnitLossPositive(e, slip);
      var raw := Min(Min(Max(budget - e.fixedCosts, 0.0) / e.UnitLoss(slip).value, l.max), requested);
      var volume := Multiple((raw / l.step).Floor, l.step);
      FloorToStep(raw, l.step);
      if l.min <= volume {
        GridWithin(l, budget, e, slip, requested, volume);
      }
      forall v: real | l.Fits(v, budget, e, slip, requested)
        ensures v <= volume
      {
        GridWithin(l, budget, e, slip, requested, v);
      }
    }
  }

  /** A smaller budget never buys a larger volume, and never turns a refusal into an approval. */
  lemma SizeMonotone(l: VolumeLimits, small: real, large: real, e: LossEstimate, slip: real, requested: real)
    requires 0.0 <= slip && small <= large
    ensures l.Size(small, e, slip, requested).Some? ==>
      l.Size(large, e, slip, requested).Some?
      && l.Size(small, e, slip, requested).value <= l.Size(large, e, slip, requested).value
  {
    SizeIsGreatest(l, small, e, slip, requested);
    SizeIsGreatest(l, large, e, slip, requested);
    if l.Size(small, e, slip, requested).Some? {
      assert l.Fits(l.Size(small, e, slip, requested).value, large, e, slip, requested);
    }
  }

  // ----- What a unit and an exposure can lose -----

  /** A unit can be priced exactly when a positive stop lies on the losing side of a positive price, and
      everything it is multiplied or surcharged by is sound. */
  lemma PricedIff(e: LossEstimate, slip: real)
    ensures e.UnitLoss(slip).Some? <==>
      && e.stop.Some? && 0.0 < e.stop.value && 0.0 < e.price
      && (if e.side.Buy? then e.stop.value < e.price else e.price < e.stop.value)
      && 0.0 < e.contractSize && 0.0 < e.conversion && 0.0 <= e.costsPerUnit && 0.0 <= e.fixedCosts
  {
  }

  /** A unit loses the way to its stop in account money, its costs, and slippage on that way or, when the
      stop is closer than a ten-thousandth of the price, on a ten-thousandth of the price. */
  lemma UnitLossIsAllIn(e: LossEstimate, slip: real, way: real, notional: real)
    requires e.UnitLoss(slip).Some?
    requires way == (if e.side.Buy? then e.price - e.stop.value else e.stop.value - e.price) * e.contractSize * e.conversion
    requires notional == e.price * e.contractSize * e.conversion
    ensures notional <= 10000.0 * way ==> e.UnitLoss(slip).value == way + way * slip / 100.0 + e.costsPerUnit
    ensures 10000.0 * way < notional ==> e.UnitLoss(slip).value == way + notional / 10000.0 * slip / 100.0 + e.costsPerUnit
  {
  }

  /** An exposure is priced exactly when it is identified, has volume and its unit can be priced; it risks
      its volume and its fixed costs, surcharged exactly when it overlaps. */
  lemma RiskIsAllIn(e: Exposure, slip: real, overlap: real)
    ensures e.Risk(slip, overlap).Some? <==> 0.0 < e.volume && e.brokerId != "" && e.estimate.UnitLoss(slip).Some?
    ensures e.Risk(slip, overlap).Some? && !e.overlapping ==>
      e.Risk(slip, overlap).value == e.estimate.UnitLoss(slip).value * e.volume + e.estimate.fixedCosts
    ensures e.Risk(slip, overlap).Some? && e.overlapping ==>
      e.Risk(slip, overlap).value == (e.estimate.UnitLoss(slip).value * e.volume + e.estimate.fixedCosts) * overlap
  {
  }

  // ----- Rounded division -----

  ghost predicate NeverRoundsUp(divide: Division)
  {
    forall x, y | 0.0 < y && divide(x, y).Some? :: divide(x, y).value * y <= x
  }

  lemma FloorBelow(quotient: real, raw: real, step: real)
    requires 0.0 < step && quotient * step <= raw
    ensures Multiple(quotient.Floor, step) <= raw
  {
    MulMono(quotient.Floor as real, quotient, step);
  }

  /** However division rounds, what `SizeBy` returns is a multiple of the step, at least the minimum, and
      loses no more than the budget. A division that never rounds up also keeps every upper bound. */
  lemma RoundedSizeIsWithinBudget(l: VolumeLimits, divide: Division, budget: real, e: LossEstimate, slip: real,
                                  requested: real)
    requires l.SizeBy(divide, budget, e, slip, requested).Some?
    ensures var v := l.SizeBy(divide, budget, e, slip, requested).value;
      && (exists k: int :: v == Multiple(k, l.step)) && l.min <= v
      && e.Loss(v, slip).Some? && e.Loss(v, slip).value <= budget
      && (NeverRoundsUp(divide) ==> l.Fits(v, budget, e, slip, requested))
  {
    if NeverRoundsUp(divide) {
      var quotient := divide(Max(budget - e.fixedCosts, 0.0), e.UnitLoss(slip).value).value;
      var raw := Min(Min(quotient, l.max), requested);
      FloorBelow(divide(raw, l.step).value, raw, l.step);
    }
  }
}
