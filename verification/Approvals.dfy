/** What an approval is worth, written out: the gate, the two tiers, the five amounts
    (adaptive-risk/src/decision.rs, `evaluate_trade` and `calculate`). */
module Approvals {
  import opened Account
  import opened Calendar
  import opened Decimals
  import opened Decision
  import opened Exposures
  import opened Outcomes
  import opened Policy
  import opened Reserved

  // ----- The tiers in force -----

  /** `x` lies in tier `i`: at or above its threshold, below the next one's. */
  predicate InTier(levels: seq<Tier>, i: int, x: real)
  {
    0 <= i < |levels| && levels[i].from <= x && (i + 1 < |levels| ==> x < levels[i + 1].from)
  }

  /** `factor` is the value of the tier that holds the number of losses; 1 when the schedule is off. */
  ghost predicate StreakFactor(p: RiskPolicy, losses: nat, factor: real)
  {
    if p.streakBackoff.enabled
    then exists i :: InTier(p.streakBackoff.levels, i, losses as real) && factor == p.streakBackoff.levels[i].value
    else factor == 1.0
  }

  /** Equity has fallen from `reference` into tier `j`, whose thresholds are percentages of the reference. */
  predicate FallenInto(levels: seq<Tier>, j: int, reference: real, equity: real)
  {
    var fall := if equity < reference then reference - equity else 0.0;
    && 0 <= j < |levels| && levels[j].from * reference <= fall * 100.0
    && (j + 1 < |levels| ==> fall * 100.0 < levels[j + 1].from * reference)
  }

  /** `percent` is the value of the tier that equity has fallen into; the base percentage when the schedule is off. */
  ghost predicate DrawdownPercent(p: RiskPolicy, reference: real, equity: real, percent: real)
  {
    if p.drawdownBackoff.enabled
    then exists j :: FallenInto(p.drawdownBackoff.levels, j, reference, equity) && percent == p.drawdownBackoff.levels[j].value
    else percent == p.baseRiskPct
  }

  lemma TierIsReached(levels: seq<Tier>, i: int, x: real)
    requires StartsAtZero(levels) && Tightens(levels) && 0.0 <= x && InTier(levels, i, x)
    ensures LastReached(levels, x) == levels[i].value
  {
    var found := LastReachedIsBand(levels, x);
    assert i <= found && (i + 1 < |levels| ==> !(i + 1 <= found));
  }

  lemma FallInPercent(from: real, reference: real, fall: real)
    requires 0.0 < reference
    ensures from <= fall * 100.0 / reference <==> from * reference <= fall * 100.0
  {
    DivIff(from, fall * 100.0, reference);
  }

  lemma FallenIsInTier(levels: seq<Tier>, j: int, reference: real, equity: real)
    requires 0.0 < reference
    ensures FallenInto(levels, j, reference, equity) <==> InTier(levels, j, ShortfallPct(reference, equity))
  {
    var fall := if equity < reference then reference - equity else 0.0;
    if 0 <= j < |levels| {
      FallInPercent(levels[j].from, reference, fall);
      if j + 1 < |levels| {
        FallInPercent(levels[j + 1].from, reference, fall);
      }
    }
  }

  lemma ValidSchedules(p: RiskPolicy)
    requires p.Valid()
    ensures StartsAtZero(p.streakBackoff.levels) && Tightens(p.streakBackoff.levels)
    ensures StartsAtZero(p.drawdownBackoff.levels) && Tightens(p.drawdownBackoff.levels)
    ensures Surcharges(p.execution)
  {
  }

  lemma StreakFactorIs(p: RiskPolicy, losses: nat, factor: real)
    requires StartsAtZero(p.streakBackoff.levels) && Tightens(p.streakBackoff.levels) && StreakFactor(p, losses, factor)
    ensures p.StreakMultiplier(losses) == factor
  {
    if p.streakBackoff.enabled {
      var i :| InTier(p.streakBackoff.levels, i, losses as real) && factor == p.streakBackoff.levels[i].value;
      TierIsReached(p.streakBackoff.levels, i, losses as real);
    }
  }

  lemma ShortfallNonNegative(reference: real, equity: real)
    requires 0.0 < reference
    ensures 0.0 <= ShortfallPct(reference, equity)
  {
    ShortfallRises(reference, equity, equity);
  }

  lemma DrawdownPercentIs(p: RiskPolicy, reference: real, equity: real, percent: real)
    requires StartsAtZero(p.drawdownBackoff.levels) && Tightens(p.drawdownBackoff.levels)
    requires 0.0 < reference && DrawdownPercent(p, reference, equity, percent)
    ensures p.DrawdownRiskPct(ShortfallPct(reference, equity)) == percent
  {
    if p.drawdownBackoff.enabled {
      var j :| FallenInto(p.drawdownBackoff.levels, j, reference, equity) && percent == p.drawdownBackoff.levels[j].value;
      FallenIsInTier(p.drawdownBackoff.levels, j, reference, equity);
      ShortfallNonNegative(reference, equity);
      TierIsReached(p.drawdownBackoff.levels, j, ShortfallPct(reference, equity));
    }
  }

  /** A valid policy always has exactly one factor and one percentage in force. */
  lemma TiersInForce(p: RiskPolicy, losses: nat, reference: real, equity: real) returns (factor: real, percent: real)
    requires p.Valid() && 0.0 < reference
    ensures StreakFactor(p, losses, factor) && DrawdownPercent(p, reference, equity, percent)
  {
    factor, percent := 1.0, p.baseRiskPct;
    if p.streakBackoff.enabled {
      var i := LastReachedIsBand(p.streakBackoff.levels, losses as real);
      factor := p.streakBackoff.levels[i].value;
      assert InTier(p.streakBackoff.levels, i, losses as real);
    }
    if p.drawdownBackoff.enabled {
      ShortfallNonNegative(reference, equity);
      var j := LastReachedIsBand(p.drawdownBackoff.levels, ShortfallPct(reference, equity));
      percent := p.drawdownBackoff.levels[j].value;
      FallenIsInTier(p.drawdownBackoff.levels, j, reference, equity);
    }
  }

  // ----- The five amounts -----

  /** What losing `loss` must stay within: what was asked for, the base risk, the base risk under the
      streak's factor, the drawdown's percentage, and both internal floors after what is reserved. */
  predicate Allowed(p: RiskPolicy, a: AccountSnapshot, t: ProposedTrade, f: Thresholds, reserved: real, factor: real,
                    percent: real, loss: real)
  {
    && loss <= t.requestedRisk
    && loss <= Pct(f.riskReference, p.baseRiskPct)
    && loss <= Pct(f.riskReference, p.baseRiskPct) * factor
    && loss <= Pct(f.riskReference, percent)
    && loss <= a.equity - f.internalDailyFloor - reserved
    && loss <= a.equity - f.internalAccountFloor - reserved
  }

  /** What volume `v` can lose, surcharged exactly when the trade overlaps. */
  function AllIn(p: RiskPolicy, t: ProposedTrade, v: real): real
    requires t.estimate.UnitLoss(p.execution.slippageBufferPctOfRisk).Some?
  {
    var loss := t.estimate.UnitLoss(p.execution.slippageBufferPctOfRisk).value * v + t.estimate.fixedCosts;
    if t.overlapping then loss * p.execution.overlapMultiplier else loss
  }

  /** A multiple of the step, at or above the minimum, within the maximum and what was asked for. */
  ghost predicate OnGrid(t: ProposedTrade, v: real)
  {
    && 0.0 < t.volume.min && 0.0 < t.volume.step
    && (exists k: int :: v == Multiple(k, t.volume.step))
    && t.volume.min <= v && v <= t.volume.max && v <= t.requestedVolume
  }

  ghost predicate Buyable(p: RiskPolicy, a: AccountSnapshot, t: ProposedTrade, f: Thresholds, reserved: real, factor: real,
                          percent: real, v: real)
  {
    && OnGrid(t, v)
    && t.estimate.UnitLoss(p.execution.slippageBufferPctOfRisk).Some?
    && Allowed(p, a, t, f, reserved, factor, percent, AllIn(p, t, v))
  }

  lemma BelowTightest(ls: seq<Limit>, x: real)
    requires ls != []
    ensures x <= Tightest(ls).0 <==> forall i | 0 <= i < |ls| :: x <= ls[i].0
  {
  }

  lemma AllowedIff(p: RiskPolicy, a: AccountSnapshot, t: ProposedTrade, s: RiskDocument, f: Thresholds, reserved: real,
                   factor: real, percent: real, loss: real)
    requires p.Valid() && OrderedFloors(f) && 0.0 < loss
    requires StreakFactor(p, s.consecutiveLosses, factor) && DrawdownPercent(p, f.drawdownReference, a.equity, percent)
    ensures Allowed(p, a, t, f, reserved, factor, percent, loss) <==> loss <= Tightest(Limits(p, a, t, s, f, reserved)).0
  {
    ValidSchedules(p);
    StreakFactorIs(p, s.consecutiveLosses, factor);
    DrawdownPercentIs(p, f.drawdownReference, a.equity, percent);
    AllowedByLimits(p, a, t, s, f, reserved, loss);
  }

  lemma AllowedByCeilings(p: RiskPolicy, a: AccountSnapshot, t: ProposedTrade, losses: nat, f: Thresholds, reserved: real, loss: real)
    requires f.drawdownReference != 0.0
    ensures Allowed(p, a, t, f, reserved, p.StreakMultiplier(losses),
                    p.DrawdownRiskPct(ShortfallPct(f.drawdownReference, a.equity)), loss)
       <==> && loss <= Min(Pct(f.riskReference, p.baseRiskPct), t.requestedRisk)
            && loss <= StreakCeiling(p, f, losses) && loss <= DrawdownCeiling(p, f, a.equity)
            && loss <= a.equity - f.internalDailyFloor - reserved && loss <= a.equity - f.internalAccountFloor - reserved
  {
    CeilingsAre(p, f, losses, a.equity);
  }

  lemma AllowedByLimits(p: RiskPolicy, a: AccountSnapshot, t: ProposedTrade, s: RiskDocument, f: Thresholds, reserved: real, loss: real)
    requires f.drawdownReference != 0.0 && 0.0 < loss
    ensures Allowed(p, a, t, f, reserved, p.StreakMultiplier(s.consecutiveLosses),
                    p.DrawdownRiskPct(ShortfallPct(f.drawdownReference, a.equity)), loss)
       <==> loss <= Tightest(Limits(p, a, t, s, f, reserved)).0
  {
    AllowedByCeilings(p, a, t, s.consecutiveLosses, f, reserved, loss);
    LimitsBound(Min(Pct(f.riskReference, p.baseRiskPct), t.requestedRisk), StreakCeiling(p, f, s.consecutiveLosses),
                DrawdownCeiling(p, f, a.equity), a.equity - f.internalDailyFloor - reserved,
                a.equity - f.internalAccountFloor - reserved, loss);
  }

  lemma CeilingsAre(p: RiskPolicy, f: Thresholds, losses: nat, equity: real)
    requires f.drawdownReference != 0.0
    ensures StreakCeiling(p, f, losses) == Pct(f.riskReference, p.baseRiskPct) * p.StreakMultiplier(losses)
    ensures DrawdownCeiling(p, f, equity) == Pct(f.riskReference, p.DrawdownRiskPct(ShortfallPct(f.drawdownReference, equity)))
  {
  }

  lemma LimitsBound(base: real, streak: real, drawdown: real, daily: real, account: real, x: real)
    requires 0.0 < x
    ensures x <= Tightest(LimitsWith(base, streak, drawdown, daily, account)).0
       <==> x <= base && x <= streak && x <= drawdown && x <= daily && x <= account
  {
    var ls := LimitsWith(base, streak, drawdown, daily, account);
    BelowTightest(ls, x);
    AllLimits(ls, x);
  }

  lemma AllLimits(ls: seq<Limit>, x: real)
    requires |ls| == 5
    ensures (forall i | 0 <= i < |ls| :: x <= ls[i].0)
       <==> x <= ls[0].0 && x <= ls[1].0 && x <= ls[2].0 && x <= ls[3].0 && x <= ls[4].0
  {
  }

  lemma AllInPositive(p: RiskPolicy, t: ProposedTrade, v: real)
    requires Surcharges(p.execution) && t.estimate.UnitLoss(p.execution.slippageBufferPctOfRisk).Some? && 0.0 < v
    ensures 0.0 < AllIn(p, t, v)
    ensures t.estimate.Loss(v, p.execution.slippageBufferPctOfRisk).Some?
    ensures t.estimate.Loss(v, p.execution.slippageBufferPctOfRisk).value * Overlap(p, t) == AllIn(p, t, v)
  {
    UnitLossPositive(t.estimate, p.execution.slippageBufferPctOfRisk);
    MulPositive(t.estimate.UnitLoss(p.execution.slippageBufferPctOfRisk).value, v);
    var loss := t.estimate.UnitLoss(p.execution.slippageBufferPctOfRisk).value * v + t.estimate.fixedCosts;
    MulPositive(loss, Overlap(p, t));
  }

  lemma AffordableMeans(p: RiskPolicy, t: ProposedTrade, budget: real, v: real)
    requires Surcharges(p.execution)
    ensures Affordable(p, t, budget, v) <==>
      OnGrid(t, v) && t.estimate.UnitLoss(p.execution.slippageBufferPctOfRisk).Some? && AllIn(p, t, v) <= budget
  {
    if 0.0 < v && t.estimate.UnitLoss(p.execution.slippageBufferPctOfRisk).Some? {
      AllInPositive(p, t, v);
    }
  }

  lemma BuyableIff(p: RiskPolicy, a: AccountSnapshot, t: ProposedTrade, s: RiskDocument, f: Thresholds, reserved: real,
                   factor: real, percent: real, v: real)
    requires p.Valid() && OrderedFloors(f)
    requires StreakFactor(p, s.consecutiveLosses, factor) && DrawdownPercent(p, f.drawdownReference, a.equity, percent)
    ensures var budget := Tightest(Limits(p, a, t, s, f, reserved)).0;
      Buyable(p, a, t, f, reserved, factor, percent, v) <==> 0.0 < budget && Affordable(p, t, budget, v)
  {
    ValidSchedules(p);
    var budget := Tightest(Limits(p, a, t, s, f, reserved)).0;
    AffordableMeans(p, t, budget, v);
    if OnGrid(t, v) && t.estimate.UnitLoss(p.execution.slippageBufferPctOfRisk).Some? {
      AllInPositive(p, t, v);
      AllowedIff(p, a, t, s, f, reserved, factor, percent, AllIn(p, t, v));
    }
  }

  /** Stated for any approval and volume, so that the decision need not be unfolded. */
  lemma GreatestBuyable(p: RiskPolicy, a: AccountSnapshot, t: ProposedTrade, f: Thresholds, reserved: real, factor: real, percent: real,
                        budget: real, approved: bool, volume: real)
    requires forall v: real :: Buyable(p, a, t, f, reserved, factor, percent, v) <==> 0.0 < budget && Affordable(p, t, budget, v)
    requires approved <==> 0.0 < budget && exists v: real :: Affordable(p, t, budget, v)
    requires approved ==> Affordable(p, t, budget, volume) && forall v: real :: Affordable(p, t, budget, v) ==> v <= volume
    ensures approved <==> exists v: real :: Buyable(p, a, t, f, reserved, factor, percent, v)
    ensures approved ==> Buyable(p, a, t, f, reserved, factor, percent, volume)
    ensures approved ==> forall v: real :: Buyable(p, a, t, f, reserved, factor, percent, v) ==> v <= volume
  {
    if 0.0 < budget && exists v: real :: Affordable(p, t, budget, v) {
      var v: real :| Affordable(p, t, budget, v);
      assert Buyable(p, a, t, f, reserved, factor, percent, v);
    }
  }

  lemma SizedAmount(d: RiskDecision, p: RiskPolicy, t: ProposedTrade, budget: real)
    requires SizedTo(d, p, t, budget)
    ensures t.estimate.Loss(d.maxVolume, p.execution.slippageBufferPctOfRisk).Some?
    ensures d.allowedRiskAmount == t.estimate.Loss(d.maxVolume, p.execution.slippageBufferPctOfRisk).value * Overlap(p, t)
  {
  }

  lemma AmountIsAllIn(p: RiskPolicy, t: ProposedTrade, volume: real, amount: real)
    requires Surcharges(p.execution) && 0.0 < volume && t.estimate.Loss(volume, p.execution.slippageBufferPctOfRisk).Some?
    requires amount == t.estimate.Loss(volume, p.execution.slippageBufferPctOfRisk).value * Overlap(p, t)
    ensures t.estimate.UnitLoss(p.execution.slippageBufferPctOfRisk).Some? && amount == AllIn(p, t, volume)
  {
    AllInPositive(p, t, volume);
  }

  lemma SizedIsAllIn(d: RiskDecision, p: RiskPolicy, t: ProposedTrade, budget: real)
    requires Surcharges(p.execution) && SizedTo(d, p, t, budget)
    ensures t.estimate.UnitLoss(p.execution.slippageBufferPctOfRisk).Some? && d.allowedRiskAmount == AllIn(p, t, d.maxVolume)
  {
    SizedFitsBudget(d, p, t, budget);
    SizedAmount(d, p, t, budget);
    AmountIsAllIn(p, t, d.maxVolume, d.allowedRiskAmount);
  }

  /** Past the gate, with sound floors and countable exposures: a trade is approved exactly when some grid
      volume's all-in loss is within the five amounts; the greatest such volume is approved, and its
      amount is that loss. */
  lemma ApprovedExactlyWhenBuyable(p: RiskPolicy, a: AccountSnapshot, t: ProposedTrade, s: RiskDocument, rule: LossRule,
                                   now: Time, factor: real, percent: real)
    requires Gate(p, a, t, s, now).None? && rule(p, s, a).Some? && OrderedFloors(rule(p, s, a).value) && ReservedRisk(p, s, a).Some?
    requires StreakFactor(p, s.consecutiveLosses, factor)
    requires DrawdownPercent(p, rule(p, s, a).value.drawdownReference, a.equity, percent)
    ensures var f, reserved, d := rule(p, s, a).value, ReservedRisk(p, s, a).value, EvaluateTrade(p, a, t, s, rule, now);
      && (d.approved <==> exists v: real :: Buyable(p, a, t, f, reserved, factor, percent, v))
      && (d.approved ==>
            && Buyable(p, a, t, f, reserved, factor, percent, d.maxVolume)
            && d.allowedRiskAmount == AllIn(p, t, d.maxVolume)
            && forall v: real :: Buyable(p, a, t, f, reserved, factor, percent, v) ==> v <= d.maxVolume)
  {
    var f, reserved, d := rule(p, s, a).value, ReservedRisk(p, s, a).value, EvaluateTrade(p, a, t, s, rule, now);
    var budget := Tightest(Limits(p, a, t, s, f, reserved)).0;
    GateOpen(p, a, t, s, now);
    ValidSchedules(p);
    ApprovalIsGreatest(p, a, t, s, rule, now, reserved);
    forall v: real
      ensures Buyable(p, a, t, f, reserved, factor, percent, v) <==> 0.0 < budget && Affordable(p, t, budget, v)
    {
      BuyableIff(p, a, t, s, f, reserved, factor, percent, v);
    }
    GreatestBuyable(p, a, t, f, reserved, factor, percent, budget, d.approved, d.maxVolume);
    if d.approved {
      ApprovalIsCovered(p, a, t, s, rule, now);
      SizedIsAllIn(d, p, t, budget);
    }
  }

  /** Within the base risk under the streak's factor, and within the drawdown's percentage. */
  predicate WithinTiers(p: RiskPolicy, f: Thresholds, factor: real, percent: real, amount: real)
  {
    amount <= Pct(f.riskReference, p.baseRiskPct) * factor && amount <= Pct(f.riskReference, percent)
  }

  lemma BudgetWithinCeilings(p: RiskPolicy, a: AccountSnapshot, t: ProposedTrade, s: RiskDocument, f: Thresholds, reserved: real,
                             amount: real)
    requires f.drawdownReference != 0.0 && amount <= Tightest(Limits(p, a, t, s, f, reserved)).0
    ensures WithinTiers(p, f, p.StreakMultiplier(s.consecutiveLosses), p.DrawdownRiskPct(ShortfallPct(f.drawdownReference, a.equity)), amount)
  {
    CeilingsAre(p, f, s.consecutiveLosses, a.equity);
    SecondAndThird(Limits(p, a, t, s, f, reserved));
  }

  lemma SecondAndThird(ls: seq<Limit>)
    requires |ls| == 5
    ensures Tightest(ls).0 <= ls[1].0 && Tightest(ls).0 <= ls[2].0
  {
  }

  lemma BudgetWithinTiers(p: RiskPolicy, a: AccountSnapshot, t: ProposedTrade, s: RiskDocument, f: Thresholds, reserved: real,
                          factor: real, percent: real, amount: real)
    requires p.Valid() && OrderedFloors(f) && amount <= Tightest(Limits(p, a, t, s, f, reserved)).0
    requires StreakFactor(p, s.consecutiveLosses, factor) && DrawdownPercent(p, f.drawdownReference, a.equity, percent)
    ensures WithinTiers(p, f, factor, percent, amount)
  {
    ValidSchedules(p);
    StreakFactorIs(p, s.consecutiveLosses, factor);
    DrawdownPercentIs(p, f.drawdownReference, a.equity, percent);
    BudgetWithinCeilings(p, a, t, s, f, reserved, amount);
  }

  /** Every approval's amount is within the base risk under the streak's factor and within the drawdown's percentage. */
  lemma ApprovalWithinTiers(p: RiskPolicy, a: AccountSnapshot, t: ProposedTrade, s: RiskDocument, rule: LossRule, now: Time,
                            factor: real, percent: real)
    requires EvaluateTrade(p, a, t, s, rule, now).approved
    requires rule(p, s, a).Some? && StreakFactor(p, s.consecutiveLosses, factor)
    requires DrawdownPercent(p, rule(p, s, a).value.drawdownReference, a.equity, percent)
    ensures WithinTiers(p, rule(p, s, a).value, factor, percent, EvaluateTrade(p, a, t, s, rule, now).allowedRiskAmount)
  {
    ApprovalIsCovered(p, a, t, s, rule, now);
    BudgetWithinTiers(p, a, t, s, rule(p, s, a).value, ReservedRisk(p, s, a).value, factor, percent,
                      EvaluateTrade(p, a, t, s, rule, now).allowedRiskAmount);
  }

  // ----- The gate -----

  /** Observed no later than `now`, and in whole milliseconds not longer ago than the limit in seconds. */
  predicate Recent(now: Time, observed: Time, seconds: int)
  {
    observed <= now && now - observed < (Min(seconds as real * 1000.0, MAX_I64 as real).Floor + 1) * 1_000_000
  }

  lemma RecentIff(now: Time, observed: Time, seconds: int)
    ensures Fresh(now, observed, seconds) <==> Recent(now, observed, seconds)
  {
    assert (seconds as real * 1000.0) == (seconds * 1000) as real;
  }

  /** A snapshot is usable: whole, of this account, newer than the last invalidation, consistent, recent, in
      today's trading day with its references, and not behind the last cursor. */
  predicate Usable(p: RiskPolicy, s: RiskDocument, a: AccountSnapshot, now: Time)
  {
    && a.accountId == s.accountId && a.complete && a.setupsReconciled
    && (s.invalidatedAfter.Some? ==> s.invalidatedAfter.value < a.observedAt)
    && 0.0 < a.balance <= a.balanceHigh && 0.0 < a.equity <= a.equityHigh
    && Recent(now, a.observedAt, p.execution.maxDataAgeSeconds) && Recent(now, a.quoteAt, p.execution.maxDataAgeSeconds)
    && DayAt(p.calendar, now) == Some(a.dayReference.day) && 0.0 < a.dayReference.balance && 0.0 < a.dayReference.equity
    && (s.lastSequence.Some? ==> s.lastSequence.value <= a.sequence)
  }

  lemma UsableIff(p: RiskPolicy, s: RiskDocument, a: AccountSnapshot, now: Time)
    ensures ValidateSnapshot(p, s, a, now).Ok? <==> Usable(p, s, a, now)
  {
    RecentIff(now, a.observedAt, p.execution.maxDataAgeSeconds);
    RecentIff(now, a.quoteAt, p.execution.maxDataAgeSeconds);
  }

  /** Why a snapshot is not usable: the first of these, in this order, that fails. */
  lemma SnapshotAnswers(p: RiskPolicy, s: RiskDocument, a: AccountSnapshot, now: Time)
    ensures var r := ValidateSnapshot(p, s, a, now);
      var whole := a.accountId == s.accountId && a.complete && a.setupsReconciled;
      var newer := s.invalidatedAfter.None? || s.invalidatedAfter.value < a.observedAt;
      var consistent := 0.0 < a.balance <= a.balanceHigh && 0.0 < a.equity <= a.equityHigh;
      var recent := Recent(now, a.observedAt, p.execution.maxDataAgeSeconds) && Recent(now, a.quoteAt, p.execution.maxDataAgeSeconds);
      var today := DayAt(p.calendar, now) == Some(a.dayReference.day) && 0.0 < a.dayReference.balance && 0.0 < a.dayReference.equity;
      && (r == Err(IncompleteSnapshot) <==> !whole)
      && (r == Err(PredatesInvalidation) <==> whole && !newer)
      && (r == Err(InconsistentAccount) <==> whole && newer && !consistent)
      && (r == Err(StaleQuote) <==> whole && newer && consistent && !recent)
      && (r == Err(MissingDayBoundary) <==> whole && newer && consistent && recent && !today)
      && (r == Err(CursorRegressed) <==> whole && newer && consistent && recent && today && !Usable(p, s, a, now))
      && (r.Ok? <==> Usable(p, s, a, now))
  {
    RecentIff(now, a.observedAt, p.execution.maxDataAgeSeconds);
    RecentIff(now, a.quoteAt, p.execution.maxDataAgeSeconds);
  }

  /** The document was reconciled with exactly this snapshot. */
  predicate ReconciledOn(s: RiskDocument, a: AccountSnapshot)
  {
    && !s.needsReconciliation && s.day == a.dayReference
    && s.lastSequence == Some(a.sequence) && s.lastReconciledAt == Some(a.observedAt)
  }

  predicate Named(t: ProposedTrade)
  {
    t.instrumentId != "" && t.requestId != "" && t.setupId != "" && t.strategyId != ""
  }

  /** Why a trade is refused before any risk is computed: the first of these, in this order, that applies. */
  lemma GateReasons(p: RiskPolicy, a: AccountSnapshot, t: ProposedTrade, s: RiskDocument, now: Time)
    ensures !(p.Valid() && p == s.policy) <==> Gate(p, a, t, s, now) == Some(InvalidPolicy)
    ensures p.Valid() && p == s.policy ==>
      var recent := Recent(now, a.observedAt, p.execution.maxDataAgeSeconds) && Recent(now, a.quoteAt, p.execution.maxDataAgeSeconds);
      var reconciled := ReconciledOn(s, a) && Usable(p, s, a, now);
      var first := t.requestId !in s.attemptedRequests;
      var sound := t.setupId !in s.outcomes && Named(t) && 0.0 < t.requestedRisk && !t.estimate.isOpenPosition;
      && (Gate(p, a, t, s, now) == Some(Disconnected) <==> !a.connected)
      && (Gate(p, a, t, s, now) == Some(StaleData) <==> a.connected && !recent)
      && (Gate(p, a, t, s, now) == Some(LimitReason.Reconciliation) <==> a.connected && recent && !reconciled)
      && (Gate(p, a, t, s, now) == Some(AccountLockout) <==> a.connected && reconciled && s.accountLocked)
      && (Gate(p, a, t, s, now) == Some(DailyLockout) <==> a.connected && reconciled && !s.accountLocked && s.dailyLocked)
      && (Gate(p, a, t, s, now) == Some(DuplicateRequest) <==> a.connected && reconciled && !s.accountLocked && !s.dailyLocked && !first)
      && (Gate(p, a, t, s, now) == Some(InvalidTrade) <==> a.connected && reconciled && !s.accountLocked && !s.dailyLocked && first && !sound)
      && (Gate(p, a, t, s, now).None? <==> a.connected && reconciled && !s.accountLocked && !s.dailyLocked && first && sound)
  {
    if p.Valid() {
      UsableIff(p, s, a, now);
      RecentIff(now, a.observedAt, p.execution.maxDataAgeSeconds);
      RecentIff(now, a.quoteAt, p.execution.maxDataAgeSeconds);
    }
  }

  /** What a refusal says: the gate's reason; no countable exposures or no sound floors; or the tightest limit
      when nothing is left of it, and otherwise that the minimum volume does not fit. */
  lemma RefusalReasons(p: RiskPolicy, a: AccountSnapshot, t: ProposedTrade, s: RiskDocument, rule: LossRule, now: Time)
    requires !EvaluateTrade(p, a, t, s, rule, now).approved
    ensures var d, gate := EvaluateTrade(p, a, t, s, rule, now), Gate(p, a, t, s, now);
      && d.allowedRiskAmount == 0.0 && d.maxVolume == 0.0 && d.reasons == [d.limitingPolicy]
      && (gate.Some? ==> d.limitingPolicy == gate.value)
      && (gate.None? && (rule(p, s, a).None? || !OrderedFloors(rule(p, s, a).value) || ReservedRisk(p, s, a).None?) ==>
            d.limitingPolicy == BadExposure)
      && (gate.None? && rule(p, s, a).Some? && OrderedFloors(rule(p, s, a).value) && ReservedRisk(p, s, a).Some? ==>
            var tightest := Tightest(Limits(p, a, t, s, rule(p, s, a).value, ReservedRisk(p, s, a).value));
            d.limitingPolicy == if tightest.0 <= 0.0 then tightest.1 else BelowMinimum)
  {
    if Gate(p, a, t, s, now).None? && rule(p, s, a).Some? && OrderedFloors(rule(p, s, a).value) && ReservedRisk(p, s, a).Some? {
      var f, reserved := rule(p, s, a).value, ReservedRisk(p, s, a);
      var limits := Limits(p, a, t, s, f, reserved.value);
      var sizing := SizingFor(p, t, Tightest(limits).0);
      GateOpen(p, a, t, s, now);
      CalculatedBy(p, a, t, s, rule, now, reserved);
      DecidedIsSized(a, f, reserved.value, limits, sizing);
      NeverUnpriced(p, t, Tightest(limits).0);
    }
  }

  /** Past the gate, an invalid exposure is answered exactly when the rule gives no floors, a reference or an
      internal floor is unsound, or the exposures cannot be counted. */
  lemma InvalidExposureExactlyWhen(p: RiskPolicy, a: AccountSnapshot, t: ProposedTrade, s: RiskDocument, rule: LossRule, now: Time)
    requires Gate(p, a, t, s, now).None?
    ensures EvaluateTrade(p, a, t, s, rule, now).limitingPolicy == BadExposure <==>
      || rule(p, s, a).None? || ReservedRisk(p, s, a).None?
      || (var f := rule(p, s, a).value;
          || f.riskReference <= 0.0 || f.drawdownReference <= 0.0 || f.dailyReference <= 0.0
          || f.internalAccountFloor <= f.firmAccountFloor || f.internalDailyFloor <= f.firmDailyFloor)
  {
    GateOpen(p, a, t, s, now);
    ValidSchedules(p);
    PastTheGate(p, a, t, s, rule, now, ReservedRisk(p, s, a));
    CalculatesUnlessUnsound(p, a, t, s, rule, ReservedRisk(p, s, a));
  }

  lemma PastTheGate(p: RiskPolicy, a: AccountSnapshot, t: ProposedTrade, s: RiskDocument, rule: LossRule, now: Time, reserved: Option<real>)
    requires Gate(p, a, t, s, now).None?
    ensures var d := Calculate(p, a, t, s, rule, reserved);
      Evaluate(p, a, t, s, rule, now, reserved) == if d.Some? then d.value else Blocked(BadExposure)
  {
  }

  lemma CalculatesUnlessUnsound(p: RiskPolicy, a: AccountSnapshot, t: ProposedTrade, s: RiskDocument, rule: LossRule, reserved: Option<real>)
    requires Surcharges(p.execution)
    ensures var d := Calculate(p, a, t, s, rule, reserved);
      && (d.None? <==> rule(p, s, a).None? || !OrderedFloors(rule(p, s, a).value) || reserved.None?)
      && (d.Some? ==> d.value.limitingPolicy != BadExposure)
  {
    if rule(p, s, a).Some? && OrderedFloors(rule(p, s, a).value) && reserved.Some? {
      var f := rule(p, s, a).value;
      var limits := Limits(p, a, t, s, f, reserved.value);
      NeverUnpriced(p, t, Tightest(limits).0);
      LimitsNameThemselves(limits);
      DecidedNamesALimit(a, f, reserved.value, limits, SizingFor(p, t, Tightest(limits).0));
    }
  }

  lemma LimitsNameThemselves(limits: seq<Limit>)
    requires limits != [] && forall l | l in limits :: l.1 != BadExposure
    ensures Tightest(limits).1 != BadExposure
  {
  }

  lemma DecidedNamesALimit(a: AccountSnapshot, f: Thresholds, reserved: real, limits: seq<Limit>, sizing: Sizing)
    requires |limits| == 5 && OrderedFloors(f) && !sizing.Unpriced?
    ensures Decided(a, f, reserved, limits, sizing).Some?
    ensures Decided(a, f, reserved, limits, sizing).value.limitingPolicy in {Tightest(limits).1, BelowMinimum}
  {
  }

  lemma NeverUnpriced(p: RiskPolicy, t: ProposedTrade, budget: real)
    requires Surcharges(p.execution)
    ensures !SizingFor(p, t, budget).Unpriced?
  {
  }
}
