/** Snapshot validation and the trade decision (adaptive-risk/src/decision.rs). */
module Decision {
  import opened Account
  import opened Calendar
  import opened Decimals
  import opened Exposures
  import opened Outcomes
  import opened Policy
  import opened Reserved

  datatype ProposedTrade = ProposedTrade(
    instrumentId: string,
    overlapping: bool,
    requestId: string,
    strategyId: string,
    setupId: string,
    estimate: LossEstimate,
    volume: VolumeLimits,
    requestedVolume: real,
    requestedRisk: real)

  datatype LimitReason =
    | BaseRisk | Streak | Drawdown | DailyBudget | AccountBudget
    | InvalidPolicy | Reconciliation | StaleData | Disconnected | BadExposure
    | InvalidTrade | BelowMinimum | DailyLockout | AccountLockout | DuplicateRequest

  datatype RiskDecision = RiskDecision(
    approved: bool,
    allowedRiskPct: real,
    allowedRiskAmount: real,
    maxVolume: real,
    limitingPolicy: LimitReason,
    reasons: seq<LimitReason>,
    reservedExposure: real,
    drawdownPct: real,
    dailyLossPct: real,
    dailyRemaining: real)

  function Blocked(reason: LimitReason): RiskDecision
  {
    RiskDecision(false, 0.0, 0.0, 0.0, reason, [reason], 0.0, 0.0, 0.0, 0.0)
  }

  const MAX_I64: int := 0x7fff_ffff_ffff_ffff

  /** Milliseconds of an age limit in seconds, saturating at the 64-bit range. */
  function AgeMillis(seconds: int): int
  {
    if seconds * 1000 > MAX_I64 then MAX_I64
    else if seconds * 1000 < -MAX_I64 - 1 then -MAX_I64 - 1
    else seconds * 1000
  }

  predicate Fresh(now: Time, observed: Time, age: int)
  {
    observed <= now && (now - observed) / 1_000_000 <= AgeMillis(age)
  }

  predicate FreshSnapshot(p: RiskPolicy, a: AccountSnapshot, now: Time)
  {
    Fresh(now, a.observedAt, p.execution.maxDataAgeSeconds) && Fresh(now, a.quoteAt, p.execution.maxDataAgeSeconds)
  }

  predicate Newer(t: Time, mark: Option<Time>) { mark.Some? ==> mark.value < t }

  function ValidateSnapshot(p: RiskPolicy, s: RiskDocument, a: AccountSnapshot, now: Time): Result<()>
  {
    if !(a.accountId == s.accountId && a.complete && a.setupsReconciled) then Err(IncompleteSnapshot)
    else if !Newer(a.observedAt, s.invalidatedAfter) then Err(PredatesInvalidation)
    else if !(0.0 < a.balance && 0.0 < a.equity && a.balance <= a.balanceHigh && a.equity <= a.equityHigh)
      then Err(InconsistentAccount)
    else if !FreshSnapshot(p, a, now) then Err(StaleQuote)
    else if !(DayAt(p.calendar, now) == Some(a.dayReference.day)
              && 0.0 < a.dayReference.balance && 0.0 < a.dayReference.equity) then Err(MissingDayBoundary)
    else if s.lastSequence.Some? && a.sequence < s.lastSequence.value then Err(CursorRegressed)
    else Ok(())
  }

  /** The state was reconciled against this very snapshot and nothing has invalidated it since. */
  predicate ReconciledWith(p: RiskPolicy, s: RiskDocument, a: AccountSnapshot, now: Time)
  {
    && !s.needsReconciliation
    && ValidateSnapshot(p, s, a, now).Ok?
    && s.day == a.dayReference
    && s.lastSequence == Some(a.sequence)
    && s.lastReconciledAt == Some(a.observedAt)
  }

  /** The first check that blocks the trade before any risk is computed. */
  function Gate(p: RiskPolicy, a: AccountSnapshot, t: ProposedTrade, s: RiskDocument, now: Time): Option<LimitReason>
  {
    if !p.Valid() || p != s.policy then Some(InvalidPolicy)
    else if !a.connected then Some(Disconnected)
    else if !FreshSnapshot(p, a, now) then Some(StaleData)
    else if !ReconciledWith(p, s, a, now) then Some(Reconciliation)
    else if s.accountLocked then Some(AccountLockout)
    else if s.dailyLocked then Some(DailyLockout)
    else if t.requestId in s.attemptedRequests then Some(DuplicateRequest)
    else if t.setupId in s.outcomes || t.instrumentId == "" || t.requestId == "" || t.setupId == ""
            || t.strategyId == "" || t.requestedRisk <= 0.0 || t.estimate.isOpenPosition then Some(InvalidTrade)
    else None
  }

  function Evaluate(p: RiskPolicy, a: AccountSnapshot, t: ProposedTrade, s: RiskDocument, rule: LossRule,
                    now: Time, reserved: Option<real>): RiskDecision
  {
    var gate := Gate(p, a, t, s, now);
    if gate.Some? then Blocked(gate.value)
    else
      var d := Calculate(p, a, t, s, rule, reserved);
      if d.Some? then d.value else Blocked(BadExposure)
  }

  predicate OrderedFloors(f: Thresholds)
  {
    && 0.0 < f.riskReference && 0.0 < f.drawdownReference && 0.0 < f.dailyReference
    && f.firmAccountFloor < f.internalAccountFloor && f.firmDailyFloor < f.internalDailyFloor
  }

  /** Percent of `reference` that `equity` has fallen short of it. */
  function ShortfallPct(reference: real, equity: real): real
    requires reference != 0.0
  {
    Max(reference - equity, 0.0) * 100.0 / reference
  }

  type Limit = (real, LimitReason)

  function StreakCeiling(p: RiskPolicy, f: Thresholds, losses: nat): real
  {
    Pct(f.riskReference, p.baseRiskPct) * p.StreakMultiplier(losses)
  }

  function DrawdownCeiling(p: RiskPolicy, f: Thresholds, equity: real): real
    requires f.drawdownReference != 0.0
  {
    Pct(f.riskReference, p.DrawdownRiskPct(ShortfallPct(f.drawdownReference, equity)))
  }

  /** The five limits, given the streak's and the drawdown's ceiling. */
  function LimitsWith(base: real, streak: real, drawdown: real, dailyRoom: real, accountRoom: real): (ls: seq<Limit>)
    ensures |ls| == 5
  {
    [(base, BaseRisk), (streak, Streak), (drawdown, Drawdown), (Max(dailyRoom, 0.0), DailyBudget), (Max(accountRoom, 0.0), AccountBudget)]
  }

  function Limits(p: RiskPolicy, a: AccountSnapshot, t: ProposedTrade, s: RiskDocument, f: Thresholds,
                  reserved: real): (ls: seq<Limit>)
    requires f.drawdownReference != 0.0
    ensures |ls| == 5
  {
    LimitsWith(Min(Pct(f.riskReference, p.baseRiskPct), t.requestedRisk),
               StreakCeiling(p, f, s.consecutiveLosses), DrawdownCeiling(p, f, a.equity),
               a.equity - f.internalDailyFloor - reserved, a.equity - f.internalAccountFloor - reserved)
  }

  /** The smallest limit; the first of equals. */
  function Tightest(ls: seq<Limit>): (l: Limit)
    requires ls != []
    ensures l in ls
    ensures forall i | 0 <= i < |ls| :: l.0 <= ls[i].0
  {
    if |ls| == 1 then ls[0]
    else
      var l := Tightest(ls[1..]);
      assert forall i | 0 < i < |ls| :: ls[i] == ls[1..][i - 1];
      if ls[0].0 <= l.0 then ls[0] else l
  }

  function Binding(ls: seq<Limit>, budget: real): seq<LimitReason>
  {
    if ls == [] then []
    else (if ls[0].0 == budget then [ls[0].1] else []) + Binding(ls[1..], budget)
  }

  function Overlap(p: RiskPolicy, t: ProposedTrade): real
  {
    if t.overlapping then p.execution.overlapMultiplier else 1.0
  }

  datatype Sizing = Unpriced | TooSmall | Fits(volume: real, amount: real)

  /** The volume a positive budget buys, and what that volume can lose. */
  function SizingFor(p: RiskPolicy, t: ProposedTrade, budget: real): Sizing
  {
    var multiplier := Overlap(p, t);
    if multiplier == 0.0 then Unpriced
    else
      var slip := p.execution.slippageBufferPctOfRisk;
      var volume := t.volume.Size(budget / multiplier, t.estimate, slip, t.requestedVolume);
      if volume.None? then TooSmall
      else
        var loss := t.estimate.Loss(volume.value, slip);
        if loss.None? then Unpriced else Fits(volume.value, loss.value * multiplier)
  }

  /** The decision once the five limits are known. */
  function Decided(a: AccountSnapshot, f: Thresholds, reserved: real, limits: seq<Limit>,
                   sizing: Sizing): Option<RiskDecision>
    requires |limits| == 5 && OrderedFloors(f)
  {
    var (budget, reason) := Tightest(limits);
    if budget <= 0.0 then Some(Blocked(reason))
    else match sizing
      case Unpriced => None
      case TooSmall => Some(Blocked(BelowMinimum))
      case Fits(volume, amount) =>
        Some(RiskDecision(true, amount * 100.0 / f.riskReference, amount, volume, reason,
                          Binding(limits, budget), reserved,
                          ShortfallPct(f.drawdownReference, a.equity),
                          ShortfallPct(f.dailyReference, a.equity), limits[3].0))
  }

  /** `reserved` is the outcome of `reserved_risk`; `None` where the original returns an error. */
  function Calculate(p: RiskPolicy, a: AccountSnapshot, t: ProposedTrade, s: RiskDocument, rule: LossRule,
                     reserved: Option<real>): Option<RiskDecision>
  {
    var thresholds := rule(p, s, a);
    if thresholds.None? || !OrderedFloors(thresholds.value) || reserved.None? then None
    else
      var limits := Limits(p, a, t, s, thresholds.value, reserved.value);
      Decided(a, thresholds.value, reserved.value, limits, SizingFor(p, t, Tightest(limits).0))
  }

  ghost function EvaluateTrade(p: RiskPolicy, a: AccountSnapshot, t: ProposedTrade, s: RiskDocument, rule: LossRule,
                               now: Time): RiskDecision
  {
    Evaluate(p, a, t, s, rule, now, ReservedRisk(p, s, a))
  }

  method DecideTrade(p: RiskPolicy, a: AccountSnapshot, t: ProposedTrade, s: RiskDocument, rule: LossRule, now: Time)
    returns (d: RiskDecision)
    ensures d == EvaluateTrade(p, a, t, s, rule, now)
  {
    var reserved := SumReservedRisk(p, s, a);
    d := Evaluate(p, a, t, s, rule, now, reserved);
  }

  /** Equity left above each internal floor once `risk` is lost. */
  predicate Covered(f: Thresholds, equity: real, risk: real)
  {
    risk <= equity - f.internalDailyFloor && risk <= equity - f.internalAccountFloor
  }

  lemma AmountNonNegative(e: LossEstimate, slip: real, volume: real, multiplier: real)
    requires 0.0 <= slip && 0.0 <= multiplier && e.Loss(volume, slip).Some?
    ensures e.Valid() && 0.0 <= e.Loss(volume, slip).value * multiplier
  {
    LossMonotone(e, slip, volume, volume);
    MulNonNegative(e.Loss(volume, slip).value, multiplier);
  }

  lemma SizedWithinBudget(l: VolumeLimits, e: LossEstimate, slip: real, requested: real, budget: real, multiplier: real)
    requires 0.0 <= slip && 0.0 < multiplier && l.Size(budget / multiplier, e, slip, requested).Some?
    ensures e.Valid()
    ensures var v := l.Size(budget / multiplier, e, slip, requested).value;
      0.0 < v <= requested && e.Loss(v, slip).Some? && 0.0 <= e.Loss(v, slip).value * multiplier <= budget
  {
    SizeIsGreatest(l, budget / multiplier, e, slip, requested);
    var v := l.Size(budget / multiplier, e, slip, requested).value;
    LossMonotone(e, slip, v, v);
    var loss := e.Loss(v, slip).value;
    DivIff(loss, budget, multiplier);
    MulNonNegative(loss, multiplier);
  }

  lemma BudgetWithinLimits(p: RiskPolicy, a: AccountSnapshot, t: ProposedTrade, s: RiskDocument, f: Thresholds,
                           reserved: real)
    requires f.drawdownReference != 0.0
    ensures var ls := Limits(p, a, t, s, f, reserved);
      var budget := Tightest(ls).0;
      && budget <= ls[0].0 <= t.requestedRisk && budget <= ls[1].0 && budget <= ls[2].0
      && (0.0 < budget ==> Covered(f, a.equity, reserved + budget))
  {
    var ls := Limits(p, a, t, s, f, reserved);
    assert Tightest(ls).0 <= ls[0].0 && Tightest(ls).0 <= ls[1].0 && Tightest(ls).0 <= ls[2].0;
    assert Tightest(ls).0 <= ls[3].0 && Tightest(ls).0 <= ls[4].0;
  }

  /** `d` is the largest grid volume whose loss fits the tightest of the five limits. */
  predicate SizedTo(d: RiskDecision, p: RiskPolicy, t: ProposedTrade, budget: real)
  {
    var multiplier, slip := Overlap(p, t), p.execution.slippageBufferPctOfRisk;
    && 0.0 < budget && multiplier != 0.0
    && t.volume.Size(budget / multiplier, t.estimate, slip, t.requestedVolume) == Some(d.maxVolume)
    && t.estimate.Loss(d.maxVolume, slip).Some?
    && d.allowedRiskAmount == t.estimate.Loss(d.maxVolume, slip).value * multiplier
  }

  lemma SizingMeans(d: RiskDecision, p: RiskPolicy, t: ProposedTrade, budget: real)
    ensures SizedTo(d, p, t, budget) <==> 0.0 < budget && SizingFor(p, t, budget) == Fits(d.maxVolume, d.allowedRiskAmount)
  {
  }

  lemma DecidedIsSized(a: AccountSnapshot, f: Thresholds, reserved: real, limits: seq<Limit>, sizing: Sizing)
    requires |limits| == 5 && OrderedFloors(f)
    ensures var d := Decided(a, f, reserved, limits, sizing);
      && (d.Some? && d.value.approved <==> 0.0 < Tightest(limits).0 && sizing.Fits?)
      && (d.Some? && d.value.approved ==> sizing == Fits(d.value.maxVolume, d.value.allowedRiskAmount))
  {
  }

  lemma ApprovalIsSized(p: RiskPolicy, a: AccountSnapshot, t: ProposedTrade, s: RiskDocument, rule: LossRule,
                        reserved: Option<real>)
    requires Calculate(p, a, t, s, rule, reserved).Some? && Calculate(p, a, t, s, rule, reserved).value.approved
    ensures rule(p, s, a).Some? && OrderedFloors(rule(p, s, a).value) && reserved.Some?
    ensures SizedTo(Calculate(p, a, t, s, rule, reserved).value, p, t, Tightest(Limits(p, a, t, s, rule(p, s, a).value, reserved.value)).0)
  {
    var f := rule(p, s, a).value;
    var limits := Limits(p, a, t, s, f, reserved.value);
    var budget := Tightest(limits).0;
    DecidedIsSized(a, f, reserved.value, limits, SizingFor(p, t, budget));
    SizingMeans(Calculate(p, a, t, s, rule, reserved).value, p, t, budget);
  }

  /** A grid volume within every bound whose all-in loss, surcharged for overlap, is within the budget. */
  ghost predicate Affordable(p: RiskPolicy, t: ProposedTrade, budget: real, v: real)
  {
    && t.volume.Valid() && (exists k: int :: v == Multiple(k, t.volume.step))
    && t.volume.min <= v <= t.volume.max && v <= t.requestedVolume
    && t.estimate.Loss(v, p.execution.slippageBufferPctOfRisk).Some?
    && t.estimate.Loss(v, p.execution.slippageBufferPctOfRisk).value * Overlap(p, t) <= budget
  }

  lemma AffordableIff(p: RiskPolicy, t: ProposedTrade, budget: real, v: real)
    requires Surcharges(p.execution)
    ensures Affordable(p, t, budget, v)
       <==> t.volume.Fits(v, budget / Overlap(p, t), t.estimate, p.execution.slippageBufferPctOfRisk, t.requestedVolume)
  {
    if t.estimate.Loss(v, p.execution.slippageBufferPctOfRisk).Some? {
      DivIff(t.estimate.Loss(v, p.execution.slippageBufferPctOfRisk).value, budget, Overlap(p, t));
    }
  }

  lemma SizingIsGreatest(p: RiskPolicy, t: ProposedTrade, budget: real)
    requires Surcharges(p.execution)
    ensures SizingFor(p, t, budget).Fits? ==> Affordable(p, t, budget, SizingFor(p, t, budget).volume)
    ensures forall v: real :: Affordable(p, t, budget, v) ==>
      SizingFor(p, t, budget).Fits? && v <= SizingFor(p, t, budget).volume
  {
    var slip := p.execution.slippageBufferPctOfRisk;
    SizeIsGreatest(t.volume, budget / Overlap(p, t), t.estimate, slip, t.requestedVolume);
    var size := t.volume.Size(budget / Overlap(p, t), t.estimate, slip, t.requestedVolume);
    if size.Some? {
      AffordableIff(p, t, budget, size.value);
    }
    forall v: real | Affordable(p, t, budget, v)
      ensures SizingFor(p, t, budget).Fits? && v <= SizingFor(p, t, budget).volume
    {
      AffordableIff(p, t, budget, v);
    }
  }

  lemma SizedFitsBudget(d: RiskDecision, p: RiskPolicy, t: ProposedTrade, budget: real)
    requires Surcharges(p.execution) && SizedTo(d, p, t, budget)
    ensures t.estimate.Valid() && 0.0 < d.maxVolume <= t.requestedVolume && 0.0 <= d.allowedRiskAmount <= budget
  {
    var slip := p.execution.slippageBufferPctOfRisk;
    SizingMeans(d, p, t, budget);
    SizingIsGreatest(p, t, budget);
    AmountNonNegative(t.estimate, slip, d.maxVolume, Overlap(p, t));
  }

  lemma GateOpen(p: RiskPolicy, a: AccountSnapshot, t: ProposedTrade, s: RiskDocument, now: Time)
    requires Gate(p, a, t, s, now).None?
    ensures p.Valid() && p == s.policy && ReconciledWith(p, s, a, now) && !s.accountLocked && !s.dailyLocked
    ensures t.requestId !in s.attemptedRequests && t.setupId !in s.outcomes
  {
  }

  /** An approval's amount is the all-in loss of its volume. It is within the tightest limit, and
      with everything already reserved it fits above both internal floors, which lie strictly
      above the firm's. */
  lemma ApprovalIsCovered(p: RiskPolicy, a: AccountSnapshot, t: ProposedTrade, s: RiskDocument, rule: LossRule, now: Time)
    requires EvaluateTrade(p, a, t, s, rule, now).approved
    ensures Gate(p, a, t, s, now).None? && p.Valid()
    ensures rule(p, s, a).Some? && OrderedFloors(rule(p, s, a).value) && ReservedRisk(p, s, a).Some?
    ensures var d, f, reserved := EvaluateTrade(p, a, t, s, rule, now), rule(p, s, a).value, ReservedRisk(p, s, a).value;
      var budget := Tightest(Limits(p, a, t, s, f, reserved)).0;
      && SizedTo(d, p, t, budget)
      && t.estimate.Valid() && 0.0 < d.maxVolume <= t.requestedVolume
      && 0.0 <= d.allowedRiskAmount <= budget <= t.requestedRisk
      && Covered(f, a.equity, reserved + d.allowedRiskAmount)
  {
    var d, reserved := EvaluateTrade(p, a, t, s, rule, now), ReservedRisk(p, s, a);
    ApprovalIsSized(p, a, t, s, rule, reserved);
    var f := rule(p, s, a).value;
    BudgetWithinLimits(p, a, t, s, f, reserved.value);
    SizedFitsBudget(d, p, t, Tightest(Limits(p, a, t, s, f, reserved.value)).0);
  }

  // ----- Approval is complete and explains itself -----

  lemma CalculatedBy(p: RiskPolicy, a: AccountSnapshot, t: ProposedTrade, s: RiskDocument, rule: LossRule, now: Time,
                     reserved: Option<real>)
    requires Gate(p, a, t, s, now).None? && rule(p, s, a).Some? && OrderedFloors(rule(p, s, a).value) && reserved.Some?
    ensures var limits := Limits(p, a, t, s, rule(p, s, a).value, reserved.value);
      var d := Decided(a, rule(p, s, a).value, reserved.value, limits, SizingFor(p, t, Tightest(limits).0));
      Evaluate(p, a, t, s, rule, now, reserved) == if d.Some? then d.value else Blocked(BadExposure)
  {
  }

  /** Past the gate, with sound floors and countable exposures, a trade is approved exactly when some
      volume is affordable within the tightest of the five limits, and the volume approved is the
      greatest such. */
  lemma ApprovalIsGreatest(p: RiskPolicy, a: AccountSnapshot, t: ProposedTrade, s: RiskDocument, rule: LossRule,
                           now: Time, reserved: real)
    requires Gate(p, a, t, s, now).None? && rule(p, s, a).Some? && OrderedFloors(rule(p, s, a).value)
    ensures var d := Evaluate(p, a, t, s, rule, now, Some(reserved));
      var budget := Tightest(Limits(p, a, t, s, rule(p, s, a).value, reserved)).0;
      && (d.approved <==> 0.0 < budget && exists v: real :: Affordable(p, t, budget, v))
      && (d.approved ==> Affordable(p, t, budget, d.maxVolume) && forall v: real :: Affordable(p, t, budget, v) ==> v <= d.maxVolume)
  {
    var f := rule(p, s, a).value;
    var limits := Limits(p, a, t, s, f, reserved);
    var budget := Tightest(limits).0;
    GateOpen(p, a, t, s, now);
    CalculatedBy(p, a, t, s, rule, now, Some(reserved));
    DecidedIsSized(a, f, reserved, limits, SizingFor(p, t, budget));
    SizingIsGreatest(p, t, budget);
  }

  lemma {:induction false} BindingMeaning(ls: seq<Limit>, budget: real, reason: LimitReason)
    ensures reason in Binding(ls, budget) <==> (budget, reason) in ls
  {
    if ls != [] {
      assert ls == [ls[0]] + ls[1..];
      BindingMeaning(ls[1..], budget, reason);
    }
  }

  lemma {:induction false} FirstBindingIsTightest(ls: seq<Limit>)
    requires ls != []
    ensures Binding(ls, Tightest(ls).0) != [] && Binding(ls, Tightest(ls).0)[0] == Tightest(ls).1
  {
    if |ls| > 1 && ls[0].0 != Tightest(ls).0 {
      FirstBindingIsTightest(ls[1..]);
      assert [] + Binding(ls[1..], Tightest(ls).0) == Binding(ls[1..], Tightest(ls).0);
    }
  }

  lemma PctOfShare(amount: real, reference: real)
    requires reference != 0.0
    ensures Pct(reference, amount * 100.0 / reference) == amount
  {
    assert amount * 100.0 / reference * reference == amount * 100.0;
  }

  /** What an approval reports: the reasons are exactly the limits that bind, the first of
      them named as limiting, its percentages restore the
      amounts they stand for, and the headroom reported is what the day still allows. */
  lemma ApprovalExplainsItself(a: AccountSnapshot, f: Thresholds, reserved: real, limits: seq<Limit>, sizing: Sizing)
    requires |limits| == 5 && OrderedFloors(f)
    requires Decided(a, f, reserved, limits, sizing).Some? && Decided(a, f, reserved, limits, sizing).value.approved
    ensures var d := Decided(a, f, reserved, limits, sizing).value;
      && (forall reason :: reason in d.reasons <==> (Tightest(limits).0, reason) in limits)
      && d.reasons != [] && d.limitingPolicy == d.reasons[0]
      && Pct(f.riskReference, d.allowedRiskPct) == d.allowedRiskAmount
      && d.reservedExposure == reserved && d.dailyRemaining == limits[3].0
      && f.drawdownReference - Pct(f.drawdownReference, d.drawdownPct) == Min(a.equity, f.drawdownReference)
      && f.dailyReference - Pct(f.dailyReference, d.dailyLossPct) == Min(a.equity, f.dailyReference)
  {
    var d, budget := Decided(a, f, reserved, limits, sizing).value, Tightest(limits).0;
    forall reason ensures reason in d.reasons <==> (budget, reason) in limits { BindingMeaning(limits, budget, reason); }
    FirstBindingIsTightest(limits);
    PctOfShare(d.allowedRiskAmount, f.riskReference);
    PctOfShare(Max(f.drawdownReference - a.equity, 0.0), f.drawdownReference);
    PctOfShare(Max(f.dailyReference - a.equity, 0.0), f.dailyReference);
  }

  // ----- Monotone de-risking under the standard rule -----

  function ApprovedVolume(d: RiskDecision): real { if d.approved then d.maxVolume else 0.0 }

  lemma ApprovedVolumeNonNegative(p: RiskPolicy, a: AccountSnapshot, t: ProposedTrade, s: RiskDocument, rule: LossRule,
                                  now: Time)
    ensures 0.0 <= ApprovedVolume(EvaluateTrade(p, a, t, s, rule, now))
  {
    if EvaluateTrade(p, a, t, s, rule, now).approved {
      ApprovalIsCovered(p, a, t, s, rule, now);
    }
  }

  lemma ShortfallRises(reference: real, high: real, low: real)
    requires 0.0 < reference && low <= high
    ensures 0.0 <= ShortfallPct(reference, high) <= ShortfallPct(reference, low)
  {
    DivMono(Max(reference - high, 0.0) * 100.0, Max(reference - low, 0.0) * 100.0, reference);
    DivMono(0.0, Max(reference - high, 0.0) * 100.0, reference);
  }

  lemma PctMono(reference: real, small: real, large: real)
    requires 0.0 <= reference && small <= large
    ensures Pct(reference, small) <= Pct(reference, large)
  {
    MulMono(small, large, reference);
  }

  lemma CeilingsShrink(p: RiskPolicy, f: Thresholds, equity: real, lower: real, losses: nat, more: nat)
    requires p.Valid() && OrderedFloors(f) && lower <= equity && losses <= more
    ensures StreakCeiling(p, f, more) <= StreakCeiling(p, f, losses)
    ensures DrawdownCeiling(p, f, lower) <= DrawdownCeiling(p, f, equity)
  {
    ShortfallRises(f.drawdownReference, equity, lower);
    var shallow, deep := ShortfallPct(f.drawdownReference, equity), ShortfallPct(f.drawdownReference, lower);
    SchedulesTighten(p, losses, more, shallow, deep);
    MulNonNegative(f.riskReference, p.baseRiskPct);
    MulMono(p.StreakMultiplier(more), p.StreakMultiplier(losses), Pct(f.riskReference, p.baseRiskPct));
    PctMono(f.riskReference, p.DrawdownRiskPct(deep), p.DrawdownRiskPct(shallow));
  }

  lemma LimitsWithShrink(base: real, streak: real, drawdown: real, daily: real, account: real,
                         streak': real, drawdown': real, daily': real, account': real)
    requires streak' <= streak && drawdown' <= drawdown && daily' <= daily && account' <= account
    ensures forall i | 0 <= i < 5 ::
      LimitsWith(base, streak', drawdown', daily', account')[i].0 <= LimitsWith(base, streak, drawdown, daily, account)[i].0
  {
  }

  lemma LimitsShrink(p: RiskPolicy, a: AccountSnapshot, t: ProposedTrade, s: RiskDocument, f: Thresholds,
                     reserved: real, equity: real, losses: nat)
    requires p.Valid() && OrderedFloors(f) && equity <= a.equity && s.consecutiveLosses <= losses
    ensures forall i | 0 <= i < 5 ::
      Limits(p, a.(equity := equity), t, s.(consecutiveLosses := losses), f, reserved)[i].0 <= Limits(p, a, t, s, f, reserved)[i].0
  {
    CeilingsShrink(p, f, a.equity, equity, s.consecutiveLosses, losses);
    LimitsWithShrink(Min(Pct(f.riskReference, p.baseRiskPct), t.requestedRisk),
                     StreakCeiling(p, f, s.consecutiveLosses), DrawdownCeiling(p, f, a.equity),
                     a.equity - f.internalDailyFloor - reserved, a.equity - f.internalAccountFloor - reserved,
                     StreakCeiling(p, f, losses), DrawdownCeiling(p, f, equity),
                     equity - f.internalDailyFloor - reserved, equity - f.internalAccountFloor - reserved);
  }

  lemma TightestShrinks(low: seq<Limit>, high: seq<Limit>)
    requires |low| == |high| == 5 && forall i | 0 <= i < 5 :: low[i].0 <= high[i].0
    ensures Tightest(low).0 <= Tightest(high).0
  {
    var i :| 0 <= i < 5 && high[i] == Tightest(high);
    assert Tightest(low).0 <= low[i].0;
  }

  lemma ThresholdsIgnoreEquity(p: RiskPolicy, a: AccountSnapshot, s: RiskDocument, equity: real, losses: nat)
    requires equity <= a.equity <= a.equityHigh
    ensures StandardThresholds(p, s.(consecutiveLosses := losses), a.(equity := equity)) == StandardThresholds(p, s, a)
  {
  }

  lemma SizedDerisks(worse: RiskDecision, p: RiskPolicy, t: ProposedTrade, small: real,
                     large: real) returns (volume: real)
    requires Surcharges(p.execution) && small <= large && SizedTo(worse, p, t, small)
    ensures worse.maxVolume <= volume
    ensures t.volume.Size(large / Overlap(p, t), t.estimate, p.execution.slippageBufferPctOfRisk, t.requestedVolume) == Some(volume)
    ensures t.estimate.Loss(volume, p.execution.slippageBufferPctOfRisk).Some?
  {
    var multiplier, slip := Overlap(p, t), p.execution.slippageBufferPctOfRisk;
    DivMono(small, large, multiplier);
    SizeMonotone(t.volume, small / multiplier, large / multiplier, t.estimate, slip, t.requestedVolume);
    volume := t.volume.Size(large / multiplier, t.estimate, slip, t.requestedVolume).value;
    SizedWithinBudget(t.volume, t.estimate, slip, t.requestedVolume, large, multiplier);
  }

  lemma SizedIsApproved(p: RiskPolicy, a: AccountSnapshot, t: ProposedTrade, s: RiskDocument, rule: LossRule,
                        reserved: Option<real>, volume: real)
    requires Surcharges(p.execution)
    requires rule(p, s, a).Some? && OrderedFloors(rule(p, s, a).value) && reserved.Some?
    requires var budget := Tightest(Limits(p, a, t, s, rule(p, s, a).value, reserved.value)).0;
      0.0 < budget
      && t.volume.Size(budget / Overlap(p, t), t.estimate, p.execution.slippageBufferPctOfRisk, t.requestedVolume) == Some(volume)
      && t.estimate.Loss(volume, p.execution.slippageBufferPctOfRisk).Some?
    ensures var d := Calculate(p, a, t, s, rule, reserved); d.Some? && d.value.approved && d.value.maxVolume == volume
  {
    var f := rule(p, s, a).value;
    var limits := Limits(p, a, t, s, f, reserved.value);
    DecidedIsSized(a, f, reserved.value, limits, SizingFor(p, t, Tightest(limits).0));
  }

  lemma CalculateDerisks(p: RiskPolicy, a: AccountSnapshot, t: ProposedTrade, s: RiskDocument, equity: real,
                         losses: nat, reserved: Option<real>)
    requires p.Valid() && equity <= a.equity <= a.equityHigh && s.consecutiveLosses <= losses
    requires var worse := Calculate(p, a.(equity := equity), t, s.(consecutiveLosses := losses), StandardLossRule(), reserved);
      worse.Some? && worse.value.approved
    ensures var worse := Calculate(p, a.(equity := equity), t, s.(consecutiveLosses := losses), StandardLossRule(), reserved);
      var better := Calculate(p, a, t, s, StandardLossRule(), reserved);
      better.Some? && better.value.approved && worse.value.maxVolume <= better.value.maxVolume
  {
    var a', s' := a.(equity := equity), s.(consecutiveLosses := losses);
    var f := StandardThresholds(p, s, a);
    ThresholdsIgnoreEquity(p, a, s, equity, losses);
    ApprovalIsSized(p, a', t, s', StandardLossRule(), reserved);
    var low, high := Limits(p, a', t, s', f, reserved.value), Limits(p, a, t, s, f, reserved.value);
    LimitsShrink(p, a, t, s, f, reserved.value, equity, losses);
    TightestShrinks(low, high);
    var worse := Calculate(p, a', t, s', StandardLossRule(), reserved).value;
    var volume := SizedDerisks(worse, p, t, Tightest(low).0, Tightest(high).0);
    SizedIsApproved(p, a, t, s, StandardLossRule(), reserved, volume);
  }

  lemma GateDerisks(p: RiskPolicy, a: AccountSnapshot, t: ProposedTrade, s: RiskDocument, now: Time, equity: real,
                    losses: nat)
    requires equity <= a.equity <= a.equityHigh
    requires Gate(p, a.(equity := equity), t, s.(consecutiveLosses := losses), now).None?
    ensures Gate(p, a, t, s, now).None?
  {
  }

  /** Falling equity and a longer losing streak never raise the volume approved (0 when blocked),
      provided the account values being compared are consistent with the high-water mark. */
  lemma Derisking(p: RiskPolicy, a: AccountSnapshot, t: ProposedTrade, s: RiskDocument, now: Time, equity: real,
                  losses: nat)
    requires equity <= a.equity <= a.equityHigh && s.consecutiveLosses <= losses
    ensures ApprovedVolume(EvaluateTrade(p, a.(equity := equity), t, s.(consecutiveLosses := losses), StandardLossRule(), now))
         <= ApprovedVolume(EvaluateTrade(p, a, t, s, StandardLossRule(), now))
  {
    var a', s', reserved := a.(equity := equity), s.(consecutiveLosses := losses), ReservedRisk(p, s, a);
    assert ReservedRisk(p, s', a') == reserved;
    var worse := EvaluateTrade(p, a', t, s', StandardLossRule(), now);
    if worse.approved {
      GateDerisks(p, a, t, s, now, equity, losses);
      CalculateDerisks(p, a, t, s, equity, losses, reserved);
    }
    ApprovedVolumeNonNegative(p, a, t, s, StandardLossRule(), now);
  }

  /** Equity above its own high-water mark is refused outright. */
  lemma EquityAboveItsHighIsBlocked(p: RiskPolicy, a: AccountSnapshot, t: ProposedTrade, s: RiskDocument,
                                    rule: LossRule, now: Time)
    requires a.equityHigh < a.equity
    ensures ApprovedVolume(EvaluateTrade(p, a, t, s, rule, now)) == 0.0
  {
  }

  /** When the proviso of `Derisking` fails, so does its conclusion, unless nothing is approved either way:
      a fall in equity from above its high-water mark can only raise the approved volume. */
  lemma DeriskingIff(p: RiskPolicy, a: AccountSnapshot, t: ProposedTrade, s: RiskDocument, now: Time, equity: real, losses: nat)
    requires equity <= a.equity && s.consecutiveLosses <= losses
    ensures var low := ApprovedVolume(EvaluateTrade(p, a.(equity := equity), t, s.(consecutiveLosses := losses), StandardLossRule(), now));
      low <= ApprovedVolume(EvaluateTrade(p, a, t, s, StandardLossRule(), now)) <==> a.equity <= a.equityHigh || low == 0.0
  {
    ApprovedVolumeNonNegative(p, a.(equity := equity), t, s.(consecutiveLosses := losses), StandardLossRule(), now);
    if a.equity <= a.equityHigh {
      Derisking(p, a, t, s, now, equity, losses);
    } else {
      EquityAboveItsHighIsBlocked(p, a, t, s, StandardLossRule(), now);
    }
  }
}
