/** The protocol's answers on the account of `Reachability`, in numbers. */
module Instances {
  import opened Account
  import opened Answers
  import opened Approvals
  import opened Calendar
  import opened Closings
  import opened Decimals
  import opened Decision
  import opened Exposures
  import opened Ledger
  import opened Manager
  import opened Outcomes
  import opened Reachability
  import opened Reserved
  import opened Restarts
  import opened Runs
  import opened Store
  import opened Sums

  // ----- Sizes by tier -----

  lemma TwelveAUnit()
    ensures ESTIMATE.UnitLoss(20.0) == Some(12.0)
    ensures forall v: real :: AllIn(POLICY, TRADE, v) == 12.0 * v
  {
    UnitLossIsAllIn(ESTIMATE, 20.0, 10.0, 100.0);
  }

  lemma AllowedBelow(a: AccountSnapshot, f: Thresholds, reserved: real, factor: real, percent: real, more: real, less: real)
    requires !Allowed(POLICY, a, TRADE, f, reserved, factor, percent, more)
    requires Allowed(POLICY, a, TRADE, f, reserved, factor, percent, less)
    ensures less < more
  {
  }

  lemma BuyableUnits(a: AccountSnapshot, f: Thresholds, reserved: real, factor: real, percent: real, n: int)
    requires 1 <= n <= 50
    requires Allowed(POLICY, a, TRADE, f, reserved, factor, percent, (12 * n) as real)
    ensures Buyable(POLICY, a, TRADE, f, reserved, factor, percent, n as real)
  {
    TwelveAUnit();
    assert n as real == Multiple(n, 1.0);
    assert AllIn(POLICY, TRADE, n as real) == (12 * n) as real;
  }

  lemma NoMoreUnits(a: AccountSnapshot, f: Thresholds, reserved: real, factor: real, percent: real, n: int, v: real)
    requires !Allowed(POLICY, a, TRADE, f, reserved, factor, percent, (12 * n + 12) as real)
    requires Buyable(POLICY, a, TRADE, f, reserved, factor, percent, v)
    ensures v <= n as real
  {
    TwelveAUnit();
    var k: int :| v == Multiple(k, 1.0);
    AllowedBelow(a, f, reserved, factor, percent, (12 * n + 12) as real, AllIn(POLICY, TRADE, v));
    assert 12 * k < 12 * n + 12;
  }

  /** Stated for any approval, so that the decision need not be unfolded. */
  lemma UnitsBought(a: AccountSnapshot, f: Thresholds, reserved: real, factor: real, percent: real, n: int,
                    approved: bool, volume: real, amount: real)
    requires 1 <= n <= 50
    requires Allowed(POLICY, a, TRADE, f, reserved, factor, percent, (12 * n) as real)
    requires !Allowed(POLICY, a, TRADE, f, reserved, factor, percent, (12 * n + 12) as real)
    requires ESTIMATE.UnitLoss(20.0).Some?
    requires approved <==> exists v: real :: Buyable(POLICY, a, TRADE, f, reserved, factor, percent, v)
    requires approved ==> Buyable(POLICY, a, TRADE, f, reserved, factor, percent, volume) && amount == AllIn(POLICY, TRADE, volume)
    requires approved ==> forall v: real :: Buyable(POLICY, a, TRADE, f, reserved, factor, percent, v) ==> v <= volume
    ensures approved && volume == n as real && amount == (12 * n) as real
  {
    BuyableUnits(a, f, reserved, factor, percent, n);
    NoMoreUnits(a, f, reserved, factor, percent, n, volume);
    TwelveAUnit();
  }

  /** At a loss of 12 a unit, `n` units are approved when `n` of them are within the five amounts and one more is not. */
  lemma ApprovesUnits(d: RiskDocument, a: AccountSnapshot, f: Thresholds, reserved: real, factor: real, percent: real, n: int)
    requires Gate(POLICY, a, TRADE, d, NOW).None? && ReservedRisk(POLICY, d, a) == Some(reserved)
    requires StandardThresholds(POLICY, d, a) == f && OrderedFloors(f)
    requires StreakFactor(POLICY, d.consecutiveLosses, factor) && DrawdownPercent(POLICY, f.drawdownReference, a.equity, percent)
    requires 1 <= n <= 50
    requires Allowed(POLICY, a, TRADE, f, reserved, factor, percent, (12 * n) as real)
    requires !Allowed(POLICY, a, TRADE, f, reserved, factor, percent, (12 * n + 12) as real)
    ensures var decision := EvaluateTrade(POLICY, a, TRADE, d, StandardLossRule(), NOW);
      decision.approved && decision.maxVolume == n as real && decision.allowedRiskAmount == (12 * n) as real
  {
    TwelveAUnit();
    ApprovedExactlyWhenBuyable(POLICY, a, TRADE, d, StandardLossRule(), NOW, factor, percent);
    var decision := EvaluateTrade(POLICY, a, TRADE, d, StandardLossRule(), NOW);
    UnitsBought(a, f, reserved, factor, percent, n, decision.approved, decision.maxVolume, decision.allowedRiskAmount);
  }

  lemma LosingPasses(losses: nat)
    ensures Gate(POLICY, SNAPSHOT, TRADE, RECONCILED.(consecutiveLosses := losses), NOW).None?
  {
    TodayIsADay();
    DefaultPolicyIsValid();
  }

  lemma AtTheMark()
    ensures DrawdownPercent(POLICY, 10000.0, 10000.0, 1.0)
  {
    assert FallenInto(DRAWDOWN_TIERS, 0, 10000.0, 10000.0);
  }

  /** Three losses in a row leave a quarter of the base risk: 25, which buys 2 units at 24 where 8 were bought before. */
  lemma ThreeLosses()
    ensures var d := EvaluateTrade(POLICY, SNAPSHOT, TRADE, RECONCILED.(consecutiveLosses := 3), StandardLossRule(), NOW);
      d.approved && d.maxVolume == 2.0 && d.allowedRiskAmount == 24.0
  {
    var s := RECONCILED.(consecutiveLosses := 3);
    LosingPasses(3);
    NothingReservedYet(s, SNAPSHOT);
    StandardFloors(s, SNAPSHOT);
    assert InTier(STREAK_TIERS, 3, 3.0);
    assert StreakFactor(POLICY, 3, 0.25);
    AtTheMark();
    assert Pct(10000.0, 1.0) == 100.0 && 100.0 * 0.25 == 25.0;
    ApprovesUnits(s, SNAPSHOT, FLOORS, 0.0, 0.25, 1.0, 2);
  }

  /** The same account at a later day, whose captured values leave the daily floor below 2.5 percent of drawdown. */
  const LATER: DayReference := DayReference(TODAY.day, 9700.0, 9700.0)

  function Fallen(equity: real): AccountSnapshot
  {
    SNAPSHOT.(balance := 9750.0, equity := equity, dayReference := LATER)
  }

  const LATER_FLOORS: Thresholds := Thresholds(10000.0, 10000.0, 9500.0, 9400.0, 9700.0, 9506.0, 9409.0)

  lemma FallenPasses(equity: real)
    requires 9700.0 <= equity <= 10000.0
    ensures Gate(POLICY, Fallen(equity), TRADE, RECONCILED.(day := LATER), NOW).None?
    ensures StandardThresholds(POLICY, RECONCILED.(day := LATER), Fallen(equity)) == LATER_FLOORS
  {
    TodayIsADay();
    DefaultPolicyIsValid();
  }

  lemma NoLosses()
    ensures StreakFactor(POLICY, 0, 1.0)
  {
    assert InTier(STREAK_TIERS, 0, 0.0);
  }

  /** At a drawdown of just 2.5 percent the first tier has been left: half a percent, 50, which buys 4 units at 48. */
  lemma DrawdownTier()
    ensures var d := EvaluateTrade(POLICY, Fallen(9750.0), TRADE, RECONCILED.(day := LATER), StandardLossRule(), NOW);
      d.approved && d.maxVolume == 4.0 && d.allowedRiskAmount == 48.0
  {
    var s := RECONCILED.(day := LATER);
    FallenPasses(9750.0);
    NothingReservedYet(s, Fallen(9750.0));
    NoLosses();
    assert FallenInto(DRAWDOWN_TIERS, 1, 10000.0, 9750.0);
    assert DrawdownPercent(POLICY, 10000.0, 9750.0, 0.5);
    assert Pct(10000.0, 1.0) == 100.0 && Pct(10000.0, 0.5) == 50.0;
    ApprovesUnits(s, Fallen(9750.0), LATER_FLOORS, 0.0, 1.0, 0.5, 4);
  }

  /** A hundredth above it, the whole base risk still stands and buys 8 units. */
  lemma BeforeTheDrawdownTier()
    ensures var d := EvaluateTrade(POLICY, Fallen(9750.01), TRADE, RECONCILED.(day := LATER), StandardLossRule(), NOW);
      d.approved && d.maxVolume == 8.0 && d.allowedRiskAmount == 96.0
  {
    var s := RECONCILED.(day := LATER);
    FallenPasses(9750.01);
    NothingReservedYet(s, Fallen(9750.01));
    NoLosses();
    assert FallenInto(DRAWDOWN_TIERS, 0, 10000.0, 9750.01);
    assert DrawdownPercent(POLICY, 10000.0, 9750.01, 1.0);
    assert Pct(10000.0, 1.0) == 100.0;
    ApprovesUnits(s, Fallen(9750.01), LATER_FLOORS, 0.0, 1.0, 1.0, 8);
  }

  // ----- An exposure without a request -----

  const POSITION: Exposure := Exposure("position:1", None, 5.0, ESTIMATE, false)

  const EXPOSED: AccountSnapshot := SNAPSHOT.(equity := 9860.0, exposures := [POSITION])

  lemma PositionRisksSixty()
    ensures POSITION.Risk(20.0, 1.0) == Some(60.0)
  {
    TwelveAUnit();
    RiskIsAllIn(POSITION, 20.0, 1.0);
  }

  lemma ExposedCounts()
    ensures ReservedRisk(POLICY, RECONCILED, EXPOSED).Some?
  {
    PositionRisksSixty();
    ReservedRiskExists(POLICY, RECONCILED, EXPOSED);
  }

  lemma SixtyReserved()
    ensures ReservedRisk(POLICY, RECONCILED, EXPOSED) == Some(60.0)
  {
    var before := EXPOSED.(exposures := []);
    ExposedCounts();
    PositionRisksSixty();
    NothingReservedYet(RECONCILED, before);
    assert before.(exposures := before.exposures + [POSITION]) == EXPOSED;
    ExposureAdds(POLICY, RECONCILED, before, POSITION);
  }

  /** A position that carries no request is charged its risk of 60, which is all the room the day has left: the
      trade is refused for the daily budget. */
  lemma UnlinkedExposureBlocks()
    ensures ReservedRisk(POLICY, RECONCILED, EXPOSED) == Some(60.0)
    ensures var d := EvaluateTrade(POLICY, EXPOSED, TRADE, RECONCILED, StandardLossRule(), NOW);
      !d.approved && d.limitingPolicy == DailyBudget
  {
    SixtyReserved();
    ExposedIsRefused();
  }

  lemma ExposedIsRefused()
    requires ReservedRisk(POLICY, RECONCILED, EXPOSED) == Some(60.0)
    ensures var d := EvaluateTrade(POLICY, EXPOSED, TRADE, RECONCILED, StandardLossRule(), NOW);
      !d.approved && d.limitingPolicy == DailyBudget
  {
    ExposedPasses();
    StandardFloors(RECONCILED, EXPOSED);
    NoLosses();
    assert FallenInto(DRAWDOWN_TIERS, 0, 10000.0, 9860.0);
    assert DrawdownPercent(POLICY, 10000.0, 9860.0, 1.0);
    NoRoomLeft();
    RefusalReasons(POLICY, EXPOSED, TRADE, RECONCILED, StandardLossRule(), NOW);
  }

  lemma ExposedPasses()
    ensures Gate(POLICY, EXPOSED, TRADE, RECONCILED, NOW).None?
  {
    TodayIsADay();
    DefaultPolicyIsValid();
  }

  lemma NoRoomLeft()
    requires ReservedRisk(POLICY, RECONCILED, EXPOSED) == Some(60.0)
    ensures Tightest(Limits(POLICY, EXPOSED, TRADE, RECONCILED, FLOORS, 60.0)) == (0.0, DailyBudget)
    ensures !EvaluateTrade(POLICY, EXPOSED, TRADE, RECONCILED, StandardLossRule(), NOW).approved
  {
    var drawdown := ShortfallPct(10000.0, 9860.0);
    assert drawdown == 1.4;
    FirstTiers(drawdown);
    var limits := Limits(POLICY, EXPOSED, TRADE, RECONCILED, FLOORS, 60.0);
    assert limits == [(100.0, BaseRisk), (100.0, LimitReason.Streak), (100.0, Drawdown), (0.0, DailyBudget), (300.0, AccountBudget)];
    FourthIsTightest(limits);
    StandardFloors(RECONCILED, EXPOSED);
    if EvaluateTrade(POLICY, EXPOSED, TRADE, RECONCILED, StandardLossRule(), NOW).approved {
      ApprovalIsCovered(POLICY, EXPOSED, TRADE, RECONCILED, StandardLossRule(), NOW);
      assert false;
    }
  }

  lemma FourthIsTightest(limits: seq<Limit>)
    requires |limits| == 5 && limits[3].0 < limits[0].0 && limits[3].0 < limits[1].0 && limits[3].0 < limits[2].0 && limits[3].0 < limits[4].0
    ensures Tightest(limits) == limits[3]
  {
    assert Tightest(limits).0 <= limits[3].0;
  }

  // ----- Refreshing an order -----

  /** The order with a rate that has moved against the account currency by a hundredth. */
  const CONVERTED: ProposedTrade := TRADE.(estimate := ESTIMATE.(conversion := 0.99))

  /** The order with its stop moved up by five. */
  const RESTOPPED: ProposedTrade := TRADE.(estimate := ESTIMATE.(stop := Some(95.0)))

  /** A rate may have moved since the authorization; a stop may not. */
  lemma RatesMoveStopsDoNot(w: Writes, rule: LossRule, m: Machine, token: Authorization, a: AccountSnapshot, now: Time)
    requires TokenMatches(m.doc, token).Ok? && token.request == TRADE
    ensures Submitted(w, rule, m, token, CONVERTED, a, now).1 != Err(OrderTermsChanged)
    ensures Submitted(w, rule, m, token, RESTOPPED, a, now).1 == Err(OrderTermsChanged)
  {
    TermsChangedExactlyWhen(w, rule, m, token, CONVERTED, a, now);
    TermsChangedExactlyWhen(w, rule, m, token, RESTOPPED, a, now);
  }

  /** A snapshot that is not whole is not reconciled with. */
  lemma IncompleteIsRefused(w: Writes, rule: LossRule, m: Machine, now: Time)
    ensures Reconciled(w, rule, m, SNAPSHOT.(complete := false), now).1.Err?
    ensures Reconciled(w, rule, m, SNAPSHOT.(setupsReconciled := false), now).1.Err?
  {
    var one, other := SNAPSHOT.(complete := false), SNAPSHOT.(setupsReconciled := false);
    AdoptedHas(Flagged(m.doc), one);
    ReconciledExactlyWhen(w, rule, m, one, now, Adopted(Flagged(m.doc), one));
    AdoptedHas(Flagged(m.doc), other);
    ReconciledExactlyWhen(w, rule, m, other, now, Adopted(Flagged(m.doc), other));
  }

  // ----- A restart -----

  /** The trade that a reconciled session would be approved is refused by the session that a restart opens. */
  lemma RestartBlocks(w: World)
    requires w.session.None? && w.disk.document == RECONCILED
    ensures var w' := Next(Reliable(), w, Begin("a", POLICY));
      && w'.session.Some? && w'.session.value.needsReconciliation
      && EvaluateTrade(POLICY, SNAPSHOT, TRADE, w'.session.value, StandardLossRule(), NOW).limitingPolicy == LimitReason.Reconciliation
    ensures EvaluateTrade(POLICY, SNAPSHOT, TRADE, RECONCILED, StandardLossRule(), NOW).approved
  {
    DefaultPolicyIsValid();
    BeginOpens(Reliable(), w, "a", POLICY);
    var d := RECONCILED.(needsReconciliation := true);
    GateReasons(POLICY, SNAPSHOT, TRADE, d, NOW);
    FlaggedIsNotApproved(StandardLossRule(), d, SNAPSHOT, TRADE, NOW);
    RefusalReasons(POLICY, SNAPSHOT, TRADE, d, StandardLossRule(), NOW);
    var decision := Approves(RECONCILED);
  }

  // ----- A setup closed at its last execution -----

  const OPENED_AT_ONE: Execution := Execution("e1", "s", "p", 1, 1.0, 0.0)
  const CLOSED_AT_TWO: Execution := Execution("e2", "s", "p", 2, -1.0, -5.0)

  const ROUND_TRIP: Events := map["e1" := OPENED_AT_ONE, "e2" := CLOSED_AT_TWO]

  lemma RoundTripSums(f: Execution -> real)
    ensures SumBy(ROUND_TRIP, f) == f(OPENED_AT_ONE) + f(CLOSED_AT_TWO)
  {
    var none: Events := map[];
    SumByInsert(none, f, "e1", OPENED_AT_ONE);
    SumByInsert(none["e1" := OPENED_AT_ONE], f, "e2", CLOSED_AT_TWO);
    assert none["e1" := OPENED_AT_ONE]["e2" := CLOSED_AT_TWO] == ROUND_TRIP;
  }

  lemma RoundTripIsFlat()
    ensures Complete(ROUND_TRIP, "s", 2) && AllFlat(ROUND_TRIP, "s")
    ensures SumBy(ROUND_TRIP, ResultOf("s")) == -5.0
  {
    RoundTripSums(VolumeOf("s", "p"));
    RoundTripSums(ResultOf("s"));
    assert "e1" in ROUND_TRIP && ROUND_TRIP["e1"] == OPENED_AT_ONE;
    assert Flat(ROUND_TRIP, "s", "p");
  }

  /** One unit opened at 1 and closed at 2 for a loss of 5, closed as a setup at 2: it is sealed, and the losing
      streak is one. */
  lemma ClosedAtItsLastExecution()
    ensures var (after, r) := AfterSetupClosed(RECONCILED.(executions := ROUND_TRIP), "s", 2, true);
      && r.Ok? && after.outcomes == map["s" := SetupOutcome("s", 2, -5.0)] && after.consecutiveLosses == 1
  {
    var d := RECONCILED.(executions := ROUND_TRIP);
    RoundTripIsFlat();
    ClosingExactlyWhen(d, "s", 2, true);
    var none: map<string, SetupOutcome> := map[];
    var after := AfterSetupClosed(d, "s", 2, true).0;
    assert after.outcomes == none["s" := SetupOutcome("s", 2, -5.0)];
    NoOutcomesNoStreak(POLICY.streakBackoff);
    LatestOutcomeMoves(POLICY.streakBackoff, none, "s", SetupOutcome("s", 2, -5.0));
  }

  /** A setup of charges alone has opened nothing and is not sealed. */
  lemma ChargesAloneAreNotSealed()
    ensures AfterSetupClosed(RECONCILED.(executions := map["f" := Execution("f", "s", "p", 1, 0.0, -1.0)]), "s", 2, true).1 == Err(SetupNotClosed)
  {
    var es: Events := map["f" := Execution("f", "s", "p", 1, 0.0, -1.0)];
    assert "f" in es && es["f"].setupId == "s";
    assert !Flat(es, "s", "p");
    ClosingExactlyWhen(RECONCILED.(executions := es), "s", 2, true);
  }

  // ----- Trading days in New York -----

  lemma WinterReset(local: int)
    requires -60 * DAY <= local <= 100 * DAY
    ensures OnlyInstant(NEW_YORK, local, local + 5 * HOUR)
  {
    WinterInstant(local);
    SingleIff(NEW_YORK, local, local + 5 * HOUR);
  }

  /** Every winter instant has a day of 24 hours, from 22:00 to 22:00 by universal time; the reset itself begins one. */
  lemma WinterDays(now: Time, date: int)
    requires -60 <= date < 99 && date * DAY + 22 * HOUR <= now < (date + 1) * DAY + 22 * HOUR
    ensures DayAt(CALENDAR, now) == Some(TradingDay(date * DAY + 22 * HOUR, (date + 1) * DAY + 22 * HOUR))
  {
    NewYorkOffset(now);
    WinterReset(date * DAY + 17 * HOUR);
    WinterReset((date + 1) * DAY + 17 * HOUR);
    DayAtIff(CALENDAR, now, TradingDay(date * DAY + 22 * HOUR, (date + 1) * DAY + 22 * HOUR), date);
  }

  lemma SpringReset()
    ensures OnlyInstant(NEW_YORK, 115 * DAY + 17 * HOUR, 115 * DAY + 21 * HOUR)
  {
    forall u: Time ensures LocalAt(NEW_YORK, u) == 115 * DAY + 17 * HOUR <==> u == 115 * DAY + 21 * HOUR { NewYorkOffset(u); }
  }

  lemma EveOfSpringReset()
    ensures OnlyInstant(NEW_YORK, 114 * DAY + 17 * HOUR, 114 * DAY + 22 * HOUR)
  {
    forall u: Time ensures LocalAt(NEW_YORK, u) == 114 * DAY + 17 * HOUR <==> u == 114 * DAY + 22 * HOUR { NewYorkOffset(u); }
  }

  /** The day that the clock goes forward has 23 hours, from 22:00 to 21:00 by universal time. */
  lemma SpringDay(now: Time)
    requires 114 * DAY + 22 * HOUR <= now < 115 * DAY + 21 * HOUR
    ensures DayAt(CALENDAR, now) == Some(TradingDay(114 * DAY + 22 * HOUR, 115 * DAY + 21 * HOUR))
  {
    NewYorkOffset(now);
    EveOfSpringReset();
    SpringReset();
    DayAtIff(CALENDAR, now, TradingDay(114 * DAY + 22 * HOUR, 115 * DAY + 21 * HOUR), 114);
  }

  /** A reset at 02:30 does not happen on that day, and no day begins or ends at it. */
  lemma MissingResetHasNoDay(now: Time)
    requires 114 * DAY + 8 * HOUR <= now < 115 * DAY + 10 * HOUR
    ensures DayAt(TradingCalendar(NEW_YORK, 5 * HOUR / 2), now).None?
  {
    var calendar := TradingCalendar(NEW_YORK, 5 * HOUR / 2);
    forall u: Time ensures LocalAt(NEW_YORK, u) != 115 * DAY + 5 * HOUR / 2 { NewYorkOffset(u); }
    NewYorkOffset(now);
    var day := DayAt(calendar, now);
    if day.Some? {
      DateIsRunning(calendar, now);
      DayAtIff(calendar, now, day.value, DateAt(calendar, now));
      MissingResetRuns(now);
    }
  }

  lemma MissingResetRuns(now: Time)
    requires 114 * DAY + 8 * HOUR <= now < 115 * DAY + 10 * HOUR
    ensures DateAt(TradingCalendar(NEW_YORK, 5 * HOUR / 2), now) in {114, 115}
  {
    NewYorkOffset(now);
    DateIsRunning(TradingCalendar(NEW_YORK, 5 * HOUR / 2), now);
  }
}
