/** Inputs on which the protocol does less than one might expect, each on the account of `Reachability`. */
module Counterexamples {
  import opened Account
  import opened Calendar
  import opened Decimals
  import opened Decision
  import opened Exposures
  import opened Latches
  import opened Manager
  import opened Outcomes
  import opened Policy
  import opened Reachability
  import opened Reserved
  import opened Store

  // ----- Reconciliations refused half done -----

  const HELD: Reservation := Reservation("r", "s", 96.0, 8.0, NOW, false)

  /** The account with one request reserved and not submitted. */
  const HOLDING: RiskDocument := RECONCILED.(reservations := map["r" := HELD], attemptedRequests := {"r"})

  /** A snapshot that proves the request absent. */
  const RESOLVING: AccountSnapshot := SNAPSHOT.(resolvedRequests := {"r"})

  const YESTERDAY: DayReference := DayReference(TradingDay(-26 * HOUR, -2 * HOUR), 10000.0, 10000.0)

  /** The same account the day before, when the daily lock was set. */
  const LOCKED: RiskDocument := HOLDING.(day := YESTERDAY, dailyLocked := true)

  ghost function Stored(d: RiskDocument): Machine { Machine(d, Disk(d, {d}, 0)) }

  /** Only the first write succeeds. */
  ghost function OnlyFirst(): Writes { (n: nat) => if n == 0 then Written else NotRenamed }

  /** A custom rule that cannot compute its floors. */
  ghost function FailingRule(): LossRule { (p: RiskPolicy, d: RiskDocument, a: AccountSnapshot) => None }

  lemma ResolvingIsAccepted(d: RiskDocument)
    requires d == HOLDING || d == LOCKED
    ensures Accepts(d, RESOLVING, NOW, ReservedRisk(d.policy, d, RESOLVING)).Ok?
  {
    TodayIsADay();
  }

  lemma FirstWrite(writes: Writes, d: RiskDocument)
    requires writes(0) == Written
    ensures Persisted(writes, Stored(d).(doc := Raised(d))) == (Machine(Raised(d), Disk(Raised(d), {Raised(d)}, 1)), Ok(()))
  {
  }

  lemma StillAccepted(d: RiskDocument)
    requires d == HOLDING || d == LOCKED
    ensures Accepts(Raised(d), RESOLVING, NOW, ReservedRisk(d.policy, Raised(d), RESOLVING)).Ok?
  {
    ResolvingIsAccepted(d);
  }

  /** The standard rule, an accepted snapshot, and a second write that fails: the error returns with the
      reservation gone from memory while every document that could come back still holds it. */
  lemma RefusedBySecondWrite()
    ensures var (after, r) := Reconciled(OnlyFirst(), StandardLossRule(), Stored(HOLDING), RESOLVING, NOW);
      && r == Err(Storage) && "r" !in after.doc.reservations
      && after.doc != Raised(HOLDING)
      && forall d | d in after.disk.durable :: "r" in d.reservations
  {
    FirstWrite(OnlyFirst(), HOLDING);
    StillAccepted(HOLDING);
    assert "r" !in Adopted(Raised(HOLDING), RESOLVING).reservations;
  }

  /** A rule that fails on a new day: the error returns with the reservation gone and the daily lock cleared
      in memory, while every document that could come back still has both. */
  lemma RefusedByRule()
    ensures var (after, r) := Reconciled(Reliable(), FailingRule(), Stored(LOCKED), RESOLVING, NOW);
      && r == Err(RuleFailed) && "r" !in after.doc.reservations && !after.doc.dailyLocked
      && after.doc != Raised(LOCKED)
      && forall d | d in after.disk.durable :: "r" in d.reservations && d.dailyLocked
  {
    FirstWrite(Reliable(), LOCKED);
    StillAccepted(LOCKED);
    assert "r" !in Adopted(Raised(LOCKED), RESOLVING).reservations;
  }

  // ----- Equity above its high-water mark -----

  /** A fall in equity from 10001, above the high-water mark of 10000, to 10000 raises the approved volume from 0 to 8. */
  lemma FallingEquityCanApprove()
    ensures ApprovedVolume(EvaluateTrade(POLICY, SNAPSHOT.(equity := 10001.0), TRADE, RECONCILED, StandardLossRule(), NOW)) == 0.0
    ensures ApprovedVolume(EvaluateTrade(POLICY, SNAPSHOT, TRADE, RECONCILED, StandardLossRule(), NOW)) == 8.0
  {
    EquityAboveItsHighIsBlocked(POLICY, SNAPSHOT.(equity := 10001.0), TRADE, RECONCILED, StandardLossRule(), NOW);
    var decision := Approves(RECONCILED);
  }

  // ----- The total after a submission -----

  const LOWER: AccountSnapshot := SNAPSHOT.(equity := 9860.0)

  /** The order with its price moved closer to its stop. */
  const CHEAPER: ProposedTrade := TRADE.(estimate := ESTIMATE.(price := 95.0))

  lemma SixAUnit()
    ensures CHEAPER.estimate.UnitLoss(20.0) == Some(6.0)
  {
    assert CHEAPER.estimate.Distance() == 5.0;
    assert Max(5.0, 95.0 / 10000.0) == 5.0 && Pct(5.0, 20.0) == 1.0;
  }

  lemma UpToTen()
    ensures CHEAPER.volume.Size(60.0, CHEAPER.estimate, 20.0, 50.0) == Some(10.0)
  {
    SixAUnit();
    SizeIsGreatest(CHEAPER.volume, 60.0, CHEAPER.estimate, 20.0, 50.0);
    assert 10.0 == Multiple(10, 1.0);
    assert CHEAPER.volume.Fits(10.0, 60.0, CHEAPER.estimate, 20.0, 50.0);
  }

  lemma TenUnits()
    ensures CHEAPER.estimate.Loss(8.0, 20.0) == Some(48.0)
    ensures SizingFor(POLICY, CHEAPER, 60.0) == Fits(10.0, 60.0)
  {
    SixAUnit();
    UpToTen();
    assert Overlap(POLICY, CHEAPER) == 1.0;
    assert 60.0 / 1.0 == 60.0;
  }

  lemma OneReservationCounts(d: RiskDocument)
    requires d.policy == POLICY && d.reservations.Keys == {"r"} && d.reservations["r"].risk == 96.0 && Sound(d.reservations["r"])
    ensures ReservedRisk(POLICY, d, LOWER) == Some(96.0)
  {
    var empty: Reservations := map[];
    assert d.reservations == empty["r" := d.reservations["r"]];
    ReservingAddsAtMost(POLICY.execution, empty, [], "r", d.reservations["r"]);
    assert Charges(POLICY.execution, empty, []) == map[];
  }

  lemma OwnReservationExceeds(decision: RiskDecision)
    requires decision.maxVolume == 8.0 && decision.allowedRiskAmount == 96.0
    ensures var d := Submitting(Reserving(decision), "r");
      && ReservedRisk(d.policy, d, LOWER) == Some(96.0)
      && !Covered(StandardThresholds(d.policy, d, LOWER), LOWER.equity, 96.0)
  {
    var d := Submitting(Reserving(decision), "r");
    OneReservationCounts(d);
    StandardFloors(d, LOWER);
  }

  /** Authorized at 96, the order is submitted when equity leaves a headroom of 60, because re-priced it can
      only lose 48; its own reservation then still counts 96. */
  lemma ReservedCanExceedHeadroom() returns (m: Machine, token: Authorization)
    ensures var (after, r) := Submitted(Reliable(), StandardLossRule(), m, token, CHEAPER, LOWER, NOW);
      && r.Ok? && ReservedRisk(after.doc.policy, after.doc, LOWER) == Some(96.0)
      && !Covered(StandardThresholds(after.doc.policy, after.doc, LOWER), LOWER.equity, 96.0)
  {
    var decision := Approves(RECONCILED);
    m, token := Stored(Reserving(decision)), Authorization("a", POLICY, TRADE, decision);
    TenUnits();
    Submits(m, decision, LOWER, CHEAPER, 10.0, 60.0);
    OwnReservationExceeds(decision);
  }
}
