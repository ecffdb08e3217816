/** The theorems about approvals and submissions are not empty: a run of the default policy that submits. */
module Reachability {
  import opened Account
  import opened Calendar
  import opened Decimals
  import opened Decision
  import opened Exposures
  import opened Manager
  import opened Outcomes
  import opened Policy
  import opened Reserved
  import opened Runs
  import opened Safety
  import opened Store

  /** The default streak and drawdown schedules. */
  const STREAK_TIERS: seq<Tier> := [Tier(0.0, 1.0), Tier(1.0, 0.75), Tier(2.0, 0.5), Tier(3.0, 0.25), Tier(4.0, 0.1)]
  const DRAWDOWN_TIERS: seq<Tier> := [Tier(0.0, 1.0), Tier(2.5, 0.5), Tier(3.5, 0.25), Tier(4.5, 0.1), Tier(5.0, 0.0)]

  const HOUR: int := DAY / 24

  /** New York's clock changes of October 1969, April 1970 and October 1970, on either side of the epoch. */
  const NEW_YORK: Zone := Zone(-4 * HOUR, [
    (-67 * DAY + 6 * HOUR, -5 * HOUR), (115 * DAY + 7 * HOUR, -4 * HOUR), (297 * DAY + 6 * HOUR, -5 * HOUR)])

  /** The default reset, at 17:00. */
  const CALENDAR: TradingCalendar := TradingCalendar(NEW_YORK, 17 * HOUR)

  const POLICY: RiskPolicy := RiskPolicy(
    "1", 1.0, 6.0, 5.0, 3.0, 2.0, 0.25, StaticInitialBalance, DailyReference.Balance, false, CALENDAR,
    StreakBackoff(true, true, false, STREAK_TIERS), DrawdownBackoff(true, DRAWDOWN_TIERS),
    ExecutionPolicy(20.0, 5, 1.0))

  const NOW: Time := 0

  const TODAY: DayReference := DayReference(TradingDay(-2 * HOUR, 22 * HOUR), 10000.0, 10000.0)

  const SNAPSHOT: AccountSnapshot := AccountSnapshot(
    "a", NOW, NOW, 10000.0, 10000.0, true, true, 1, TODAY, 10000.0, 10000.0, [], {}, true)

  const ESTIMATE: LossEstimate := LossEstimate(Buy, 100.0, Some(90.0), 1.0, 1.0, 0.0, 0.0, false)

  /** Asks for 100 at a stop 10 away; with slippage each unit can lose 12. */
  const TRADE: ProposedTrade := ProposedTrade("i", false, "r", "g", "s", ESTIMATE, VolumeLimits(1.0, 100.0, 1.0), 50.0, 100.0)

  const ENROLLED: RiskDocument := RiskDocument(
    "a", POLICY, 10000.0, 10000.0, 10000.0, TODAY, false, false, 0, map[], {}, map[], map[], None, None, true, None)

  lemma NewYorkOffset(t: Time)
    ensures OffsetAt(NEW_YORK, t) ==
      if 297 * DAY + 6 * HOUR <= t then -5 * HOUR
      else if 115 * DAY + 7 * HOUR <= t then -4 * HOUR
      else if -67 * DAY + 6 * HOUR <= t then -5 * HOUR
      else -4 * HOUR
  {
    var two := NEW_YORK.(changes := NEW_YORK.changes[..2]);
    var one := two.(changes := two.changes[..1]);
    assert OffsetAt(one, t) == if -67 * DAY + 6 * HOUR <= t then -5 * HOUR else OffsetAt(one.(changes := []), t);
    assert OffsetAt(two, t) == if 115 * DAY + 7 * HOUR <= t then -4 * HOUR else OffsetAt(one, t);
  }

  /** In winter New York shows each local time at one instant. */
  lemma WinterInstant(local: int)
    requires -60 * DAY <= local <= 100 * DAY
    ensures Single(Instants(NEW_YORK, local)) == Some(local + 5 * HOUR)
  {
    forall t: Time ensures t in Instants(NEW_YORK, local) <==> t == local + 5 * HOUR {
      NewYorkOffset(t);
      InstantsComplete(NEW_YORK, local, t);
    }
    assert Instants(NEW_YORK, local) == {local + 5 * HOUR};
  }

  /** The hypothesis under which trading days tile. */
  lemma NewYorkNeverRewinds()
    ensures NeverRewindsADay(NEW_YORK)
  {
    assert Offsets(NEW_YORK) <= {-4 * HOUR, -5 * HOUR};
    NearbyOffsetsNeverRewind(NEW_YORK);
  }

  lemma DateToday()
    ensures DateAt(CALENDAR, NOW) == -1
  {
    NewYorkOffset(NOW);
  }

  lemma TodayIsADay()
    ensures DayAt(CALENDAR, NOW) == Some(TODAY.day)
  {
    DateToday();
    WinterInstant(-1 * DAY + 17 * HOUR);
    WinterInstant(0 * DAY + 17 * HOUR);
  }

  lemma StreakTiersTighten()
    ensures StartsAtZero(STREAK_TIERS) && Tightens(STREAK_TIERS) && WithinRange(STREAK_TIERS, 1.0)
  {
  }

  lemma DrawdownTiersTighten()
    ensures StartsAtZero(DRAWDOWN_TIERS) && Tightens(DRAWDOWN_TIERS)
  {
  }

  lemma DrawdownTiersWithinRange()
    ensures WithinRange(DRAWDOWN_TIERS, 100.0) && forall tier | tier in DRAWDOWN_TIERS :: 0.0 <= tier.from <= 100.0
  {
  }

  lemma DefaultPolicyIsValid()
    ensures POLICY.Valid()
  {
    TodayIsADay();
    StreakTiersTighten();
    DrawdownTiersTighten();
    DrawdownTiersWithinRange();
    assert POLICY.StopBelowLimit(2.0, 3.0) && POLICY.StopBelowLimit(5.0, 6.0);
  }

  lemma FirstTiers(drawdown: real)
    requires 0.0 <= drawdown < 2.5
    ensures POLICY.StreakMultiplier(0) == 1.0 && POLICY.DrawdownRiskPct(drawdown) == 1.0
  {
    var i := LastReachedIsBand(STREAK_TIERS, 0.0);
    var j := LastReachedIsBand(DRAWDOWN_TIERS, drawdown);
    assert STREAK_TIERS[1].from == 1.0 && DRAWDOWN_TIERS[1].from == 2.5;
  }

  // ----- The same account and order at other equities and prices -----

  /** Today's snapshot with a lower equity. */
  predicate Todays(a: AccountSnapshot)
  {
    a == SNAPSHOT.(equity := a.equity) && 9800.0 < a.equity <= 10000.0
  }

  /** The order at another price. */
  predicate SameOrder(t: ProposedTrade)
  {
    t == TRADE.(estimate := ESTIMATE.(price := t.estimate.price))
  }

  const FLOORS: Thresholds := Thresholds(10000.0, 10000.0, 9500.0, 9400.0, 10000.0, 9800.0, 9700.0)

  /** Ready to trade on the snapshot, with nothing reserved. */
  predicate Ready(d: RiskDocument)
  {
    && d.accountId == "a" && d.policy == POLICY && d.initialBalance == d.balanceHigh == d.equityHigh == 10000.0
    && d.day == TODAY && !d.dailyLocked && !d.accountLocked && d.consecutiveLosses == 0
    && d.reservations == map[] && d.attemptedRequests == {} && d.outcomes == map[] && d.invalidatedAfter == None
    && d.lastSequence == Some(1) && d.lastReconciledAt == Some(NOW) && !d.needsReconciliation
  }

  lemma StandardFloors(d: RiskDocument, a: AccountSnapshot)
    requires d.policy == POLICY && d.initialBalance == 10000.0 && d.day == TODAY
    ensures StandardThresholds(POLICY, d, a) == FLOORS
  {
  }

  /** The daily headroom that `equity` leaves. */
  function RoomAt(equity: real): real { equity - 9800.0 }

  lemma TightestLimit(d: RiskDocument, a: AccountSnapshot, t: ProposedTrade)
    requires Ready(d) && Todays(a) && SameOrder(t)
    ensures Tightest(Limits(POLICY, a, t, d, FLOORS, 0.0)).0 == Min(100.0, RoomAt(a.equity))
  {
    var drawdown := ShortfallPct(10000.0, a.equity);
    assert drawdown == (10000.0 - a.equity) / 100.0;
    FirstTiers(drawdown);
    var limits := Limits(POLICY, a, t, d, FLOORS, 0.0);
    assert limits[0].0 == limits[1].0 == limits[2].0 == 100.0;
    assert limits[3].0 == RoomAt(a.equity) && limits[4].0 == a.equity - 9500.0;
    assert Tightest(limits).0 <= limits[0].0 && Tightest(limits).0 <= limits[3].0;
  }

  lemma NothingReservedYet(d: RiskDocument, a: AccountSnapshot)
    requires d.reservations == map[] && a.exposures == []
    ensures ReservedRisk(POLICY, d, a) == Some(0.0)
  {
    assert Charges(POLICY.execution, d.reservations, []) == map[];
  }

  lemma GatePasses(d: RiskDocument, a: AccountSnapshot, t: ProposedTrade)
    requires Ready(d) && Todays(a) && SameOrder(t)
    ensures Gate(POLICY, a, t, d, NOW).None?
  {
    TodayIsADay();
    DefaultPolicyIsValid();
  }

  lemma ApprovesSized(d: RiskDocument, a: AccountSnapshot, t: ProposedTrade, volume: real, amount: real) returns (decision: RiskDecision)
    requires Ready(d) && Todays(a) && SameOrder(t)
    requires SizingFor(POLICY, t, Min(100.0, RoomAt(a.equity))) == Fits(volume, amount)
    ensures EvaluateTrade(POLICY, a, t, d, StandardLossRule(), NOW) == decision
    ensures decision.approved && decision.maxVolume == volume && decision.allowedRiskAmount == amount
  {
    decision := EvaluateTrade(POLICY, a, t, d, StandardLossRule(), NOW);
    GatePasses(d, a, t);
    NothingReservedYet(d, a);
    StandardFloors(d, a);
    TightestLimit(d, a, t);
    var limits := Limits(POLICY, a, t, d, FLOORS, 0.0);
    CalculatedBy(POLICY, a, t, d, StandardLossRule(), NOW, Some(0.0));
    DecidedIsSized(a, FLOORS, 0.0, limits, SizingFor(POLICY, t, Tightest(limits).0));
  }

  /** Each unit can lose 12 at 100, and 8 of them fit the base risk of 100. */
  lemma EightUnits()
    ensures ESTIMATE.Loss(8.0, 20.0) == Some(96.0)
    ensures SizingFor(POLICY, TRADE, 100.0) == Fits(8.0, 96.0)
  {
    assert ESTIMATE.UnitLoss(20.0) == Some(12.0);
    assert 8.0 < 100.0 / 12.0 < 9.0;
    assert (100.0 / 12.0 / 1.0).Floor == 8;
    assert TRADE.volume.Size(100.0, ESTIMATE, 20.0, 50.0) == Some(8.0);
    assert Overlap(POLICY, TRADE) == 1.0 && 100.0 / 1.0 == 100.0;
  }

  lemma Approves(d: RiskDocument) returns (decision: RiskDecision)
    requires Ready(d)
    ensures EvaluateTrade(POLICY, SNAPSHOT, TRADE, d, StandardLossRule(), NOW) == decision
    ensures decision.approved && decision.maxVolume == 8.0 && decision.allowedRiskAmount == 96.0
  {
    EightUnits();
    decision := ApprovesSized(d, SNAPSHOT, TRADE, 8.0, 96.0);
  }

  /** Nothing ever fails to be written. */
  ghost function Reliable(): Writes { (n: nat) => Written }

  const RECONCILED: RiskDocument :=
    ENROLLED.(lastSequence := Some(1), lastReconciledAt := Some(NOW), needsReconciliation := false)

  ghost function Reserving(decision: RiskDecision): RiskDocument { Reserve(RECONCILED, TRADE, decision, NOW) }

  /** The account as enrolled, with whatever it has reserved and not submitted. */
  predicate Reservable(d: RiskDocument)
  {
    && d.accountId == "a" && d.policy == POLICY && d.day == TODAY && d.invalidatedAfter.None?
    && d.initialBalance == d.balanceHigh == d.equityHigh == 10000.0 && !d.dailyLocked && !d.accountLocked
    && (d.lastSequence.None? || d.lastSequence == Some(1))
    && forall id | id in d.reservations :: Sound(d.reservations[id]) && !d.reservations[id].submitted
  }

  lemma SnapshotAccepted(d: RiskDocument, a: AccountSnapshot)
    requires Reservable(d) && Todays(a)
    ensures Accepts(d, a, NOW, ReservedRisk(d.policy, d, a)).Ok?
  {
    TodayIsADay();
  }

  lemma FloorsAreClear(d: RiskDocument, a: AccountSnapshot)
    requires Reservable(d) && Todays(a)
    ensures Adopted(d, a) == d
    ensures Judged(d, a, StandardThresholds(POLICY, d, a)) == d.(lastSequence := Some(1), lastReconciledAt := Some(NOW))
  {
    StandardFloors(d, a);
    assert Unresolved(d.reservations, {}) == d.reservations;
  }

  /** Reconciling any such document with such a snapshot succeeds and only enables trading. */
  lemma Reconciles(m: Machine, a: AccountSnapshot)
    requires Reservable(m.doc) && Todays(a)
    ensures var (after, r) := Reconciled(Reliable(), StandardLossRule(), m, a, NOW);
      r.Ok? && after.doc == m.doc.(lastSequence := Some(1), lastReconciledAt := Some(NOW), needsReconciliation := false)
  {
    var raised := m.doc.(needsReconciliation := true);
    SnapshotAccepted(raised, a);
    FloorsAreClear(raised, a);
  }

  lemma Enrolls()
    ensures Enroll("a", 10000.0, TODAY, POLICY) == Ok(ENROLLED)
  {
    DefaultPolicyIsValid();
  }

  lemma WithoutIsReady(decision: RiskDecision)
    ensures Ready(Without(Reserving(decision), "r"))
  {
    var others := Without(Reserving(decision), "r");
    assert others.reservations == map[] && others.attemptedRequests == {};
  }

  lemma MaySubmitAgain(decision: RiskDecision, t: ProposedTrade, again: RiskDecision)
    requires decision.maxVolume == 8.0 && decision.allowedRiskAmount == 96.0 && again.approved && 8.0 <= again.maxVolume
    requires SameOrder(t) && t.estimate.Loss(8.0, 20.0).Some? && t.estimate.Loss(8.0, 20.0).value <= 96.0
    ensures MaySubmit(Reserving(decision), Authorization("a", POLICY, TRADE, decision), t, again).Ok?
  {
    assert Overlap(POLICY, t) == 1.0;
  }

  lemma Rechecks(decision: RiskDecision, a: AccountSnapshot, t: ProposedTrade, volume: real, amount: real)
    requires Todays(a) && SameOrder(t) && decision.maxVolume == 8.0 && decision.allowedRiskAmount == 96.0
    requires SizingFor(POLICY, t, Min(100.0, RoomAt(a.equity))) == Fits(volume, amount) && 8.0 <= volume
    requires t.estimate.Loss(8.0, 20.0).Some? && t.estimate.Loss(8.0, 20.0).value <= 96.0
    ensures Rechecked(StandardLossRule(), Reserving(decision), Authorization("a", POLICY, TRADE, decision), t, a, NOW).Ok?
  {
    WithoutIsReady(decision);
    var again := ApprovesSized(Without(Reserving(decision), "r"), a, t, volume, amount);
    MaySubmitAgain(decision, t, again);
  }

  /** Once authorized, the order may be submitted on such a snapshot and at such a price. */
  lemma Submits(m: Machine, decision: RiskDecision, a: AccountSnapshot, t: ProposedTrade, volume: real, amount: real)
    requires m.doc == Reserving(decision) && decision.maxVolume == 8.0 && decision.allowedRiskAmount == 96.0
    requires Todays(a) && SameOrder(t) && SizingFor(POLICY, t, Min(100.0, RoomAt(a.equity))) == Fits(volume, amount) && 8.0 <= volume
    requires t.estimate.Loss(8.0, 20.0).Some? && t.estimate.Loss(8.0, 20.0).value <= 96.0
    ensures Submitted(Reliable(), StandardLossRule(), m, Authorization("a", POLICY, TRADE, decision), t, a, NOW).1.Ok?
    ensures Submitted(Reliable(), StandardLossRule(), m, Authorization("a", POLICY, TRADE, decision), t, a, NOW).0.doc
         == Submitting(m.doc, "r")
  {
    Reconciles(m, a);
    assert Reconciled(Reliable(), StandardLossRule(), m, a, NOW).0.doc == m.doc;
    assert SameTerms(TRADE, t);
    Rechecks(decision, a, t, volume, amount);
  }

  // ----- The run, one event at a time -----

  lemma Begins(w: World)
    requires w.session.None? && w.disk.document == ENROLLED
    ensures Next(Reliable(), w, Begin("a", POLICY)) == w.(session := Some(ENROLLED))
  {
    DefaultPolicyIsValid();
  }

  lemma SessionReconciles(writes: Writes, w: World, a: AccountSnapshot, rule: LossRule, now: Time)
    requires w.session.Some?
    ensures var w' := Next(writes, w, Event.Reconcile(a, rule, now));
      w'.submitted == w.submitted
      && w'.session == Some(Reconciled(writes, rule, Machine(w.session.value, w.disk), a, now).0.doc)
  {
  }

  lemma SessionAuthorizes(writes: Writes, w: World, a: AccountSnapshot, t: ProposedTrade, rule: LossRule, now: Time)
    requires w.session.Some?
    ensures var w' := Next(writes, w, Authorize(a, t, rule, now));
      w'.submitted == w.submitted
      && w'.session == Some(Authorized(writes, rule, Machine(w.session.value, w.disk), a, t, now).0.doc)
  {
  }

  lemma SessionSubmits(writes: Writes, w: World, token: Authorization, t: ProposedTrade, a: AccountSnapshot, rule: LossRule, now: Time)
    requires w.session.Some?
    ensures Next(writes, w, BeforeSubmit(token, t, a, rule, now)).submitted ==
      if Submitted(writes, rule, Machine(w.session.value, w.disk), token, t, a, now).1.Ok? then w.submitted + [token.RequestId()]
      else w.submitted
  {
  }

  lemma AuthorizesReserving(m: Machine, decision: RiskDecision)
    requires m.doc == RECONCILED && decision.approved
    requires EvaluateTrade(POLICY, SNAPSHOT, TRADE, RECONCILED, StandardLossRule(), NOW) == decision
    ensures Authorized(Reliable(), StandardLossRule(), m, SNAPSHOT, TRADE, NOW).0.doc == Reserving(decision)
  {
  }

  /** A run from enrolment in which a trade is approved and its order submitted. */
  lemma SubmissionIsReachable() returns (w: World, events: seq<Event>)
    ensures Start(w) && Run(Reliable(), w, events).submitted == ["r"]
  {
    w := World(None, Disk(ENROLLED, {ENROLLED}, 0), map[], [], {});
    Enrolls();
    var begun := w.(session := Some(ENROLLED));
    Begins(w);
    var writes, rule := Reliable(), StandardLossRule();
    var reconcile, authorize := Event.Reconcile(SNAPSHOT, rule, NOW), Authorize(SNAPSHOT, TRADE, rule, NOW);
    var reconciled := Next(writes, begun, reconcile);
    SessionReconciles(writes, begun, SNAPSHOT, rule, NOW);
    Reconciles(Machine(ENROLLED, begun.disk), SNAPSHOT);
    var decision := Approves(RECONCILED);
    var authorized := Next(writes, reconciled, authorize);
    SessionAuthorizes(writes, reconciled, SNAPSHOT, TRADE, rule, NOW);
    AuthorizesReserving(Machine(RECONCILED, reconciled.disk), decision);
    var token := Authorization("a", POLICY, TRADE, decision);
    EightUnits();
    Submits(Machine(Reserving(decision), authorized.disk), decision, SNAPSHOT, TRADE, 8.0, 96.0);
    SessionSubmits(writes, authorized, token, TRADE, SNAPSHOT, rule, NOW);
    events := RunOfFour(writes, w, Begin("a", POLICY), reconcile, authorize, BeforeSubmit(token, TRADE, SNAPSHOT, rule, NOW));
  }

  lemma RunThen(writes: Writes, w: World, events: seq<Event>, e: Event)
    ensures Run(writes, w, events + [e]) == Next(writes, Run(writes, w, events), e)
  {
    assert (events + [e])[..|events|] == events;
  }

  lemma RunOfFour(writes: Writes, w: World, a: Event, b: Event, c: Event, d: Event) returns (events: seq<Event>)
    ensures Run(writes, w, events) == Next(writes, Next(writes, Next(writes, Next(writes, w, a), b), c), d)
  {
    RunThen(writes, w, [], a);
    RunThen(writes, w, [] + [a], b);
    RunThen(writes, w, [] + [a] + [b], c);
    RunThen(writes, w, [] + [a] + [b] + [c], d);
    events := [] + [a] + [b] + [c] + [d];
  }
}
