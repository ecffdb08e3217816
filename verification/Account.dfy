/** Account documents, broker snapshots, enrolment and the standard loss rule (adaptive-risk/src/account.rs). */
module Account {
  import opened Calendar
  import opened Decimals
  import opened Exposures
  import opened Outcomes
  import opened Policy

  datatype DayReference = DayReference(day: TradingDay, balance: real, equity: real)

  datatype AccountSnapshot = AccountSnapshot(
    accountId: string,
    observedAt: Time,
    quoteAt: Time,
    balance: real,
    equity: real,
    connected: bool,
    complete: bool,
    sequence: nat,
    dayReference: DayReference,
    balanceHigh: real,
    equityHigh: real,
    exposures: seq<Exposure>,
    resolvedRequests: set<string>,
    setupsReconciled: bool)

  datatype Reservation = Reservation(
    requestId: string, setupId: string, risk: real, volume: real, createdAt: Time, submitted: bool)

  /** One broker event of a setup: what it moved in its position, signed, and what it earned or cost. */
  datatype Execution = Execution(
    eventId: string, setupId: string, positionId: string, occurredAt: Time, volumeDelta: real, netPnl: real)

  datatype SetupOutcome = SetupOutcome(setupId: string, closedAt: Time, netPnl: real)

  /** The value of one account's risk state: what is cloned, compared and written to disk. */
  datatype RiskDocument = RiskDocument(
    accountId: string,
    policy: RiskPolicy,
    initialBalance: real,
    balanceHigh: real,
    equityHigh: real,
    day: DayReference,
    dailyLocked: bool,
    accountLocked: bool,
    consecutiveLosses: nat,
    reservations: map<string, Reservation>,
    attemptedRequests: set<string>,
    executions: map<string, Execution>,
    outcomes: map<string, SetupOutcome>,
    lastSequence: Option<nat>,
    lastReconciledAt: Option<Time>,
    needsReconciliation: bool,
    invalidatedAfter: Option<Time>)

  datatype Thresholds = Thresholds(
    riskReference: real,
    drawdownReference: real,
    internalAccountFloor: real,
    firmAccountFloor: real,
    dailyReference: real,
    internalDailyFloor: real,
    firmDailyFloor: real)

  /** A firm's monetary floors; a custom rule may fail. */
  type LossRule = (RiskPolicy, RiskDocument, AccountSnapshot) -> Option<Thresholds>

  function Enroll(accountId: string, initialBalance: real, day: DayReference, policy: RiskPolicy): Result<RiskDocument>
  {
    if !policy.Valid() then Err(InvalidRiskPolicy)
    else if accountId == "" || initialBalance <= 0.0 || day.balance <= 0.0 || day.equity <= 0.0
            || day.day.end <= day.day.start then Err(InvalidEnrollment)
    else
      Ok(RiskDocument(accountId, policy, initialBalance,
                      Max(initialBalance, day.balance), Max(initialBalance, day.equity), day,
                      false, false, 0, map[], {}, map[], map[], None, None, true, None))
  }

  function DrawdownBase(p: RiskPolicy, s: RiskDocument, a: AccountSnapshot): real
  {
    match p.drawdownReference
    case StaticInitialBalance => s.initialBalance
    case TrailingBalance => Max(Max(s.balanceHigh, a.balanceHigh), a.balance)
    case TrailingEquity => Max(Max(s.equityHigh, a.equityHigh), a.equity)
  }

  function DailyBase(p: RiskPolicy, s: RiskDocument): real
  {
    match p.dailyReference
    case Balance => s.day.balance
    case Equity => s.day.equity
    case HigherOfBalanceAndEquity => Max(s.day.balance, s.day.equity)
  }

  function StandardThresholds(p: RiskPolicy, s: RiskDocument, a: AccountSnapshot): Thresholds
  {
    var reference := DrawdownBase(p, s, a);
    var allowance := if p.trailingAllowanceTracksReference then reference else s.initialBalance;
    var daily := DailyBase(p, s);
    var firmAccount := reference - Pct(allowance, p.maxAccountLossPct);
    var firmDaily := daily - Pct(daily, p.dailyLossLimitPct);
    Thresholds(
      s.initialBalance,
      reference,
      Max(reference - Pct(allowance, p.internalAccountStopPct), firmAccount + Pct(allowance, p.safetyBufferPct)),
      firmAccount,
      daily,
      Max(daily - Pct(daily, p.internalDailyStopPct), firmDaily + Pct(daily, p.safetyBufferPct)),
      firmDaily)
  }

  function StandardLossRule(): LossRule
  {
    (p: RiskPolicy, s: RiskDocument, a: AccountSnapshot) => Some(StandardThresholds(p, s, a))
  }

  /** Every reference the floors are measured from is positive. */
  predicate Funded(s: RiskDocument)
  {
    && s.policy.Valid()
    && 0.0 < s.initialBalance <= s.balanceHigh && s.initialBalance <= s.equityHigh
    && 0.0 < s.day.balance && 0.0 < s.day.equity
  }

  lemma EnrolledIsFunded(accountId: string, initialBalance: real, day: DayReference, policy: RiskPolicy)
    ensures Enroll(accountId, initialBalance, day, policy).Ok? ==>
      Funded(Enroll(accountId, initialBalance, day, policy).value)
  {
  }

  lemma StopAboveFirm(reference: real, allowance: real, internal: real, firm: real, buffer: real)
    requires 0.0 < allowance && 0.0 < internal && 0.0 <= buffer && internal + buffer < firm
    ensures reference - Pct(allowance, firm) + Pct(allowance, buffer) < reference - Pct(allowance, internal) < reference
    ensures reference - Pct(allowance, firm) < reference - Pct(allowance, internal)
  {
    var i, b, f := allowance * internal, allowance * buffer, allowance * firm;
    assert i + b < f by {
      MulStrict(internal + buffer, firm, allowance);
      assert i + b == (internal + buffer) * allowance;
    }
    assert 0.0 < i by { MulPositive(allowance, internal); }
    assert 0.0 <= b by { MulNonNegative(allowance, buffer); }
  }

  /** Policy validation is what keeps the internal floors strictly between the firm's and the reference. */
  lemma StandardFloorsOrdered(s: RiskDocument, a: AccountSnapshot)
    requires Funded(s)
    ensures var f := StandardThresholds(s.policy, s, a);
      && 0.0 < f.riskReference && 0.0 < f.drawdownReference && 0.0 < f.dailyReference
      && f.firmAccountFloor < f.internalAccountFloor < f.drawdownReference
      && f.firmDailyFloor < f.internalDailyFloor < f.dailyReference
  {
    var p := s.policy;
    var reference := DrawdownBase(p, s, a);
    var allowance := if p.trailingAllowanceTracksReference then reference else s.initialBalance;
    StopAboveFirm(reference, allowance, p.internalAccountStopPct, p.maxAccountLossPct, p.safetyBufferPct);
    StopAboveFirm(DailyBase(p, s), DailyBase(p, s), p.internalDailyStopPct, p.dailyLossLimitPct, p.safetyBufferPct);
  }

  /** An account can be enrolled exactly under a valid policy, with an id, positive values and a day that has
      length. It starts unlocked, empty, unreconciled, with its marks at the initial balance or the day's value. */
  lemma EnrollsExactlyWhen(accountId: string, initialBalance: real, day: DayReference, policy: RiskPolicy)
    ensures Enroll(accountId, initialBalance, day, policy).Ok? <==>
      && policy.Valid() && accountId != "" && 0.0 < initialBalance && 0.0 < day.balance && 0.0 < day.equity && day.day.start < day.day.end
    ensures Enroll(accountId, initialBalance, day, policy).Ok? ==>
      var d := Enroll(accountId, initialBalance, day, policy).value;
      && d.accountId == accountId && d.policy == policy && d.initialBalance == initialBalance && d.day == day
      && d.balanceHigh == (if initialBalance < day.balance then day.balance else initialBalance)
      && d.equityHigh == (if initialBalance < day.equity then day.equity else initialBalance)
      && !d.dailyLocked && !d.accountLocked && d.consecutiveLosses == 0 && d.needsReconciliation
      && d.reservations == map[] && d.attemptedRequests == {} && d.executions == map[] && d.outcomes == map[]
      && d.lastSequence.None? && d.lastReconciledAt.None? && d.invalidatedAfter.None?
  {
  }

  /** `x` is the greatest of three. */
  predicate IsGreatest(x: real, a: real, b: real, c: real)
  {
    (x == a || x == b || x == c) && a <= x && b <= x && c <= x
  }

  /** The standard rule's references: risk is a share of the initial balance; drawdown falls from the initial
      balance, or trails the highest balance or equity recorded or shown; the day falls from its captured value. */
  lemma StandardReferences(s: RiskDocument, a: AccountSnapshot)
    ensures var p, f := s.policy, StandardThresholds(s.policy, s, a);
      && f.riskReference == s.initialBalance
      && (p.drawdownReference.StaticInitialBalance? ==> f.drawdownReference == s.initialBalance)
      && (p.drawdownReference.TrailingBalance? ==> IsGreatest(f.drawdownReference, s.balanceHigh, a.balanceHigh, a.balance))
      && (p.drawdownReference.TrailingEquity? ==> IsGreatest(f.drawdownReference, s.equityHigh, a.equityHigh, a.equity))
      && (p.dailyReference == DailyReference.Balance ==> f.dailyReference == s.day.balance)
      && (p.dailyReference == DailyReference.Equity ==> f.dailyReference == s.day.equity)
      && (p.dailyReference.HigherOfBalanceAndEquity? ==> IsGreatest(f.dailyReference, s.day.balance, s.day.equity, s.day.equity))
  {
  }

  /** The standard rule's floors: each lies the policy's percentage of the allowance below its reference, the
      allowance being the initial balance unless it tracks the reference. The safety buffer never decides,
      because a valid policy keeps the internal stop and the buffer together below the firm's limit. */
  lemma FloorsBelowReferences(s: RiskDocument, a: AccountSnapshot)
    requires Funded(s)
    ensures var p, f := s.policy, StandardThresholds(s.policy, s, a);
      var allowance := if p.trailingAllowanceTracksReference then f.drawdownReference else s.initialBalance;
      && f.firmAccountFloor == f.drawdownReference - Pct(allowance, p.maxAccountLossPct)
      && f.internalAccountFloor == f.drawdownReference - Pct(allowance, p.internalAccountStopPct)
      && f.firmDailyFloor == f.dailyReference - Pct(f.dailyReference, p.dailyLossLimitPct)
      && f.internalDailyFloor == f.dailyReference - Pct(f.dailyReference, p.internalDailyStopPct)
  {
    var p := s.policy;
    var reference := DrawdownBase(p, s, a);
    var allowance := if p.trailingAllowanceTracksReference then reference else s.initialBalance;
    StopAboveFirm(reference, allowance, p.internalAccountStopPct, p.maxAccountLossPct, p.safetyBufferPct);
    StopAboveFirm(DailyBase(p, s), DailyBase(p, s), p.internalDailyStopPct, p.dailyLossLimitPct, p.safetyBufferPct);
  }
}
