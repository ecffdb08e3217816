/** What a run can never take back: stops, high-water marks, the day's lock and the invalidation mark. */
module Latches {
  import opened Account
  import opened Calendar
  import opened Decision
  import opened Evolution
  import opened Ledger
  import opened LedgerLaws
  import opened Manager
  import opened Outcomes
  import opened Policy
  import opened Reserved
  import opened Runs
  import opened Safety
  import opened Store

  // ----- Facts that evolution never undoes -----

  ghost predicate AccountLocked(d: RiskDocument) { d.accountLocked }

  ghost function HighsAtLeast(balance: real, equity: real): RiskDocument -> bool
  {
    (d: RiskDocument) => balance <= d.balanceHigh && equity <= d.equityHigh
  }

  ghost function InvalidatedSince(t: Time): RiskDocument -> bool
  {
    (d: RiskDocument) => NotBefore(d.invalidatedAfter, Some(t))
  }

  /** Day `locked` is locked as it was captured, or the account has moved to a later day. */
  ghost function DayLockedOrOver(p: RiskPolicy, locked: DayReference): RiskDocument -> bool
  {
    (d: RiskDocument) =>
      d.policy == p && OnCalendar(p, d.day.day)
      && ((d.day == locked && d.dailyLocked) || locked.day.start < d.day.day.start)
  }

  lemma LatchesAreSteadfast(balance: real, equity: real, t: Time)
    ensures Steadfast(AccountLocked) && Steadfast(HighsAtLeast(balance, equity)) && Steadfast(InvalidatedSince(t))
  {
  }

  lemma SameStartSameDay(p: RiskPolicy, day: TradingDay, other: TradingDay)
    requires NeverRewindsADay(p.calendar.zone) && OnCalendar(p, day) && OnCalendar(p, other)
    requires day.start == other.start
    ensures day == other
  {
    var t :| DayAt(p.calendar, t) == Some(day);
    var u :| DayAt(p.calendar, u) == Some(other);
    DaysTile(p.calendar, t, u);
  }

  lemma DayLockIsSteadfast(p: RiskPolicy, locked: DayReference)
    requires NeverRewindsADay(p.calendar.zone) && OnCalendar(p, locked.day)
    ensures Steadfast(DayLockedOrOver(p, locked))
  {
    forall d, d', freed | DayLockedOrOver(p, locked)(d) && Evolves(d, d', freed)
      ensures DayLockedOrOver(p, locked)(d')
    {
      if d.day == locked && d'.day.day != d.day.day && d'.day.day.start == locked.day.start {
        SameStartSameDay(p, d'.day.day, locked.day);
      }
    }
  }

  // ----- Latching over runs -----

  /** Once no surviving document lacks the account lock, no run clears it; nor do high-water marks fall. */
  lemma AccountLockIsForever(writes: Writes, w: World, events: seq<Event>, balance: real, equity: real)
    requires w.disk.Valid() && w.Holds(AccountedDocument)
    requires w.Holds(AccountLocked) && w.Holds(HighsAtLeast(balance, equity))
    ensures Run(writes, w, events).Holds(AccountLocked)
    ensures Run(writes, w, events).Holds(HighsAtLeast(balance, equity))
  {
    LatchesAreSteadfast(balance, equity, 0);
    SteadfastForever(writes, w, events, AccountLocked);
    SteadfastForever(writes, w, events, HighsAtLeast(balance, equity));
  }

  /** Day `reference` is the document's as it was captured, or the account has moved to a later day. */
  ghost function DayCapturedOrOver(p: RiskPolicy, reference: DayReference): RiskDocument -> bool
  {
    (d: RiskDocument) =>
      d.policy == p && OnCalendar(p, d.day.day) && (d.day == reference || reference.day.start < d.day.day.start)
  }

  ghost function CapturedOnce(reference: DayReference): RiskDocument -> bool
  {
    (d: RiskDocument) => d.day.day == reference.day ==> d.day == reference
  }

  lemma DayCapturedIsSteadfast(p: RiskPolicy, reference: DayReference)
    requires NeverRewindsADay(p.calendar.zone) && OnCalendar(p, reference.day)
    ensures Steadfast(DayCapturedOrOver(p, reference))
  {
    forall d, d', freed | DayCapturedOrOver(p, reference)(d) && Evolves(d, d', freed)
      ensures DayCapturedOrOver(p, reference)(d')
    {
      if d.day == reference && d'.day.day != d.day.day && d'.day.day.start == reference.day.start {
        SameStartSameDay(p, d'.day.day, reference.day);
      }
    }
  }

  lemma DayCapturedMeans(p: RiskPolicy, reference: DayReference)
    ensures forall d | DayCapturedOrOver(p, reference)(d) :: CapturedOnce(reference)(d)
  {
  }

  /** Locked or not, a day's reference values are the same in every document a run ever leaves in that
      day: they change only with a later trading day. */
  lemma DayReferenceIsConstant(writes: Writes, w: World, events: seq<Event>, p: RiskPolicy, reference: DayReference)
    requires NeverRewindsADay(p.calendar.zone) && OnCalendar(p, reference.day)
    requires w.disk.Valid() && w.Holds(AccountedDocument) && w.Holds(DayCapturedOrOver(p, reference))
    ensures Run(writes, w, events).Holds(CapturedOnce(reference))
  {
    DayCapturedIsSteadfast(p, reference);
    SteadfastForever(writes, w, events, DayCapturedOrOver(p, reference));
    DayCapturedMeans(p, reference);
    HoldsWeaker(Run(writes, w, events), DayCapturedOrOver(p, reference), CapturedOnce(reference));
  }

  // ----- Who may turn the day -----

  /** The day is the same and its lock has not been cleared. */
  predicate KeepsDay(d: RiskDocument, d': RiskDocument)
  {
    d'.day == d.day && (d.dailyLocked ==> d'.dailyLocked)
  }

  ghost predicate MachineKeepsDay(m: Machine, m': Machine)
  {
    KeepsDay(m.doc, m'.doc) && forall d | d in m'.disk.durable :: d in m.disk.durable || KeepsDay(m.doc, d)
  }

  lemma PersistKeepsDay(writes: Writes, m: Machine, d: RiskDocument)
    requires KeepsDay(m.doc, d)
    ensures MachineKeepsDay(m, Persisted(writes, m.(doc := d)).0)
  {
  }

  /** A reconciliation whose first write fails or whose snapshot is not accepted. */
  ghost predicate TurnedAway(writes: Writes, m: Machine, a: AccountSnapshot, now: Time)
  {
    writes(m.disk.writes) != Written || Accepts(m.doc, a, now, ReservedRisk(m.doc.policy, m.doc, a)).Err?
  }

  lemma TurnedAwayKeepsDay(writes: Writes, rule: LossRule, m: Machine, a: AccountSnapshot, now: Time)
    requires TurnedAway(writes, m, a, now)
    ensures MachineKeepsDay(m, Reconciled(writes, rule, m, a, now).0) && Reconciled(writes, rule, m, a, now).1.Err?
  {
    PersistKeepsDay(writes, m, m.doc.(needsReconciliation := true));
  }

  /** The event reconciles, and its snapshot is accepted after a reported write. */
  ghost predicate MayTurnDay(writes: Writes, w: World, e: Event)
  {
    && w.session.Some? && (e.Reconcile? || e.BeforeSubmit?)
    && !TurnedAway(writes, Machine(w.session.value, w.disk), e.snapshot, e.now)
  }

  lemma LatchingKeepsDay(writes: Writes, m: Machine, account: bool, daily: bool)
    ensures MachineKeepsDay(m, Latched(writes, m, account, daily).0)
  {
    PersistKeepsDay(writes, m, m.doc.(accountLocked := m.doc.accountLocked || account, dailyLocked := m.doc.dailyLocked || daily));
  }

  lemma DisconnectingKeepsDay(writes: Writes, m: Machine)
    ensures MachineKeepsDay(m, DisconnectedFrom(writes, m).0)
  {
    PersistKeepsDay(writes, m, Disconnecting(m.doc));
  }

  lemma ReleasingKeepsDay(writes: Writes, m: Machine, token: Authorization)
    ensures MachineKeepsDay(m, Released(writes, m, token).0)
  {
    if TokenMatches(m.doc, token).Ok? {
      PersistKeepsDay(writes, m, Releasing(m.doc, token.RequestId()));
    }
  }

  lemma ExecutingKeepsDay(writes: Writes, m: Machine, x: Execution)
    ensures MachineKeepsDay(m, Executed(writes, m, x).0)
  {
    PersistKeepsDay(writes, m, AfterExecution(m.doc, x).0);
  }

  lemma ClosingKeepsDay(writes: Writes, m: Machine, setup: string, at: Time, terminal: bool)
    ensures MachineKeepsDay(m, SetupClosed(writes, m, setup, at, terminal).0)
  {
    PersistKeepsDay(writes, m, AfterSetupClosed(m.doc, setup, at, terminal).0);
  }

  lemma AuthorizingKeepsDay(writes: Writes, rule: LossRule, m: Machine, a: AccountSnapshot, t: ProposedTrade, now: Time)
    ensures MachineKeepsDay(m, Authorized(writes, rule, m, a, t, now).0)
  {
    var decision := EvaluateTrade(m.doc.policy, a, t, m.doc, rule, now);
    PersistKeepsDay(writes, m, if decision.approved then Reserve(m.doc, t, decision, now) else m.doc);
  }

  lemma SubmittingKeepsDay(writes: Writes, rule: LossRule, m: Machine, token: Authorization, refreshed: ProposedTrade,
                           a: AccountSnapshot, now: Time)
    requires TurnedAway(writes, m, a, now)
    ensures MachineKeepsDay(m, Submitted(writes, rule, m, token, refreshed, a, now).0)
  {
    TurnedAwayKeepsDay(writes, rule, m, a, now);
  }

  /** Only a reconciliation that is written ahead and accepts its snapshot turns the day or clears the
      daily lock, in any document it leaves anywhere; no other event does. */
  lemma OnlyReconcilingTurnsTheDay(writes: Writes, w: World, e: Event)
    requires w.session.Some? && !StartsOrStops(e) && !MayTurnDay(writes, w, e)
    ensures var w' := Next(writes, w, e);
      w'.session.Some? && MachineKeepsDay(Machine(w.session.value, w.disk), Machine(w'.session.value, w'.disk))
  {
    var m := Machine(w.session.value, w.disk);
    match e
    case Reconcile(a, rule, now) => TurnedAwayKeepsDay(writes, rule, m, a, now);
    case Authorize(a, t, rule, now) => AuthorizingKeepsDay(writes, rule, m, a, t, now);
    case BeforeSubmit(token, refreshed, a, rule, now) => SubmittingKeepsDay(writes, rule, m, token, refreshed, a, now);
    case Execute(x) => ExecutingKeepsDay(writes, m, x);
    case CloseSetup(setup, at, terminal) => ClosingKeepsDay(writes, m, setup, at, terminal);
    case LatchStops(account, daily) => LatchingKeepsDay(writes, m, account, daily);
    case Disconnect => DisconnectingKeepsDay(writes, m);
    case Reject(token) => ReleasingKeepsDay(writes, m, token);
  }

  /** Stopping and restarting leave every document's day and daily lock as they were. */
  lemma StoppingKeepsDays(writes: Writes, w: World, e: Event)
    requires w.disk.Valid() && StartsOrStops(e)
    ensures var w' := Next(writes, w, e);
      && w'.disk.durable == w.disk.durable
      && (w'.session.Some? ==> w'.session == w.session || KeepsDay(w.disk.document, w'.session.value))
  {
  }

  /** A document that is in day `locked` holds it locked and as captured. */
  ghost function LockedThatDay(locked: DayReference): RiskDocument -> bool
  {
    (d: RiskDocument) => d.day.day == locked.day ==> d.day == locked && d.dailyLocked
  }

  lemma DayLockedOrOverMeans(p: RiskPolicy, locked: DayReference)
    ensures forall d | DayLockedOrOver(p, locked)(d) :: LockedThatDay(locked)(d)
  {
  }

  lemma HoldsWeaker(w: World, P: RiskDocument -> bool, Q: RiskDocument -> bool)
    requires w.Holds(P) && forall d | P(d) :: Q(d)
    ensures w.Holds(Q)
  {
  }

  /** A day once locked everywhere stays locked for as long as any document is in that day, and its
      reference values stay as captured: the lock ends only with a later trading day. */
  lemma DayLockLastsItsDay(writes: Writes, w: World, events: seq<Event>, p: RiskPolicy,
                           locked: DayReference)
    requires NeverRewindsADay(p.calendar.zone) && OnCalendar(p, locked.day)
    requires w.disk.Valid() && w.Holds(AccountedDocument) && w.Holds(DayLockedOrOver(p, locked))
    ensures Run(writes, w, events).Holds(LockedThatDay(locked))
  {
    DayLockIsSteadfast(p, locked);
    SteadfastForever(writes, w, events, DayLockedOrOver(p, locked));
    DayLockedOrOverMeans(p, locked);
    HoldsWeaker(Run(writes, w, events), DayLockedOrOver(p, locked), LockedThatDay(locked));
  }

  /** A successful reconciliation at or below an internal floor leaves that lock set, in the one
      document that can survive. */
  lemma StopsLatch(writes: Writes, rule: LossRule, m: Machine, a: AccountSnapshot, now: Time)
    requires Reconciled(writes, rule, m, a, now).1.Ok?
    ensures var after, adopted := Reconciled(writes, rule, m, a, now).0, Adopted(m.doc.(needsReconciliation := true), a);
      && after.disk.durable == {after.doc}
      && !after.doc.needsReconciliation && after.doc.lastReconciledAt == Some(a.observedAt)
      && Newer(a.observedAt, m.doc.invalidatedAfter)
      && rule(adopted.policy, adopted, a).Some?
      && (a.equity <= rule(adopted.policy, adopted, a).value.internalAccountFloor ==> after.doc.accountLocked)
      && (a.equity <= rule(adopted.policy, adopted, a).value.internalDailyFloor ==> after.doc.dailyLocked)
  {
    var raised := m.doc.(needsReconciliation := true);
    var (m1, p) := Persisted(writes, m.(doc := raised));
    var (d, r) := Applied(raised, a, rule, now);
    WrittenAhead(writes, m1.(doc := d.(needsReconciliation := false)));
  }

  /** A stop latched by hand holds after a power loss exactly when its write was reported successful. */
  lemma LockSurvivesIffReported(writes: Writes, m: Machine)
    requires m.disk.Valid() && forall d | d in m.disk.durable :: !d.accountLocked
    ensures var (after, r) := Latched(writes, m, true, false);
      (forall d | d in after.disk.durable :: d.accountLocked) <==> r.Ok?
  {
    assert m.disk.document in m.disk.durable;
  }

  // ----- Invalidation -----

  /** Once every surviving document carries the mark, no run ever approves a trade on a snapshot
      that is not strictly newer than it. */
  lemma NoApprovalOnAnOlderSnapshot(writes: Writes, w: World, events: seq<Event>, t: Time,
                                    a: AccountSnapshot, trade: ProposedTrade, rule: LossRule, now: Time)
    requires w.disk.Valid() && w.Holds(AccountedDocument) && w.Holds(InvalidatedSince(t))
    requires Run(writes, w, events).session.Some?
    requires var d := Run(writes, w, events).session.value;
      EvaluateTrade(d.policy, a, trade, d, rule, now).approved
    ensures t < a.observedAt
  {
    LatchesAreSteadfast(0.0, 0.0, t);
    SteadfastForever(writes, w, events, InvalidatedSince(t));
    var d := Run(writes, w, events).session.value;
    ApprovalIsCovered(d.policy, a, trade, d, rule, now);
    GateOpen(d.policy, a, trade, d, now);
  }

  /** A new execution's invalidation, of its own time and of the last reconciliation, is in every
      surviving document exactly when the write was not reported failed. */
  lemma InvalidationSurvivesIffReported(writes: Writes, m: Machine, e: Execution)
    requires m.disk.Valid() && e.eventId !in m.doc.executions
    requires forall d | d in m.disk.durable :: !NotBefore(d.invalidatedAfter, Some(e.occurredAt))
    ensures var (after, r) := Executed(writes, m, e);
      && NotBefore(after.doc.invalidatedAfter, Some(e.occurredAt)) && NotBefore(after.doc.invalidatedAfter, m.doc.lastReconciledAt)
      && after.doc.needsReconciliation
      && ((forall d | d in after.disk.durable :: InvalidatedSince(e.occurredAt)(d)) <==> r != Err(Storage))
  {
    assert m.disk.document in m.disk.durable;
  }

  // ----- Reconciliations that are refused half done -----

  /** The snapshot has no evidence to adopt: same day, nothing reserved is resolved, no new high. */
  predicate Uneventful(d: RiskDocument, a: AccountSnapshot)
  {
    && a.dayReference.day == d.day.day
    && d.reservations.Keys !! a.resolvedRequests
    && a.balanceHigh <= d.balanceHigh && a.equityHigh <= d.equityHigh
  }

  /** Judging records nothing new: the snapshot is the last one again, and no floor sets a lock. */
  predicate AlreadyJudged(d: RiskDocument, a: AccountSnapshot, f: Thresholds)
  {
    && d.lastSequence == Some(a.sequence) && d.lastReconciledAt == Some(a.observedAt)
    && (a.equity <= f.internalDailyFloor ==> d.dailyLocked)
    && (a.equity <= f.internalAccountFloor ==> d.accountLocked)
  }

  lemma AdoptingNothing(d: RiskDocument, a: AccountSnapshot)
    ensures Adopted(d, a) == d <==> Uneventful(d, a)
  {
    if d.reservations.Keys !! a.resolvedRequests {
      assert Unresolved(d.reservations, a.resolvedRequests) == d.reservations;
    } else {
      var id :| id in d.reservations && id in a.resolvedRequests;
      assert id !in Adopted(d, a).reservations;
    }
  }

  lemma JudgingNothing(d: RiskDocument, a: AccountSnapshot, f: Thresholds)
    ensures Judged(Adopted(d, a), a, f) == d <==> Uneventful(d, a) && AlreadyJudged(d, a, f)
  {
    AdoptingNothing(d, a);
    if Judged(Adopted(d, a), a, f) == d {
      LocksOnlySet(d, a, f);
    }
  }

  lemma LocksOnlySet(d: RiskDocument, a: AccountSnapshot, f: Thresholds)
    requires Judged(Adopted(d, a), a, f) == d
    ensures Uneventful(d, a) && AlreadyJudged(d, a, f)
  {
    var adopted := Adopted(d, a);
    assert adopted.day == d.day && adopted.reservations == d.reservations;
    forall id | id in d.reservations ensures id !in a.resolvedRequests { assert id in adopted.reservations; }
  }

  /** The document as the reconciliation first writes it, before it looks at the snapshot. */
  function Raised(d: RiskDocument): RiskDocument { d.(needsReconciliation := true) }

  ghost function FloorsAfterAdopting(rule: LossRule, d: RiskDocument, a: AccountSnapshot): Option<Thresholds>
  {
    rule(Adopted(Raised(d), a).policy, Adopted(Raised(d), a), a)
  }

  lemma RefusedReconciliation(writes: Writes, rule: LossRule, m: Machine, a: AccountSnapshot, now: Time)
    requires Reconciled(writes, rule, m, a, now).1.Err?
    ensures var after, f := Reconciled(writes, rule, m, a, now).0.doc, FloorsAfterAdopting(rule, m.doc, a);
      after == if TurnedAway(writes, m, a, now) then Raised(m.doc)
               else if f.None? then Adopted(Raised(m.doc), a)
               else Judged(Adopted(Raised(m.doc), a), a, f.value)
  {
    assert Accepts(Raised(m.doc), a, now, ReservedRisk(m.doc.policy, Raised(m.doc), a))
        == Accepts(m.doc, a, now, ReservedRisk(m.doc.policy, m.doc, a));
  }

  /** A reconciliation that returns an error has changed nothing but the flag exactly when it was turned
      away before adopting anything, or there was nothing to adopt and either the rule failed or there
      was nothing to judge. This holds of every rule, the standard one included. */
  lemma RefusedReconciliationIff(writes: Writes, rule: LossRule, m: Machine, a: AccountSnapshot, now: Time)
    requires Reconciled(writes, rule, m, a, now).1.Err?
    ensures var f := FloorsAfterAdopting(rule, m.doc, a);
      Reconciled(writes, rule, m, a, now).0.doc == Raised(m.doc) <==>
        || TurnedAway(writes, m, a, now)
        || (Uneventful(m.doc, a) && (f.Some? ==> AlreadyJudged(m.doc, a, f.value)))
  {
    RefusedReconciliation(writes, rule, m, a, now);
    AdoptingNothing(Raised(m.doc), a);
    var f := FloorsAfterAdopting(rule, m.doc, a);
    if f.Some? {
      JudgingNothing(Raised(m.doc), a, f.value);
    }
  }

  /** The error of a refused reconciliation says which write or check refused it. */
  lemma RefusalIsNamed(writes: Writes, rule: LossRule, m: Machine, a: AccountSnapshot, now: Time)
    requires Reconciled(writes, rule, m, a, now).1.Err? && !TurnedAway(writes, m, a, now)
    ensures Reconciled(writes, rule, m, a, now).1 ==
      if FloorsAfterAdopting(rule, m.doc, a).None? then Err(RuleFailed) else Err(Storage)
  {
    assert Accepts(Raised(m.doc), a, now, ReservedRisk(m.doc.policy, Raised(m.doc), a))
        == Accepts(m.doc, a, now, ReservedRisk(m.doc.policy, m.doc, a));
  }
}
