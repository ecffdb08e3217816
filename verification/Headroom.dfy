/** Reserved risk stays above the loss floors: for one authorization, over runs, and at submission. */
module Headroom {
  import opened Account
  import opened Calendar
  import opened Decimals
  import opened Decision
  import opened Evolution
  import opened Exposures
  import opened Ledger
  import opened Manager
  import opened Outcomes
  import opened Policy
  import opened Reserved
  import opened Runs
  import opened Safety
  import opened Store

  /** Reserving an approved trade keeps the total within headroom, for every rule. */
  lemma ApprovedReservationIsCovered(rule: LossRule, d: RiskDocument, a: AccountSnapshot, t: ProposedTrade, now: Time)
    requires AccountedDocument(d) && EvaluateTrade(d.policy, a, t, d, rule, now).approved
    ensures rule(d.policy, d, a).Some? && OrderedFloors(rule(d.policy, d, a).value)
    ensures var d', f := Reserve(d, t, EvaluateTrade(d.policy, a, t, d, rule, now), now), rule(d.policy, d, a).value;
      && ReservedRisk(d'.policy, d', a).Some?
      && Covered(f, a.equity, ReservedRisk(d'.policy, d', a).value)
      && f.firmDailyFloor < a.equity - ReservedRisk(d'.policy, d', a).value
      && f.firmAccountFloor < a.equity - ReservedRisk(d'.policy, d', a).value
  {
    var decision := EvaluateTrade(d.policy, a, t, d, rule, now);
    ApprovalIsCovered(d.policy, a, t, d, rule, now);
    GateOpen(d.policy, a, t, d, now);
    var r := Reservation(t.requestId, t.setupId, decision.allowedRiskAmount, decision.maxVolume, now, false);
    ReservingAddsAtMost(d.policy.execution, d.reservations, a.exposures, t.requestId, r);
  }

  // ----- Runs against one snapshot, under the standard rule -----

  /** The day is the snapshot's, and all reserved risk fits above both internal floors. */
  ghost predicate WithinHeadroom(d: RiskDocument, a: AccountSnapshot)
  {
    && d.day == a.dayReference
    && ReservedRisk(d.policy, d, a).Some?
    && Covered(StandardThresholds(d.policy, d, a), a.equity, ReservedRisk(d.policy, d, a).value)
  }

  lemma HeadroomIsAboveFirmFloors(d: RiskDocument, a: AccountSnapshot)
    requires Funded(d) && WithinHeadroom(d, a)
    ensures var f, reserved := StandardThresholds(d.policy, d, a), ReservedRisk(d.policy, d, a).value;
      f.firmDailyFloor < a.equity - reserved && f.firmAccountFloor < a.equity - reserved
  {
    StandardFloorsOrdered(d, a);
  }

  /** The floors see only the references; nothing a session does against the same snapshot moves them. */
  lemma SameFloors(d: RiskDocument, d': RiskDocument, a: AccountSnapshot)
    requires d'.policy == d.policy && d'.initialBalance == d.initialBalance && d'.day == d.day
    requires d.balanceHigh <= d'.balanceHigh <= Max(d.balanceHigh, a.balanceHigh)
    requires d.equityHigh <= d'.equityHigh <= Max(d.equityHigh, a.equityHigh)
    ensures StandardThresholds(d'.policy, d', a) == StandardThresholds(d.policy, d, a)
  {
  }

  /** What a step that authorizes nothing does to the terms of headroom. */
  ghost predicate NothingReserved(d: RiskDocument, d': RiskDocument, a: AccountSnapshot)
  {
    && d'.policy == d.policy && d'.initialBalance == d.initialBalance
    && (d.day == a.dayReference ==> d'.day == d.day)
    && d.balanceHigh <= d'.balanceHigh <= Max(d.balanceHigh, a.balanceHigh)
    && d.equityHigh <= d'.equityHigh <= Max(d.equityHigh, a.equityHigh)
    && d'.reservations.Keys <= d.reservations.Keys
    && (forall id | id in d'.reservations :: SameReservation(d.reservations[id], d'.reservations[id]))
  }

  lemma HeadroomKept(d: RiskDocument, d': RiskDocument, a: AccountSnapshot)
    requires Surcharges(d.policy.execution) && NothingReserved(d, d', a) && WithinHeadroom(d, a)
    ensures WithinHeadroom(d', a)
  {
    SameFloors(d, d', a);
    ReleasingNeverAdds(d.policy.execution, d.reservations, d'.reservations, a.exposures);
  }

  lemma RaisedReservesNothing(d: RiskDocument, d': RiskDocument, a: AccountSnapshot)
    requires NothingReserved(d, d', a)
    ensures NothingReserved(d, d'.(needsReconciliation := true), a)
  {
  }

  /** Every document the step leaves, in memory or on disk, has reserved nothing since the one in memory before. */
  ghost predicate Quietly(m: Machine, m': Machine, a: AccountSnapshot)
  {
    && NothingReserved(m.doc, m'.doc, a)
    && (forall d | d in m'.disk.durable :: d in m.disk.durable || NothingReserved(m.doc, d, a))
  }

  lemma PersistQuietly(writes: Writes, m: Machine, m1: Machine, d: RiskDocument, a: AccountSnapshot)
    requires (m1.disk == m.disk || Quietly(m, m1, a)) && NothingReserved(m.doc, d, a)
    ensures Quietly(m, Persisted(writes, m1.(doc := d)).0, a)
  {
    RaisedReservesNothing(m.doc, d, a);
  }

  lemma AdoptingReservesNothing(d: RiskDocument, a: AccountSnapshot)
    ensures NothingReserved(d, Adopted(d, a), a)
  {
  }

  lemma JudgingReservesNothing(d: RiskDocument, d': RiskDocument, a: AccountSnapshot, f: Thresholds)
    requires NothingReserved(d, d', a)
    ensures NothingReserved(d, Judged(d', a, f), a)
  {
  }

  lemma ClearedReservesNothing(d: RiskDocument, d': RiskDocument, a: AccountSnapshot)
    requires NothingReserved(d, d', a)
    ensures NothingReserved(d, d'.(needsReconciliation := false), a)
  {
  }

  lemma UnchangedReservesNothing(d: RiskDocument, a: AccountSnapshot)
    ensures NothingReserved(d, d, a)
  {
  }

  lemma AppliedReservesNothing(d: RiskDocument, a: AccountSnapshot, rule: LossRule, now: Time)
    ensures var after := Applied(d, a, rule, now).0;
      NothingReserved(d, after, a) && NothingReserved(d, after.(needsReconciliation := false), a)
  {
    var adopted := Adopted(d, a);
    UnchangedReservesNothing(d, a);
    AdoptingReservesNothing(d, a);
    var f := rule(adopted.policy, adopted, a);
    if f.Some? {
      JudgingReservesNothing(d, adopted, a, f.value);
    }
    ClearedReservesNothing(d, Applied(d, a, rule, now).0, a);
  }

  lemma ReservesNothingSinceRaised(d: RiskDocument, d': RiskDocument, a: AccountSnapshot)
    requires NothingReserved(d.(needsReconciliation := true), d', a)
    ensures NothingReserved(d, d', a)
  {
  }

  lemma ReconcilingIsQuiet(writes: Writes, rule: LossRule, m: Machine, a: AccountSnapshot, now: Time)
    ensures Quietly(m, Reconciled(writes, rule, m, a, now).0, a)
  {
    var raised := m.doc.(needsReconciliation := true);
    PersistQuietly(writes, m, m, raised, a);
    var (m1, p) := Persisted(writes, m.(doc := raised));
    if p.Ok? {
      var (d, r) := Applied(raised, a, rule, now);
      AppliedReservesNothing(raised, a, rule, now);
      ReservesNothingSinceRaised(m.doc, d, a);
      if r.Ok? {
        ReservesNothingSinceRaised(m.doc, d.(needsReconciliation := false), a);
        PersistQuietly(writes, m, m1, d.(needsReconciliation := false), a);
      }
    }
  }

  lemma ThenSubmittingReservesNothing(d: RiskDocument, d': RiskDocument, id: string, a: AccountSnapshot)
    requires NothingReserved(d, d', a) && id in d'.reservations
    ensures NothingReserved(d, Submitting(d', id), a)
  {
  }

  lemma SubmittingIsQuiet(writes: Writes, rule: LossRule, m: Machine, token: Authorization, refreshed: ProposedTrade,
                          a: AccountSnapshot, now: Time)
    ensures Quietly(m, Submitted(writes, rule, m, token, refreshed, a, now).0, a)
  {
    if TokenMatches(m.doc, token).Ok? && SameTerms(token.request, refreshed) {
      ReconcilingIsQuiet(writes, rule, m, a, now);
      var (m1, r) := Reconciled(writes, rule, m, a, now);
      if r.Ok? && Rechecked(rule, m1.doc, token, refreshed, a, now).Ok? {
        ThenSubmittingReservesNothing(m.doc, m1.doc, token.RequestId(), a);
        PersistQuietly(writes, m, m1, Submitting(m1.doc, token.RequestId()), a);
      }
    }
  }

  /** Everything that headroom depends on is left alone. */
  predicate SameExposure(d: RiskDocument, d': RiskDocument)
  {
    && d'.policy == d.policy && d'.initialBalance == d.initialBalance && d'.day == d.day
    && d'.balanceHigh == d.balanceHigh && d'.equityHigh == d.equityHigh && d'.reservations == d.reservations
  }

  lemma ExecutionSameExposure(d: RiskDocument, e: Execution)
    ensures SameExposure(d, AfterExecution(d, e).0)
  {
  }

  lemma ClosingSameExposure(d: RiskDocument, setup: string, at: Time, terminal: bool)
    ensures SameExposure(d, AfterSetupClosed(d, setup, at, terminal).0)
  {
  }

  lemma SameExposureReservesNothing(d: RiskDocument, d': RiskDocument, a: AccountSnapshot)
    requires SameExposure(d, d')
    ensures NothingReserved(d, d', a)
  {
  }

  lemma ExecutingIsQuiet(writes: Writes, m: Machine, e: Execution, a: AccountSnapshot)
    ensures Quietly(m, Executed(writes, m, e).0, a)
  {
    ExecutionSameExposure(m.doc, e);
    SameExposureReservesNothing(m.doc, AfterExecution(m.doc, e).0, a);
    PersistQuietly(writes, m, m, AfterExecution(m.doc, e).0, a);
  }

  lemma ClosingIsQuiet(writes: Writes, m: Machine, setup: string, at: Time, terminal: bool, a: AccountSnapshot)
    ensures Quietly(m, SetupClosed(writes, m, setup, at, terminal).0, a)
  {
    ClosingSameExposure(m.doc, setup, at, terminal);
    SameExposureReservesNothing(m.doc, AfterSetupClosed(m.doc, setup, at, terminal).0, a);
    PersistQuietly(writes, m, m, AfterSetupClosed(m.doc, setup, at, terminal).0, a);
  }

  lemma LatchingIsQuiet(writes: Writes, m: Machine, account: bool, daily: bool, a: AccountSnapshot)
    ensures Quietly(m, Latched(writes, m, account, daily).0, a)
  {
    PersistQuietly(writes, m, m, m.doc.(accountLocked := m.doc.accountLocked || account, dailyLocked := m.doc.dailyLocked || daily), a);
  }

  lemma DisconnectingIsQuiet(writes: Writes, m: Machine, a: AccountSnapshot)
    ensures Quietly(m, DisconnectedFrom(writes, m).0, a)
  {
    PersistQuietly(writes, m, m, Disconnecting(m.doc), a);
  }

  lemma ReleasingIsQuiet(writes: Writes, m: Machine, token: Authorization, a: AccountSnapshot)
    ensures Quietly(m, Released(writes, m, token).0, a)
  {
    if TokenMatches(m.doc, token).Ok? {
      PersistQuietly(writes, m, m, Releasing(m.doc, token.RequestId()), a);
    }
  }

  // ----- Authorizing -----

  ghost function Within(a: AccountSnapshot): RiskDocument -> bool
  {
    (d: RiskDocument) => WithinHeadroom(d, a)
  }

  ghost predicate CoveredAnew(m: Machine, m': Machine, a: AccountSnapshot)
  {
    WithinHeadroom(m'.doc, a) && forall d | d in m'.disk.durable :: d in m.disk.durable || WithinHeadroom(d, a)
  }

  /** Reserving moves no reference, so headroom is judged by the same floors after it. */
  lemma ReservedWithinHeadroom(d: RiskDocument, a: AccountSnapshot, t: ProposedTrade, now: Time)
    requires AccountedDocument(d) && EvaluateTrade(d.policy, a, t, d, StandardLossRule(), now).approved
    ensures WithinHeadroom(Reserve(d, t, EvaluateTrade(d.policy, a, t, d, StandardLossRule(), now), now), a)
  {
    ApprovedReservationIsCovered(StandardLossRule(), d, a, t, now);
    ApprovalIsCovered(d.policy, a, t, d, StandardLossRule(), now);
    GateOpen(d.policy, a, t, d, now);
    SameFloors(d, Reserve(d, t, EvaluateTrade(d.policy, a, t, d, StandardLossRule(), now), now), a);
  }

  lemma PersistingCovers(writes: Writes, m: Machine, d: RiskDocument, a: AccountSnapshot)
    requires WithinHeadroom(d, a)
    ensures CoveredAnew(m, Persisted(writes, m.(doc := d)).0, a)
  {
    assert ReservedRisk(d.policy, d.(needsReconciliation := true), a) == ReservedRisk(d.policy, d, a);
    SameFloors(d, d.(needsReconciliation := true), a);
  }

  lemma AuthorizingCovers(writes: Writes, m: Machine, a: AccountSnapshot, t: ProposedTrade, now: Time)
    requires AccountedDocument(m.doc)
    ensures var (m', r) := Authorized(writes, StandardLossRule(), m, a, t, now);
      if r.Ok? then WithinHeadroom(m'.doc, a) && m'.disk.durable == {m'.doc}
      else Quietly(m, m', a) || CoveredAnew(m, m', a)
  {
    var decision := EvaluateTrade(m.doc.policy, a, t, m.doc, StandardLossRule(), now);
    if decision.approved {
      var d := Reserve(m.doc, t, decision, now);
      ReservedWithinHeadroom(m.doc, a, t, now);
      PersistingCovers(writes, m, d, a);
      if Persisted(writes, m.(doc := d)).1.Ok? {
        WrittenAhead(writes, m.(doc := d));
      }
    } else {
      PersistQuietly(writes, m, m, m.doc, a);
    }
  }

  // ----- One event, and runs -----

  /** The event needs no other snapshot than `a`, and authorizes by the standard rule. Processes may
      start, stop and lose power. */
  ghost predicate UsesOnly(e: Event, a: AccountSnapshot)
  {
    && (e.Reconcile? || e.Authorize? || e.BeforeSubmit? ==> e.snapshot == a)
    && (e.Authorize? ==> e.rule == StandardLossRule())
  }

  lemma QuietlyStaysWithin(m: Machine, m': Machine, a: AccountSnapshot)
    requires Surcharges(m.doc.policy.execution) && Quietly(m, m', a)
    requires WithinHeadroom(m.doc, a) && forall d | d in m.disk.durable :: WithinHeadroom(d, a)
    ensures WithinHeadroom(m'.doc, a) && forall d | d in m'.disk.durable :: WithinHeadroom(d, a)
  {
    HeadroomKept(m.doc, m'.doc, a);
    forall d | d in m'.disk.durable ensures WithinHeadroom(d, a) {
      if d !in m.disk.durable { HeadroomKept(m.doc, d, a); }
    }
  }

  lemma StepIsQuiet(writes: Writes, w: World, e: Event, a: AccountSnapshot)
    requires w.session.Some? && UsesOnly(e, a) && !StartsOrStops(e) && !e.Authorize?
    ensures var w' := Next(writes, w, e);
      && w'.session.Some? && w'.issued == w.issued
      && Quietly(Machine(w.session.value, w.disk), Machine(w'.session.value, w'.disk), a)
  {
    var m := Machine(w.session.value, w.disk);
    match e
    case LatchStops(account, daily) => LatchingIsQuiet(writes, m, account, daily, a);
    case Execute(x) => ExecutingIsQuiet(writes, m, x, a);
    case CloseSetup(setup, at, terminal) => ClosingIsQuiet(writes, m, setup, at, terminal, a);
    case Disconnect => DisconnectingIsQuiet(writes, m, a);
    case Reconcile(_, rule, now) => ReconcilingIsQuiet(writes, rule, m, a, now);
    case BeforeSubmit(token, refreshed, _, rule, now) => SubmittingIsQuiet(writes, rule, m, token, refreshed, a, now);
    case Reject(token) => ReleasingIsQuiet(writes, m, token, a);
  }

  lemma AuthorizeStep(writes: Writes, w: World, t: ProposedTrade, a: AccountSnapshot, now: Time)
    requires w.session.Some? && AccountedDocument(w.session.value)
    ensures var w' := Next(writes, w, Authorize(a, t, StandardLossRule(), now));
      && w'.session.Some?
      && (w'.issued != w.issued ==> WithinHeadroom(w'.session.value, a) && w'.disk.durable == {w'.session.value})
      && (|| (WithinHeadroom(w'.session.value, a) && w'.disk.durable == {w'.session.value})
          || Quietly(Machine(w.session.value, w.disk), Machine(w'.session.value, w'.disk), a)
          || CoveredAnew(Machine(w.session.value, w.disk), Machine(w'.session.value, w'.disk), a))
  {
    AuthorizingCovers(writes, Machine(w.session.value, w.disk), a, t, now);
  }

  lemma RestartStaysWithin(writes: Writes, w: World, e: Event, a: AccountSnapshot)
    requires w.disk.Valid() && w.Holds(Within(a)) && (StartsOrStops(e) || w.session.None?)
    ensures Next(writes, w, e).Holds(Within(a)) && Next(writes, w, e).issued == w.issued
  {
    var w' := Next(writes, w, e);
    if w'.session.Some? && w.session.None? {
      var d := w.disk.document;
      assert Within(a)(d);
      SameFloors(d, d.(needsReconciliation := true), a);
      assert ReservedRisk(d.policy, d.(needsReconciliation := true), a) == ReservedRisk(d.policy, d, a);
    }
  }

  lemma SteppedWithin(w: World, w': World, a: AccountSnapshot)
    requires w.session.Some? && w'.session.Some? && Sane(w.session.value) && w.Holds(Within(a))
    requires
      || (WithinHeadroom(w'.session.value, a) && w'.disk.durable == {w'.session.value})
      || Quietly(Machine(w.session.value, w.disk), Machine(w'.session.value, w'.disk), a)
      || CoveredAnew(Machine(w.session.value, w.disk), Machine(w'.session.value, w'.disk), a)
    ensures w'.Holds(Within(a))
  {
    var m, m' := Machine(w.session.value, w.disk), Machine(w'.session.value, w'.disk);
    assert Within(a)(m.doc);
    if Quietly(m, m', a) {
      QuietlyStaysWithin(m, m', a);
    }
  }

  lemma HeadroomStep(writes: Writes, w: World, e: Event, a: AccountSnapshot)
    requires w.disk.Valid() && w.Holds(Sane) && UsesOnly(e, a) && w.Holds(Within(a))
    ensures Next(writes, w, e).Holds(Within(a))
  {
    if StartsOrStops(e) || w.session.None? {
      RestartStaysWithin(writes, w, e, a);
    } else {
      assert Sane(w.session.value);
      if e.Authorize? {
        AuthorizeStep(writes, w, e.trade, a, e.now);
      } else {
        StepIsQuiet(writes, w, e, a);
      }
      SteppedWithin(w, Next(writes, w, e), a);
    }
  }

  lemma IssuingReachesHeadroom(writes: Writes, w: World, e: Event, a: AccountSnapshot)
    requires w.Holds(Sane) && UsesOnly(e, a) && Next(writes, w, e).issued != w.issued
    ensures Next(writes, w, e).Holds(Within(a))
  {
    IssuedGrows(writes, w, e);
    assert Sane(w.session.value);
    assert e == Authorize(a, e.trade, StandardLossRule(), e.now);
    AuthorizeStep(writes, w, e.trade, a, e.now);
    OneDocumentHolds(Next(writes, w, e), Within(a));
  }

  lemma OneDocumentHolds(w: World, P: RiskDocument -> bool)
    requires w.session.Some? && w.disk.durable == {w.session.value} && P(w.session.value)
    ensures w.Holds(P)
  {
  }

  /** Over any run against one snapshot, with crashes, power losses and restarts: once anything has been
      authorized, or if every document started so, all reserved risk fits above both internal floors,
      hence strictly above the firm's, in the session and in every document that could come back. */
  lemma {:induction false} HeadroomOverRuns(writes: Writes, w: World, events: seq<Event>, a: AccountSnapshot)
    requires w.disk.Valid() && w.Holds(Sane)
    requires forall e | e in events :: UsesOnly(e, a)
    ensures var w' := Run(writes, w, events);
      && w'.disk.Valid() && w'.Holds(Sane)
      && (w.Holds(Within(a)) || w'.issued != w.issued ==> w'.Holds(Within(a)))
    decreases |events|
  {
    if events != [] {
      var rest, e := events[..|events| - 1], events[|events| - 1];
      HeadroomOverRuns(writes, w, rest, a);
      var before := Run(writes, w, rest);
      SanityKept(writes, before, e);
      if before.Holds(Within(a)) {
        HeadroomStep(writes, before, e, a);
      } else if Next(writes, before, e).issued != before.issued {
        IssuingReachesHeadroom(writes, before, e, a);
      }
    }
  }

  // ----- Submission -----

  /** All-in risk of the authorized volume at the refreshed price. */
  function RepricedRisk(p: RiskPolicy, token: Authorization, refreshed: ProposedTrade): Option<real>
  {
    var loss := refreshed.estimate.Loss(token.decision.maxVolume, p.execution.slippageBufferPctOfRisk);
    if loss.None? then None else Some(loss.value * Overlap(p, refreshed))
  }

  lemma SizedIsPriced(p: RiskPolicy, t: ProposedTrade, d: RiskDecision, budget: real)
    requires Surcharges(p.execution) && SizedTo(d, p, t, budget)
    ensures t.estimate.Valid() && d.allowedRiskAmount == t.estimate.Loss(d.maxVolume, p.execution.slippageBufferPctOfRisk).value * Overlap(p, t)
  {
  }

  lemma PricedMonotone(e: LossEstimate, slip: real, multiplier: real, smaller: real, larger: real)
    requires e.Valid() && 0.0 <= slip && 0.0 <= multiplier && 0.0 <= smaller <= larger
    ensures e.Loss(smaller, slip).Some? && e.Loss(larger, slip).Some?
    ensures e.Loss(smaller, slip).value * multiplier <= e.Loss(larger, slip).value * multiplier
  {
    LossMonotone(e, slip, smaller, larger);
    MulMono(e.Loss(smaller, slip).value, e.Loss(larger, slip).value, multiplier);
  }

  /** An approval of at least this volume prices this volume at no more. */
  lemma RepricedWithinApproved(p: RiskPolicy, token: Authorization, t: ProposedTrade, d: RiskDecision)
    requires Surcharges(p.execution) && t.estimate.Valid() && 0.0 <= token.decision.maxVolume <= d.maxVolume
    requires d.allowedRiskAmount == t.estimate.Loss(d.maxVolume, p.execution.slippageBufferPctOfRisk).value * Overlap(p, t)
    ensures RepricedRisk(p, token, t).Some? && RepricedRisk(p, token, t).value <= d.allowedRiskAmount
  {
    PricedMonotone(t.estimate, p.execution.slippageBufferPctOfRisk, Overlap(p, t), token.decision.maxVolume, d.maxVolume);
  }

  /** When a submission is allowed, the order sent is the reserved volume; its re-priced risk is no more
      than was reserved for it; and with everything else reserved it fits above both internal floors on
      the fresh snapshot. */
  lemma SubmissionIsCovered(writes: Writes, rule: LossRule, m: Machine, token: Authorization, refreshed: ProposedTrade,
                            a: AccountSnapshot, now: Time)
    returns (reconciled: RiskDocument)
    requires m.disk.Valid() && AccountedDocument(m.doc)
    requires Submitted(writes, rule, m, token, refreshed, a, now).1.Ok?
    ensures var id := token.RequestId();
      && Reconciled(writes, rule, m, a, now).1.Ok? && reconciled == Reconciled(writes, rule, m, a, now).0.doc
      && id in reconciled.reservations
      && Submitted(writes, rule, m, token, refreshed, a, now).0.doc == Submitting(reconciled, id)
      && reconciled.reservations[id].volume == token.decision.maxVolume
      && reconciled.reservations[id].risk == token.decision.allowedRiskAmount
      && RepricedRisk(reconciled.policy, token, refreshed).Some?
      && RepricedRisk(reconciled.policy, token, refreshed).value <= reconciled.reservations[id].risk
    ensures var p, others := reconciled.policy, Without(reconciled, token.RequestId());
      && rule(p, others, a).Some? && OrderedFloors(rule(p, others, a).value)
      && ReservedRisk(p, others, a).Some?
      && Covered(rule(p, others, a).value, a.equity, ReservedRisk(p, others, a).value + RepricedRisk(p, token, refreshed).value)
  {
    var id := token.RequestId();
    var m1 := SubmissionSteps(writes, rule, m, token, refreshed, a, now);
    reconciled := m1.doc;
    ReconciledAdvances(writes, rule, m, a, now);
    assert SameReservation(m.doc.reservations[id], reconciled.reservations[id]);
    WrittenAhead(writes, m1.(doc := Submitting(reconciled, id)));
    RecheckIsCovered(rule, reconciled, token, refreshed, a, now);
  }

  lemma MaySubmitMeans(d: RiskDocument, token: Authorization, refreshed: ProposedTrade, result: RiskDecision)
    requires MaySubmit(d, token, refreshed, result).Ok?
    ensures RepricedRisk(d.policy, token, refreshed).Some?
    ensures RepricedRisk(d.policy, token, refreshed).value <= token.decision.allowedRiskAmount
    ensures result.approved && token.decision.maxVolume <= result.maxVolume
  {
  }

  lemma CoveredBelow(f: Thresholds, equity: real, reserved: real, less: real, more: real)
    requires Covered(f, equity, reserved + more) && less <= more
    ensures Covered(f, equity, reserved + less)
  {
  }

  lemma RecheckIsCovered(rule: LossRule, d: RiskDocument, token: Authorization, refreshed: ProposedTrade,
                         a: AccountSnapshot, now: Time)
    requires Rechecked(rule, d, token, refreshed, a, now).Ok? && 0.0 <= token.decision.maxVolume
    ensures RepricedRisk(d.policy, token, refreshed).Some?
    ensures RepricedRisk(d.policy, token, refreshed).value <= token.decision.allowedRiskAmount
    ensures var others := Without(d, token.RequestId());
      && rule(d.policy, others, a).Some? && OrderedFloors(rule(d.policy, others, a).value)
      && ReservedRisk(d.policy, others, a).Some?
      && Covered(rule(d.policy, others, a).value, a.equity,
                 ReservedRisk(d.policy, others, a).value + RepricedRisk(d.policy, token, refreshed).value)
  {
    var p, others := d.policy, Without(d, token.RequestId());
    var result := EvaluateTrade(p, a, refreshed, others, rule, now);
    MaySubmitMeans(d, token, refreshed, result);
    ApprovalIsCovered(p, a, refreshed, others, rule, now);
    var f, reserved := rule(p, others, a).value, ReservedRisk(p, others, a).value;
    SizedIsPriced(p, refreshed, result, Tightest(Limits(p, a, refreshed, others, f, reserved)).0);
    RepricedWithinApproved(p, token, refreshed, result);
    CoveredBelow(f, a.equity, reserved, RepricedRisk(p, token, refreshed).value, result.allowedRiskAmount);
  }

  /** The reservation keeps its full authorized amount, so the reserved total after a submission can
      exceed the headroom, by at most what re-pricing took off the order. */
  lemma ReservedAfterSubmission(x: ExecutionPolicy, rs: Reservations, es: seq<Exposure>, id: string, repriced: real,
                                headroom: real)
    requires Surcharges(x) && id in rs && Sound(rs[id]) && repriced <= rs[id].risk
    requires TotalRisk(x, rs - {id}, es) + repriced <= headroom
    ensures TotalRisk(x, rs, es) <= headroom + (rs[id].risk - repriced)
    ensures id !in LinkedIds(es) ==>
      (TotalRisk(x, rs, es) <= headroom <==> TotalRisk(x, rs - {id}, es) + rs[id].risk <= headroom)
  {
    ReservingAddsAtMost(x, rs - {id}, es, id, rs[id]);
    assert (rs - {id})[id := rs[id]] == rs;
  }
}
