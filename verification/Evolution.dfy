/** The one relation every session step keeps between the document before it and every document
    it leaves in memory or on disk. */
module Evolution {
  import opened Account
  import opened Calendar
  import opened Decision
  import opened Ledger
  import opened LedgerLaws
  import opened Manager
  import opened Outcomes
  import opened Policy
  import opened Reserved
  import opened Store

  /** Every reservation belongs to a request attempted once and for all, under its own id. */
  ghost predicate Accounted(rs: Reservations, attempted: set<string>)
  {
    forall id | id in rs :: id in attempted && rs[id].requestId == id && Sound(rs[id])
  }

  /** Trading is only ever enabled by a snapshot strictly newer than the last invalidation. */
  predicate Settled(d: RiskDocument)
  {
    !d.needsReconciliation ==> d.lastReconciledAt.Some? && Newer(d.lastReconciledAt.value, d.invalidatedAfter)
  }

  predicate SameReservation(r: Reservation, r': Reservation)
  {
    r' == r.(submitted := r'.submitted) && (r.submitted ==> r'.submitted)
  }

  /** Reservations appear only with a first attempt, unsubmitted; they disappear only into `freed`. */
  ghost predicate ReservationsEvolve(rs: Reservations, attempted: set<string>, rs': Reservations,
                                     attempted': set<string>, freed: set<string>)
  {
    && attempted <= attempted'
    && (forall id | id in rs' && id in rs :: SameReservation(rs[id], rs'[id]))
    && (forall id | id in rs' && id !in rs :: id !in attempted && id in attempted' && !rs'[id].submitted)
    && (forall id | id in rs && id !in rs' :: id in freed)
    && (Accounted(rs, attempted) ==> Accounted(rs', attempted'))
  }

  ghost predicate OnCalendar(p: RiskPolicy, day: TradingDay)
  {
    exists t :: DayAt(p.calendar, t) == Some(day)
  }

  /** The day and its daily lock: kept, or replaced by another trading day that does not start earlier. */
  ghost predicate DayEvolves(d: RiskDocument, d': RiskDocument)
  {
    if d'.day.day == d.day.day then d'.day == d.day && (d.dailyLocked ==> d'.dailyLocked)
    else d.day.day.start <= d'.day.day.start && OnCalendar(d.policy, d'.day.day)
         && 0.0 < d'.day.balance && 0.0 < d'.day.equity
  }

  ghost predicate LedgerEvolves(d: RiskDocument, d': RiskDocument)
  {
    && (forall id | id in d.executions :: id in d'.executions && d'.executions[id] == d.executions[id])
    && (forall s | s in d.outcomes :: s in d'.outcomes && d'.outcomes[s] == d.outcomes[s])
    && (Conserved(d) ==> Conserved(d'))
  }

  predicate AccountEvolves(d: RiskDocument, d': RiskDocument)
  {
    && d'.accountId == d.accountId && d'.policy == d.policy && d'.initialBalance == d.initialBalance
    && d.balanceHigh <= d'.balanceHigh && d.equityHigh <= d'.equityHigh
    && (d.accountLocked ==> d'.accountLocked)
    && NotBefore(d'.invalidatedAfter, d.invalidatedAfter)
    && (Settled(d) ==> Settled(d'))
  }

  ghost predicate Evolves(d: RiskDocument, d': RiskDocument, freed: set<string>)
  {
    && AccountEvolves(d, d')
    && DayEvolves(d, d')
    && LedgerEvolves(d, d')
    && ReservationsEvolve(d.reservations, d.attemptedRequests, d'.reservations, d'.attemptedRequests, freed)
  }

  /** Only the ledger part of the document is what `Conserved` looks at. */
  lemma SameLedger(d: RiskDocument, d': RiskDocument)
    requires d'.executions == d.executions && d'.outcomes == d.outcomes
    requires d'.policy == d.policy && d'.consecutiveLosses == d.consecutiveLosses
    ensures LedgerEvolves(d, d')
  {
  }

  lemma Unchanged(d: RiskDocument)
    ensures Evolves(d, d, {}) && Evolves(d, d.(needsReconciliation := true), {})
  {
    SameLedger(d, d);
    SameLedger(d, d.(needsReconciliation := true));
  }

  /** The reconciliation flag may be raised at either end. */
  lemma RaisingTheFlag(d: RiskDocument, d': RiskDocument, freed: set<string>)
    requires Evolves(d, d', freed)
    ensures Evolves(d, d'.(needsReconciliation := true), freed)
  {
    SameLedger(d', d'.(needsReconciliation := true));
  }

  lemma FromRaisedFlag(d: RiskDocument, d': RiskDocument, freed: set<string>)
    requires Evolves(d.(needsReconciliation := true), d', freed)
    ensures Evolves(d, d', freed)
  {
    SameLedger(d, d.(needsReconciliation := true));
    assert Settled(d.(needsReconciliation := true));
  }

  lemma FreeingMore(d: RiskDocument, d': RiskDocument, freed: set<string>, more: set<string>)
    requires Evolves(d, d', freed) && freed <= more
    ensures Evolves(d, d', more)
  {
  }

  // ----- Each document change -----

  lemma LatchingEvolves(d: RiskDocument, account: bool, daily: bool)
    ensures Evolves(d, d.(accountLocked := d.accountLocked || account, dailyLocked := d.dailyLocked || daily), {})
  {
    SameLedger(d, d.(accountLocked := d.accountLocked || account, dailyLocked := d.dailyLocked || daily));
  }

  lemma DisconnectingEvolves(d: RiskDocument)
    ensures Evolves(d, Disconnecting(d), {})
  {
    SameLedger(d, Disconnecting(d));
  }

  lemma ExecutionEvolves(d: RiskDocument, e: Execution)
    ensures Evolves(d, AfterExecution(d, e).0, {})
  {
    var d' := AfterExecution(d, e).0;
    ExecutionEffect(d, e);
    if Conserved(d) { ExecutionKeepsConservation(d, e); }
    assert LedgerEvolves(d, d');
  }

  lemma ClosingEvolves(d: RiskDocument, setup: string, at: Time, terminal: bool)
    ensures Evolves(d, AfterSetupClosed(d, setup, at, terminal).0, {})
  {
    var d' := AfterSetupClosed(d, setup, at, terminal).0;
    ClosingEffect(d, setup, at, terminal);
    if Conserved(d) { ClosingKeepsConservation(d, setup, at, terminal); }
    assert LedgerEvolves(d, d');
  }

  lemma ReservingEvolves(d: RiskDocument, t: ProposedTrade, decision: RiskDecision, now: Time)
    requires t.requestId !in d.attemptedRequests && 0.0 <= decision.allowedRiskAmount && 0.0 < decision.maxVolume
    requires t.requestId !in d.reservations
    ensures Evolves(d, Reserve(d, t, decision, now), {})
  {
    SameLedger(d, Reserve(d, t, decision, now));
  }

  lemma ReleasingEvolves(d: RiskDocument, id: string)
    ensures Evolves(d, Releasing(d, id), {id})
  {
    SameLedger(d, Releasing(d, id));
  }

  /** The reservations that adopting an accepted snapshot drops. */
  ghost function Resolving(d: RiskDocument, a: AccountSnapshot, now: Time): set<string>
  {
    if Accepts(d, a, now, ReservedRisk(d.policy, d, a)).Ok? then d.reservations.Keys * a.resolvedRequests else {}
  }

  lemma AdoptingEvolves(d: RiskDocument, a: AccountSnapshot, now: Time)
    requires Accepts(d, a, now, ReservedRisk(d.policy, d, a)).Ok?
    ensures Evolves(d, Adopted(d, a), d.reservations.Keys * a.resolvedRequests)
    ensures Newer(a.observedAt, d.invalidatedAfter)
  {
    SameLedger(d, Adopted(d, a));
    assert DayAt(d.policy.calendar, now) == Some(a.dayReference.day);
  }

  lemma JudgingEvolves(d: RiskDocument, adopted: RiskDocument, a: AccountSnapshot, f: Thresholds, freed: set<string>)
    requires Evolves(d, adopted, freed) && adopted.invalidatedAfter == d.invalidatedAfter
    requires Newer(a.observedAt, d.invalidatedAfter)
    ensures Evolves(d, Judged(adopted, a, f).(needsReconciliation := false), freed)
  {
    SameLedger(adopted, Judged(adopted, a, f).(needsReconciliation := false));
  }

  // ----- Each operation, with its writes -----

  /** Whatever document the step leaves in memory, or adds to those a power loss could leave
      behind, has evolved from the one in memory before it. */
  ghost predicate Advances(m: Machine, m': Machine, freed: set<string>)
  {
    && m'.disk.Valid()
    && Evolves(m.doc, m'.doc, freed)
    && (forall d | d in m'.disk.durable :: d in m.disk.durable || Evolves(m.doc, d, freed))
  }

  lemma PersistAdvances(w: Writes, m: Machine, m1: Machine, d: RiskDocument, freed: set<string>)
    requires m1.disk == m.disk || Advances(m, m1, freed)
    requires m1.disk.Valid() && Evolves(m.doc, d, freed)
    ensures Advances(m, Persisted(w, m1.(doc := d)).0, freed)
    ensures Persisted(w, m1.(doc := d)).1.Ok? ==>
      var after := Persisted(w, m1.(doc := d)).0; after.doc == d && after.disk.durable == {d}
  {
    RaisingTheFlag(m.doc, d, freed);
  }

  lemma LatchedAdvances(w: Writes, m: Machine, account: bool, daily: bool)
    requires m.disk.Valid()
    ensures Advances(m, Latched(w, m, account, daily).0, {})
  {
    LatchingEvolves(m.doc, account, daily);
    PersistAdvances(w, m, m, m.doc.(accountLocked := m.doc.accountLocked || account, dailyLocked := m.doc.dailyLocked || daily), {});
  }

  lemma ExecutedAdvances(w: Writes, m: Machine, e: Execution)
    requires m.disk.Valid()
    ensures Advances(m, Executed(w, m, e).0, {})
  {
    ExecutionEvolves(m.doc, e);
    PersistAdvances(w, m, m, AfterExecution(m.doc, e).0, {});
  }

  lemma SetupClosedAdvances(w: Writes, m: Machine, setup: string, at: Time, terminal: bool)
    requires m.disk.Valid()
    ensures Advances(m, SetupClosed(w, m, setup, at, terminal).0, {})
  {
    ClosingEvolves(m.doc, setup, at, terminal);
    PersistAdvances(w, m, m, AfterSetupClosed(m.doc, setup, at, terminal).0, {});
  }

  lemma DisconnectedAdvances(w: Writes, m: Machine)
    requires m.disk.Valid()
    ensures Advances(m, DisconnectedFrom(w, m).0, {})
  {
    DisconnectingEvolves(m.doc);
    PersistAdvances(w, m, m, Disconnecting(m.doc), {});
  }

  lemma ReleasedAdvances(w: Writes, m: Machine, token: Authorization)
    requires m.disk.Valid()
    ensures var freed := if TokenMatches(m.doc, token).Ok? then {token.RequestId()} else {};
      Advances(m, Released(w, m, token).0, freed)
  {
    if TokenMatches(m.doc, token).Ok? {
      ReleasingEvolves(m.doc, token.RequestId());
      PersistAdvances(w, m, m, Releasing(m.doc, token.RequestId()), {token.RequestId()});
    } else {
      Unchanged(m.doc);
    }
  }

  lemma AuthorizedAdvances(w: Writes, rule: LossRule, m: Machine, a: AccountSnapshot, t: ProposedTrade, now: Time)
    requires m.disk.Valid() && Accounted(m.doc.reservations, m.doc.attemptedRequests)
    ensures Advances(m, Authorized(w, rule, m, a, t, now).0, {})
  {
    var decision := EvaluateTrade(m.doc.policy, a, t, m.doc, rule, now);
    if decision.approved {
      ApprovalIsCovered(m.doc.policy, a, t, m.doc, rule, now);
      ReservingEvolves(m.doc, t, decision, now);
      PersistAdvances(w, m, m, Reserve(m.doc, t, decision, now), {});
    } else {
      Unchanged(m.doc);
      PersistAdvances(w, m, m, m.doc, {});
    }
  }

  lemma AppliedEvolves(d: RiskDocument, a: AccountSnapshot, rule: LossRule, now: Time)
    ensures var (d', r) := Applied(d, a, rule, now);
      && Evolves(d, d', Resolving(d, a, now))
      && (r.Ok? ==> Evolves(d, d'.(needsReconciliation := false), Resolving(d, a, now)))
  {
    if Accepts(d, a, now, ReservedRisk(d.policy, d, a)).Ok? {
      AdoptingEvolves(d, a, now);
      var adopted := Adopted(d, a);
      var f := rule(adopted.policy, adopted, a);
      if f.Some? {
        JudgingEvolves(d, adopted, a, f.value, Resolving(d, a, now));
        JudgedKeepsFlag(d, adopted, a, f.value, Resolving(d, a, now));
      }
    } else {
      Unchanged(d);
    }
  }

  lemma JudgedKeepsFlag(d: RiskDocument, adopted: RiskDocument, a: AccountSnapshot, f: Thresholds, freed: set<string>)
    requires Evolves(d, adopted, freed) && adopted.invalidatedAfter == d.invalidatedAfter
    requires Newer(a.observedAt, d.invalidatedAfter)
    ensures Evolves(d, Judged(adopted, a, f), freed)
  {
    SameLedger(adopted, Judged(adopted, a, f));
  }

  lemma AcceptsIgnoresFlag(d: RiskDocument, a: AccountSnapshot, now: Time)
    ensures Resolving(d.(needsReconciliation := true), a, now) == Resolving(d, a, now)
  {
  }

  /** The reservations a reconciliation lets go: none unless its first write is reported. */
  ghost function FreedBy(w: Writes, m: Machine, a: AccountSnapshot, now: Time): set<string>
  {
    if w(m.disk.writes) == Written then Resolving(m.doc, a, now) else {}
  }

  lemma ReconciledAdvances(w: Writes, rule: LossRule, m: Machine, a: AccountSnapshot, now: Time)
    requires m.disk.Valid()
    ensures Advances(m, Reconciled(w, rule, m, a, now).0, FreedBy(w, m, a, now))
  {
    var freed := FreedBy(w, m, a, now);
    var raised := m.doc.(needsReconciliation := true);
    Unchanged(m.doc);
    FreeingMore(m.doc, raised, {}, freed);
    PersistAdvances(w, m, m, raised, freed);
    var (m1, p) := Persisted(w, m.(doc := raised));
    if p.Ok? {
      AcceptsIgnoresFlag(m.doc, a, now);
      AppliedEvolves(raised, a, rule, now);
      var (d, r) := Applied(raised, a, rule, now);
      FromRaisedFlag(m.doc, d, freed);
      if r.Ok? {
        FromRaisedFlag(m.doc, d.(needsReconciliation := false), freed);
        PersistAdvances(w, m, m1, d.(needsReconciliation := false), freed);
      }
    }
  }

  /** Composition of two changes, where the second leaves the trading day alone. */
  lemma ThenSubmitting(d: RiskDocument, d': RiskDocument, id: string, freed: set<string>)
    requires Evolves(d, d', freed) && id in d'.reservations && id in d.reservations
    ensures Evolves(d, Submitting(d', id), freed)
  {
    SameLedger(d', Submitting(d', id));
  }

  /** The requests a submission may let go: those of the reconciliation it makes first. */
  ghost function FreedBySubmission(w: Writes, m: Machine, token: Authorization, refreshed: ProposedTrade, a: AccountSnapshot,
                                   now: Time): set<string>
  {
    if TokenMatches(m.doc, token).Ok? && SameTerms(token.request, refreshed) then FreedBy(w, m, a, now) else {}
  }

  lemma SubmittedAdvances(w: Writes, rule: LossRule, m: Machine, token: Authorization, refreshed: ProposedTrade,
                          a: AccountSnapshot, now: Time)
    requires m.disk.Valid()
    ensures Advances(m, Submitted(w, rule, m, token, refreshed, a, now).0, FreedBySubmission(w, m, token, refreshed, a, now))
  {
    var freed := FreedBySubmission(w, m, token, refreshed, a, now);
    if TokenMatches(m.doc, token).Ok? && SameTerms(token.request, refreshed) {
      ReconciledAdvances(w, rule, m, a, now);
      var (m1, r) := Reconciled(w, rule, m, a, now);
      if r.Ok? && Rechecked(rule, m1.doc, token, refreshed, a, now).Ok? {
        ThenSubmitting(m.doc, m1.doc, token.RequestId(), freed);
        PersistAdvances(w, m, m1, Submitting(m1.doc, token.RequestId()), freed);
      }
    } else {
      Unchanged(m.doc);
    }
  }

  /** The steps behind an allowed submission. */
  lemma SubmissionSteps(w: Writes, rule: LossRule, m: Machine, token: Authorization, refreshed: ProposedTrade,
                        a: AccountSnapshot, now: Time) returns (m1: Machine)
    requires Submitted(w, rule, m, token, refreshed, a, now).1.Ok?
    ensures TokenMatches(m.doc, token).Ok? && SameTerms(token.request, refreshed)
    ensures Reconciled(w, rule, m, a, now) == (m1, Ok(()))
    ensures Rechecked(rule, m1.doc, token, refreshed, a, now).Ok?
    ensures token.RequestId() in m1.doc.reservations && !m1.doc.reservations[token.RequestId()].submitted
    ensures Persisted(w, m1.(doc := Submitting(m1.doc, token.RequestId()))) == (Submitted(w, rule, m, token, refreshed, a, now).0, Ok(()))
  {
    m1 := Reconciled(w, rule, m, a, now).0;
  }

  lemma WrittenAhead(w: Writes, m: Machine)
    requires Persisted(w, m).1.Ok?
    ensures Persisted(w, m).0.doc == m.doc && Persisted(w, m).0.disk.durable == {m.doc} && Persisted(w, m).0.disk.document == m.doc
  {
  }

  lemma UnsubmittedBefore(d: RiskDocument, d': RiskDocument, freed: set<string>, id: string)
    requires Evolves(d, d', freed) && id in d.reservations && id in d'.reservations && !d'.reservations[id].submitted
    ensures !d.reservations[id].submitted
  {
  }

  /** A submission that is allowed found its reservation unsubmitted, and returns only once the
      one document that can survive a power loss records it as submitted. */
  lemma SubmissionIsWrittenAhead(w: Writes, rule: LossRule, m: Machine, token: Authorization, refreshed: ProposedTrade,
                                 a: AccountSnapshot, now: Time)
    requires m.disk.Valid() && Submitted(w, rule, m, token, refreshed, a, now).1.Ok?
    ensures var id, after := token.RequestId(), Submitted(w, rule, m, token, refreshed, a, now).0;
      && id in m.doc.reservations && !m.doc.reservations[id].submitted
      && after.disk.durable == {after.doc} && after.disk.document == after.doc
      && id in after.doc.reservations && after.doc.reservations[id].submitted
      && after.doc.needsReconciliation
  {
    var m1 := SubmissionSteps(w, rule, m, token, refreshed, a, now);
    ReconciledAdvances(w, rule, m, a, now);
    UnsubmittedBefore(m.doc, m1.doc, FreedBy(w, m, a, now), token.RequestId());
    WrittenAhead(w, m1.(doc := Submitting(m1.doc, token.RequestId())));
  }
}
