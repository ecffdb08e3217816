/** What each session operation answers and leaves behind, condition by condition and field by field
    (adaptive-risk/src/manager.rs). */
module Answers {
  import opened Account
  import opened Approvals
  import opened Calendar
  import opened Decision
  import opened Ledger
  import opened Manager
  import opened Outcomes
  import opened Policy
  import opened Reserved
  import opened Store

  // ----- Writes -----

  /** What is visible after a save, and what a power loss can bring back. */
  lemma SaveLeaves(w: Writes, disk: Disk, d: RiskDocument)
    ensures var (after, ok) := Saved(w, disk, d);
      && after.writes == disk.writes + 1
      && (w(disk.writes) == Written ==> ok && after.document == d && after.durable == {d})
      && (w(disk.writes) == NotSynced ==> !ok && after.document == d && after.durable == disk.durable + {d})
      && (w(disk.writes) == NotRenamed ==> !ok && after.document == disk.document && after.durable == disk.durable)
  {
  }

  /** The document in memory after a write of `d`: unchanged, but for the flag when the write failed. */
  predicate Kept(d: RiskDocument, after: RiskDocument, ok: bool)
  {
    after == if ok then d else d.(needsReconciliation := true)
  }

  lemma PersistLeaves(w: Writes, m: Machine)
    ensures var (after, r) := Persisted(w, m);
      && (r.Ok? <==> w(m.disk.writes) == Written) && (r.Err? ==> r == Err(Storage))
      && Kept(m.doc, after.doc, r.Ok?) && after.disk.writes == m.disk.writes + 1
      && (r.Ok? ==> after.disk.document == m.doc && after.disk.durable == {m.doc})
  {
    SaveLeaves(w, m.disk, m.doc);
  }

  // ----- Stops and disconnections -----

  /** A stop sets the locks it names, and no other field. */
  lemma LatchLeaves(w: Writes, m: Machine, account: bool, daily: bool)
    ensures var (after, r) := Latched(w, m, account, daily);
      && (r.Ok? <==> w(m.disk.writes) == Written)
      && (after.doc.accountLocked <==> m.doc.accountLocked || account)
      && (after.doc.dailyLocked <==> m.doc.dailyLocked || daily)
      && (after.doc.needsReconciliation <==> m.doc.needsReconciliation || r.Err?)
      && after.doc == m.doc.(accountLocked := after.doc.accountLocked, dailyLocked := after.doc.dailyLocked,
                             needsReconciliation := after.doc.needsReconciliation)
  {
    PersistLeaves(w, m.(doc := m.doc.(accountLocked := m.doc.accountLocked || account, dailyLocked := m.doc.dailyLocked || daily)));
  }

  /** `mark` is the later of two marks, either of which may be missing. */
  predicate IsLater(mark: Option<Time>, one: Option<Time>, other: Option<Time>)
  {
    && (mark == one || mark == other)
    && (one.Some? ==> mark.Some? && one.value <= mark.value)
    && (other.Some? ==> mark.Some? && other.value <= mark.value)
  }

  /** A disconnection invalidates everything up to the last reconciliation and nothing later, and changes no
      other field but the flag. */
  lemma DisconnectLeaves(w: Writes, m: Machine)
    ensures var (after, r) := DisconnectedFrom(w, m);
      && (r.Ok? <==> w(m.disk.writes) == Written)
      && after.doc.needsReconciliation
      && IsLater(after.doc.invalidatedAfter, m.doc.invalidatedAfter, m.doc.lastReconciledAt)
      && after.doc == m.doc.(invalidatedAfter := after.doc.invalidatedAfter, needsReconciliation := true)
  {
    PersistLeaves(w, m.(doc := Disconnecting(m.doc)));
  }

  /** After a disconnection the snapshot last reconciled on, and any not newer, is refused. */
  lemma DisconnectRefusesOldSnapshots(w: Writes, m: Machine, a: AccountSnapshot, now: Time)
    requires m.doc.lastReconciledAt.Some? && a.observedAt <= m.doc.lastReconciledAt.value
    ensures var d := DisconnectedFrom(w, m).0.doc; Accepts(d, a, now, ReservedRisk(d.policy, d, a)).Err?
  {
    DisconnectLeaves(w, m);
  }

  // ----- Reconciliation -----

  /** Everything a reconciliation asks of a snapshot. */
  ghost predicate Reconcilable(d: RiskDocument, a: AccountSnapshot, now: Time)
  {
    && a.connected && Usable(d.policy, d, a, now)
    && d.day.day.start <= a.dayReference.day.start
    && (a.dayReference.day == d.day.day ==> a.dayReference == d.day)
    && (forall id | id in d.reservations && d.reservations[id].submitted ::
          id in a.resolvedRequests || exists i :: 0 <= i < |a.exposures| && a.exposures[i].requestId == Some(id))
    && ReservedRisk(d.policy, d, a).Some?
  }

  lemma ExplainedIff(rs: Reservations, a: AccountSnapshot)
    ensures Explained(rs, a) <==>
      forall id | id in rs && rs[id].submitted ::
        id in a.resolvedRequests || exists i :: 0 <= i < |a.exposures| && a.exposures[i].requestId == Some(id)
  {
    forall id | id in rs
      ensures (exists e | e in a.exposures :: e.requestId == Some(id))
         <==> exists i :: 0 <= i < |a.exposures| && a.exposures[i].requestId == Some(id)
    {
    }
  }

  lemma AcceptsIff(d: RiskDocument, a: AccountSnapshot, now: Time)
    ensures Accepts(d, a, now, ReservedRisk(d.policy, d, a)).Ok? <==> Reconcilable(d, a, now)
  {
    UsableIff(d.policy, d, a, now);
    ExplainedIff(d.reservations, a);
  }

  /** Why a snapshot is refused: the first of these, in this order. */
  lemma AcceptsAnswers(d: RiskDocument, a: AccountSnapshot, now: Time)
    ensures var r := Accepts(d, a, now, ReservedRisk(d.policy, d, a));
      var usable, current := Usable(d.policy, d, a, now), d.day.day.start <= a.dayReference.day.start;
      var steady := a.dayReference.day == d.day.day ==> a.dayReference == d.day;
      var explained := forall id | id in d.reservations && d.reservations[id].submitted ::
        id in a.resolvedRequests || exists i :: 0 <= i < |a.exposures| && a.exposures[i].requestId == Some(id);
      && (r == Err(BrokerDisconnected) <==> !a.connected)
      && (a.connected && !usable ==> r == ValidateSnapshot(d.policy, d, a, now))
      && (r == Err(DayMovedBackwards) <==> a.connected && usable && !current)
      && (r == Err(DayReferenceChanged) <==> a.connected && usable && current && !steady)
      && (r == Err(UnresolvedRequest) <==> a.connected && usable && current && steady && !explained)
      && (r == Err(Fault.InvalidExposure) <==>
            a.connected && usable && current && steady && explained && ReservedRisk(d.policy, d, a).None?)
  {
    SnapshotAnswers(d.policy, d, a, now);
    ExplainedIff(d.reservations, a);
  }

  /** The document with the snapshot's evidence adopted, field by field. */
  ghost predicate HasAdopted(d: RiskDocument, a: AccountSnapshot, after: RiskDocument)
  {
    && (a.dayReference.day == d.day.day ==> after.day == d.day && after.dailyLocked == d.dailyLocked)
    && (a.dayReference.day != d.day.day ==> after.day == a.dayReference && !after.dailyLocked)
    && (forall id :: id in after.reservations <==> id in d.reservations && id !in a.resolvedRequests)
    && (forall id | id in after.reservations :: after.reservations[id] == d.reservations[id])
    && after.balanceHigh == (if d.balanceHigh < a.balanceHigh then a.balanceHigh else d.balanceHigh)
    && after.equityHigh == (if d.equityHigh < a.equityHigh then a.equityHigh else d.equityHigh)
    && after == d.(day := after.day, dailyLocked := after.dailyLocked, reservations := after.reservations,
                   balanceHigh := after.balanceHigh, equityHigh := after.equityHigh)
  }

  lemma AdoptedHas(d: RiskDocument, a: AccountSnapshot)
    ensures HasAdopted(d, a, Adopted(d, a))
  {
  }

  lemma AdoptedIs(d: RiskDocument, a: AccountSnapshot, after: RiskDocument)
    requires HasAdopted(d, a, after)
    ensures after == Adopted(d, a)
  {
    assert after.reservations == Adopted(d, a).reservations;
  }

  /** And judged by the floors: each lock is set at or below its floor and otherwise kept; the cursor and the
      time of the snapshot are recorded. */
  ghost predicate HasJudged(adopted: RiskDocument, a: AccountSnapshot, f: Thresholds, after: RiskDocument)
  {
    && (after.dailyLocked <==> adopted.dailyLocked || a.equity <= f.internalDailyFloor)
    && (after.accountLocked <==> adopted.accountLocked || a.equity <= f.internalAccountFloor)
    && after == adopted.(dailyLocked := after.dailyLocked, accountLocked := after.accountLocked,
                         lastSequence := Some(a.sequence), lastReconciledAt := Some(a.observedAt))
  }

  function Flagged(d: RiskDocument): RiskDocument { d.(needsReconciliation := true) }

  lemma FlagIsNotEvidence(d: RiskDocument, a: AccountSnapshot, now: Time)
    ensures Accepts(Flagged(d), a, now, ReservedRisk(d.policy, Flagged(d), a)).Ok? <==> Reconcilable(d, a, now)
  {
    AcceptsIff(d, a, now);
  }

  lemma AppliedWhen(d: RiskDocument, a: AccountSnapshot, rule: LossRule, now: Time, adopted: RiskDocument)
    requires HasAdopted(Flagged(d), a, adopted)
    ensures Applied(Flagged(d), a, rule, now).1.Ok? <==> Reconcilable(d, a, now) && rule(adopted.policy, adopted, a).Some?
    ensures Applied(Flagged(d), a, rule, now).1.Ok? ==>
      HasJudged(adopted, a, rule(adopted.policy, adopted, a).value, Applied(Flagged(d), a, rule, now).0)
  {
    AdoptedIs(Flagged(d), a, adopted);
    FlagIsNotEvidence(d, a, now);
  }

  lemma ReconciledSteps(w: Writes, rule: LossRule, m: Machine, a: AccountSnapshot, now: Time)
    ensures var (applied, r) := Applied(Flagged(m.doc), a, rule, now);
      && (Reconciled(w, rule, m, a, now).1.Ok? <==> w(m.disk.writes) == Written && r.Ok? && w(m.disk.writes + 1) == Written)
      && (Reconciled(w, rule, m, a, now).1.Ok? ==>
            var after := Reconciled(w, rule, m, a, now).0;
            && after.doc == applied.(needsReconciliation := false)
            && after.disk.durable == {after.doc} && after.disk.writes == m.disk.writes + 2)
  {
    PersistLeaves(w, m.(doc := Flagged(m.doc)));
    var m1 := Persisted(w, m.(doc := Flagged(m.doc))).0;
    PersistLeaves(w, m1.(doc := Applied(Flagged(m.doc), a, rule, now).0.(needsReconciliation := false)));
  }

  /** A reconciliation succeeds exactly when both its writes do, the snapshot is reconcilable and the rule has
      floors for what was adopted; it then leaves the adopted and judged document, enabled, in memory and alone on disk. */
  lemma ReconciledExactlyWhen(w: Writes, rule: LossRule, m: Machine, a: AccountSnapshot, now: Time, adopted: RiskDocument)
    requires HasAdopted(Flagged(m.doc), a, adopted)
    ensures Reconciled(w, rule, m, a, now).1.Ok? <==>
      && w(m.disk.writes) == Written && Reconcilable(m.doc, a, now)
      && rule(adopted.policy, adopted, a).Some? && w(m.disk.writes + 1) == Written
    ensures Reconciled(w, rule, m, a, now).1.Ok? ==>
      var after := Reconciled(w, rule, m, a, now).0;
      && HasJudged(adopted.(needsReconciliation := false), a, rule(adopted.policy, adopted, a).value, after.doc)
      && after.disk.durable == {after.doc} && after.disk.writes == m.disk.writes + 2
  {
    AppliedWhen(m.doc, a, rule, now, adopted);
    ReconciledSteps(w, rule, m, a, now);
  }

  // ----- Authorization -----

  /** An authorization is given exactly when the trade is approved and its write is reported. It is for this
      account, policy, trade and decision; its request is attempted and reserved, unsubmitted, at the
      decision's amount and volume; nothing else changes. */
  lemma AuthorizedExactlyWhen(w: Writes, rule: LossRule, m: Machine, a: AccountSnapshot, t: ProposedTrade, now: Time)
    ensures var (after, r) := Authorized(w, rule, m, a, t, now);
      var decision := EvaluateTrade(m.doc.policy, a, t, m.doc, rule, now);
      && (r.Ok? <==> decision.approved && w(m.disk.writes) == Written)
      && (r == Err(RiskBlocked) <==> !decision.approved && w(m.disk.writes) == Written)
      && (r.Ok? ==> r.value.accountId == m.doc.accountId && r.value.policy == m.doc.policy
                    && r.value.request == t && r.value.decision == decision && after.disk.durable == {after.doc})
      && (!decision.approved ==> Kept(m.doc, after.doc, w(m.disk.writes) == Written))
      && (decision.approved ==>
            && after.doc.attemptedRequests == m.doc.attemptedRequests + {t.requestId}
            && after.doc.reservations == m.doc.reservations[t.requestId :=
                 Reservation(t.requestId, t.setupId, decision.allowedRiskAmount, decision.maxVolume, now, false)]
            && Kept(m.doc.(attemptedRequests := after.doc.attemptedRequests, reservations := after.doc.reservations), after.doc, r.Ok?))
  {
    var decision := EvaluateTrade(m.doc.policy, a, t, m.doc, rule, now);
    PersistLeaves(w, m);
    if decision.approved {
      PersistLeaves(w, m.(doc := Reserve(m.doc, t, decision, now)));
    }
  }

  // ----- Tokens and terms -----

  /** The reservation is the one the token was given for. */
  predicate GivenFor(r: Reservation, token: Authorization)
  {
    r.setupId == token.request.setupId && r.risk == token.decision.allowedRiskAmount && r.volume == token.decision.maxVolume
  }

  /** A token is accepted exactly for its own account and policy and for a reservation of its setup, amount and
      volume; each refusal names the first of these that fails. */
  lemma TokenAnswers(d: RiskDocument, token: Authorization)
    ensures var owns := token.accountId == d.accountId && token.policy == d.policy;
      var id := token.request.requestId;
      && (TokenMatches(d, token) == Err(WrongAccount) <==> !owns)
      && (TokenMatches(d, token) == Err(AuthorizationMissing) <==> owns && id !in d.reservations)
      && (TokenMatches(d, token).Ok? <==> owns && id in d.reservations && GivenFor(d.reservations[id], token))
      && (TokenMatches(d, token) == Err(ReservationMismatch) <==> owns && id in d.reservations && !GivenFor(d.reservations[id], token))
  {
  }

  /** The order is another one: a term other than its price, conversion or costs differs. */
  predicate AnotherOrder(t: ProposedTrade, refreshed: ProposedTrade)
  {
    || t.instrumentId != refreshed.instrumentId || t.overlapping != refreshed.overlapping
    || t.requestId != refreshed.requestId || t.strategyId != refreshed.strategyId || t.setupId != refreshed.setupId
    || t.volume.min != refreshed.volume.min || t.volume.max != refreshed.volume.max || t.volume.step != refreshed.volume.step
    || t.requestedVolume != refreshed.requestedVolume || t.requestedRisk != refreshed.requestedRisk
    || t.estimate.side != refreshed.estimate.side || t.estimate.stop != refreshed.estimate.stop
    || t.estimate.contractSize != refreshed.estimate.contractSize
    || t.estimate.isOpenPosition != refreshed.estimate.isOpenPosition
  }

  lemma TermsChangeIff(t: ProposedTrade, refreshed: ProposedTrade)
    ensures !SameTerms(t, refreshed) <==> AnotherOrder(t, refreshed)
  {
  }

  lemma ReconcilingNeverBlamesTerms(w: Writes, rule: LossRule, m: Machine, a: AccountSnapshot, now: Time)
    ensures Reconciled(w, rule, m, a, now).1 != Err(OrderTermsChanged)
  {
  }

  lemma RecheckNeverBlamesTerms(rule: LossRule, d: RiskDocument, token: Authorization, refreshed: ProposedTrade, a: AccountSnapshot, now: Time)
    ensures Rechecked(rule, d, token, refreshed, a, now) != Err(OrderTermsChanged)
  {
    var others := Without(d, token.RequestId());
    MaySubmitNeverBlamesTerms(d, token, refreshed, EvaluateTrade(others.policy, a, refreshed, others, rule, now));
  }

  lemma MaySubmitNeverBlamesTerms(d: RiskDocument, token: Authorization, refreshed: ProposedTrade, again: RiskDecision)
    ensures MaySubmit(d, token, refreshed, again) != Err(OrderTermsChanged)
  {
  }

  /** After a matching token a submission is refused for changed terms exactly when one of the fourteen terms
      that may not change has; price, conversion and costs may all be refreshed. */
  lemma TermsChangedExactlyWhen(w: Writes, rule: LossRule, m: Machine, token: Authorization, refreshed: ProposedTrade,
                                a: AccountSnapshot, now: Time)
    requires TokenMatches(m.doc, token).Ok?
    ensures Submitted(w, rule, m, token, refreshed, a, now).1 == Err(OrderTermsChanged) <==> AnotherOrder(token.request, refreshed)
  {
    TermsChangeIff(token.request, refreshed);
    ReconcilingNeverBlamesTerms(w, rule, m, a, now);
    var m1 := Reconciled(w, rule, m, a, now).0;
    RecheckNeverBlamesTerms(rule, m1.doc, token, refreshed, a, now);
    if token.RequestId() in m1.doc.reservations {
      PersistLeaves(w, m1.(doc := Submitting(m1.doc, token.RequestId())));
    }
  }

  // ----- Submission -----

  /** The last look: without this order the trade is still approved at no less than the authorized volume, that
      volume now loses no more than was authorized, and the order was not sent before. */
  ghost predicate StillGood(rule: LossRule, d: RiskDocument, token: Authorization, refreshed: ProposedTrade, a: AccountSnapshot, now: Time)
  {
    var id := token.request.requestId;
    var others := d.(reservations := d.reservations - {id}, attemptedRequests := d.attemptedRequests - {id});
    var again := EvaluateTrade(d.policy, a, refreshed, others, rule, now);
    && again.approved && token.decision.maxVolume <= again.maxVolume
    && 0.0 <= token.decision.maxVolume && refreshed.estimate.UnitLoss(d.policy.execution.slippageBufferPctOfRisk).Some?
    && AllIn(d.policy, refreshed, token.decision.maxVolume) <= token.decision.allowedRiskAmount
    && id in d.reservations && !d.reservations[id].submitted
  }

  lemma MaySubmitIff(d: RiskDocument, token: Authorization, refreshed: ProposedTrade, again: RiskDecision)
    ensures MaySubmit(d, token, refreshed, again).Ok? <==>
      && again.approved && token.decision.maxVolume <= again.maxVolume
      && 0.0 <= token.decision.maxVolume && refreshed.estimate.UnitLoss(d.policy.execution.slippageBufferPctOfRisk).Some?
      && AllIn(d.policy, refreshed, token.decision.maxVolume) <= token.decision.allowedRiskAmount
      && token.request.requestId in d.reservations && !d.reservations[token.request.requestId].submitted
  {
    RepricedIsAllIn(d.policy, refreshed, token.decision.maxVolume);
  }

  lemma RechecksIff(rule: LossRule, d: RiskDocument, token: Authorization, refreshed: ProposedTrade, a: AccountSnapshot, now: Time)
    ensures Rechecked(rule, d, token, refreshed, a, now).Ok? <==> StillGood(rule, d, token, refreshed, a, now)
  {
    var others := Without(d, token.RequestId());
    MaySubmitIff(d, token, refreshed, EvaluateTrade(others.policy, a, refreshed, others, rule, now));
  }

  lemma RepricedIsAllIn(p: RiskPolicy, t: ProposedTrade, v: real)
    ensures var slip := p.execution.slippageBufferPctOfRisk;
      && (t.estimate.Loss(v, slip).Some? <==> 0.0 <= v && t.estimate.UnitLoss(slip).Some?)
      && (t.estimate.Loss(v, slip).Some? ==> t.estimate.Loss(v, slip).value * Overlap(p, t) == AllIn(p, t, v))
  {
  }

  /** A submission is allowed exactly when its token matches, it is the same order, the snapshot reconciles,
      the order is still good on the reconciled document, and the third write is reported. It then marks that
      reservation submitted and raises the flag, and changes nothing else of the reconciled document. */
  lemma SubmittedExactlyWhen(w: Writes, rule: LossRule, m: Machine, token: Authorization, refreshed: ProposedTrade,
                             a: AccountSnapshot, now: Time)
    ensures var (after, r) := Submitted(w, rule, m, token, refreshed, a, now);
      var (m1, reconciled) := Reconciled(w, rule, m, a, now);
      && (r.Ok? <==>
            && TokenMatches(m.doc, token).Ok? && !AnotherOrder(token.request, refreshed) && reconciled.Ok?
            && StillGood(rule, m1.doc, token, refreshed, a, now) && w(m1.disk.writes) == Written)
      && (r.Ok? ==>
            var id := token.request.requestId;
            && id in m1.doc.reservations
            && after.doc == m1.doc.(reservations := m1.doc.reservations[id := m1.doc.reservations[id].(submitted := true)],
                                    needsReconciliation := true)
            && after.disk.durable == {after.doc})
  {
    TermsChangeIff(token.request, refreshed);
    var (m1, reconciled) := Reconciled(w, rule, m, a, now);
    RechecksIff(rule, m1.doc, token, refreshed, a, now);
    if token.RequestId() in m1.doc.reservations {
      PersistLeaves(w, m1.(doc := Submitting(m1.doc, token.RequestId())));
    }
  }

  /** Why a submission is refused, the first of these, and what it then leaves: nothing is done for a wrong token
      or another order; what the reconciliation did stays done; a failed third write is still submitted in memory. */
  lemma SubmissionRefusals(w: Writes, rule: LossRule, m: Machine, token: Authorization, refreshed: ProposedTrade,
                           a: AccountSnapshot, now: Time)
    ensures var (after, r) := Submitted(w, rule, m, token, refreshed, a, now);
      var (m1, reconciled) := Reconciled(w, rule, m, a, now);
      var matches, same := TokenMatches(m.doc, token), !AnotherOrder(token.request, refreshed);
      var good, id := StillGood(rule, m1.doc, token, refreshed, a, now), token.request.requestId;
      && (matches.Err? ==> r == matches && after == m)
      && (matches.Ok? && !same ==> r == Err(OrderTermsChanged) && after == m)
      && (matches.Ok? && same && reconciled.Err? ==> r == reconciled && after == m1)
      && (matches.Ok? && same && reconciled.Ok? && !good ==> r == Rechecked(rule, m1.doc, token, refreshed, a, now) && r.Err? && after == m1)
      && (matches.Ok? && same && reconciled.Ok? && good && w(m1.disk.writes) != Written ==>
            && r == Err(Storage) && id in m1.doc.reservations
            && after.doc == m1.doc.(reservations := m1.doc.reservations[id := m1.doc.reservations[id].(submitted := true)],
                                    needsReconciliation := true))
  {
    TermsChangeIff(token.request, refreshed);
    var m1 := Reconciled(w, rule, m, a, now).0;
    RechecksIff(rule, m1.doc, token, refreshed, a, now);
    if token.RequestId() in m1.doc.reservations {
      PersistLeaves(w, m1.(doc := Submitting(m1.doc, token.RequestId())));
    }
  }

  /** Why the last look refuses, the first of these: the order cannot be priced, the risk has grown, the
      reservation is gone, or it was sent before. */
  lemma RecheckAnswers(d: RiskDocument, token: Authorization, refreshed: ProposedTrade, again: RiskDecision)
    ensures var r, id := MaySubmit(d, token, refreshed, again), token.request.requestId;
      var priced := 0.0 <= token.decision.maxVolume && refreshed.estimate.UnitLoss(d.policy.execution.slippageBufferPctOfRisk).Some?;
      var within := priced && again.approved && token.decision.maxVolume <= again.maxVolume
                    && AllIn(d.policy, refreshed, token.decision.maxVolume) <= token.decision.allowedRiskAmount;
      && (r == Err(Fault.InvalidExposure) <==> !priced)
      && (r == Err(RiskIncreased) <==> priced && !within)
      && (r == Err(AuthorizationMissing) <==> within && id !in d.reservations)
      && (r == Err(AlreadySubmitted) <==> within && id in d.reservations && d.reservations[id].submitted)
  {
    RepricedIsAllIn(d.policy, refreshed, token.decision.maxVolume);
  }

  // ----- The session's ledger -----

  /** The session keeps what the ledger left, flagged when the write failed; a failed write hides the ledger's answer. */
  lemma LedgerAnswers(w: Writes, m: Machine, e: Execution, setup: string, at: Time, terminal: bool)
    ensures var (after, r) := Executed(w, m, e); var (d, answer) := AfterExecution(m.doc, e);
      Kept(d, after.doc, w(m.disk.writes) == Written) && r == if w(m.disk.writes) == Written then answer else Err(Storage)
    ensures var (after, r) := SetupClosed(w, m, setup, at, terminal); var (d, answer) := AfterSetupClosed(m.doc, setup, at, terminal);
      Kept(d, after.doc, w(m.disk.writes) == Written) && r == if w(m.disk.writes) == Written then answer else Err(Storage)
  {
    PersistLeaves(w, m.(doc := AfterExecution(m.doc, e).0));
    PersistLeaves(w, m.(doc := AfterSetupClosed(m.doc, setup, at, terminal).0));
  }

  /** A rejection with a matching token drops that reservation, and only that, and raises the flag. */
  lemma ReleaseLeaves(w: Writes, m: Machine, token: Authorization)
    ensures var (after, r) := Released(w, m, token);
      && (TokenMatches(m.doc, token).Err? ==> after == m && r == TokenMatches(m.doc, token))
      && (TokenMatches(m.doc, token).Ok? ==>
            && (r.Ok? <==> w(m.disk.writes) == Written)
            && after.doc.needsReconciliation
            && (forall id :: id in after.doc.reservations <==> id in m.doc.reservations && id != token.request.requestId)
            && (forall id | id in after.doc.reservations :: after.doc.reservations[id] == m.doc.reservations[id])
            && after.doc == m.doc.(reservations := after.doc.reservations, needsReconciliation := true))
  {
    if TokenMatches(m.doc, token).Ok? {
      PersistLeaves(w, m.(doc := Releasing(m.doc, token.RequestId())));
    }
  }
}
