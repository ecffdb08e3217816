/** A restart begins unreconciled, and nothing is approved or submitted until a reconciliation succeeds. */
module Restarts {
  import opened Account
  import opened Answers
  import opened Calendar
  import opened Decision
  import opened Manager
  import opened Policy
  import opened Runs
  import opened Store

  /** A session opens exactly for the stored account and policy, with the stored document flagged. */
  lemma BeginOpens(writes: Writes, w: World, accountId: string, policy: RiskPolicy)
    requires w.session.None?
    ensures var w' := Next(writes, w, Begin(accountId, policy));
      && (w'.session.Some? <==> w.disk.document.accountId == accountId && w.disk.document.policy == policy && policy.Valid())
      && (w'.session.Some? ==> w'.session.value.needsReconciliation
                               && w'.session.value == w.disk.document.(needsReconciliation := true))
      && w' == w.(session := w'.session)
  {
  }

  /** No session is open, or it needs reconciliation. */
  predicate Waiting(w: World) { w.session.Some? ==> w.session.value.needsReconciliation }

  /** A reconciliation succeeds here, by itself or as the first part of a submission. */
  ghost predicate Reconciles(writes: Writes, w: World, e: Event)
  {
    && w.session.Some?
    && (e.Reconcile? || (e.BeforeSubmit? && TokenMatches(w.session.value, e.token).Ok? && SameTerms(e.token.request, e.refreshed)))
    && Reconciled(writes, e.rule, Machine(w.session.value, w.disk), e.snapshot, e.now).1.Ok?
  }

  lemma FailedReconciliationWaits(writes: Writes, rule: LossRule, m: Machine, a: AccountSnapshot, now: Time)
    ensures Reconciled(writes, rule, m, a, now).1.Err? ==> Reconciled(writes, rule, m, a, now).0.doc.needsReconciliation
  {
  }

  lemma FlaggedIsNotApproved(rule: LossRule, d: RiskDocument, a: AccountSnapshot, t: ProposedTrade, now: Time)
    requires d.needsReconciliation
    ensures !EvaluateTrade(d.policy, a, t, d, rule, now).approved
  {
    assert Gate(d.policy, a, t, d, now).Some?;
  }

  lemma AuthorizingWaits(writes: Writes, rule: LossRule, m: Machine, a: AccountSnapshot, t: ProposedTrade, now: Time)
    requires m.doc.needsReconciliation
    ensures Authorized(writes, rule, m, a, t, now).1.Err? && Authorized(writes, rule, m, a, t, now).0.doc.needsReconciliation
  {
    FlaggedIsNotApproved(rule, m.doc, a, t, now);
    AuthorizedExactlyWhen(writes, rule, m, a, t, now);
  }

  lemma SubmittingWaits(writes: Writes, rule: LossRule, m: Machine, token: Authorization, refreshed: ProposedTrade,
                        a: AccountSnapshot, now: Time)
    requires m.doc.needsReconciliation
    requires TokenMatches(m.doc, token).Err? || !SameTerms(token.request, refreshed) || Reconciled(writes, rule, m, a, now).1.Err?
    ensures Submitted(writes, rule, m, token, refreshed, a, now).1.Err?
    ensures Submitted(writes, rule, m, token, refreshed, a, now).0.doc.needsReconciliation
  {
    FailedReconciliationWaits(writes, rule, m, a, now);
  }

  lemma LedgerWaits(writes: Writes, m: Machine, x: Execution)
    requires m.doc.needsReconciliation
    ensures Executed(writes, m, x).0.doc.needsReconciliation
  {
  }

  lemma ClosingWaits(writes: Writes, m: Machine, setup: string, at: Time, terminal: bool)
    requires m.doc.needsReconciliation
    ensures SetupClosed(writes, m, setup, at, terminal).0.doc.needsReconciliation
  {
  }

  lemma StepWaits(writes: Writes, w: World, e: Event)
    requires Waiting(w) && !Reconciles(writes, w, e)
    ensures var w' := Next(writes, w, e); Waiting(w') && w'.issued == w.issued && w'.submitted == w.submitted
  {
    if w.session.Some? && !StartsOrStops(e) {
      var m := Machine(w.session.value, w.disk);
      match e
      case LatchStops(account, daily) => LatchLeaves(writes, m, account, daily);
      case Execute(x) => LedgerWaits(writes, m, x);
      case CloseSetup(setup, at, terminal) => ClosingWaits(writes, m, setup, at, terminal);
      case Disconnect => DisconnectLeaves(writes, m);
      case Reconcile(a, rule, now) => FailedReconciliationWaits(writes, rule, m, a, now);
      case Authorize(a, t, rule, now) => AuthorizingWaits(writes, rule, m, a, t, now);
      case BeforeSubmit(token, refreshed, a, rule, now) => SubmittingWaits(writes, rule, m, token, refreshed, a, now);
      case Reject(token) => ReleaseLeaves(writes, m, token);
    }
  }

  /** Nothing has been authorized or submitted since `start`, and no session is enabled. */
  predicate Still(start: World, w: World)
  {
    Waiting(w) && w.issued == start.issued && w.submitted == start.submitted
  }

  lemma LastStirs(writes: Writes, w: World, events: seq<Event>)
    requires events != [] && Still(w, Run(writes, w, events[..|events| - 1])) && !Still(w, Run(writes, w, events))
    ensures Reconciles(writes, Run(writes, w, events[..|events| - 1]), events[|events| - 1])
  {
    var before, e := Run(writes, w, events[..|events| - 1]), events[|events| - 1];
    if !Reconciles(writes, before, e) {
      StepWaits(writes, before, e);
    }
  }

  /** From an open session that waits, such as a restarted one, or from none: if a run has authorized or submitted
      anything, or has left its session enabled, then a reconciliation succeeded in it. */
  lemma {:induction false} NothingUntilReconciled(writes: Writes, w: World, events: seq<Event>) returns (j: nat)
    requires Waiting(w) && !Still(w, Run(writes, w, events))
    ensures j < |events| && Reconciles(writes, Run(writes, w, events[..j]), events[j])
    decreases |events|
  {
    j := |events| - 1;
    if Still(w, Run(writes, w, events[..j])) {
      LastStirs(writes, w, events);
    } else {
      j := NothingUntilReconciled(writes, w, events[..|events| - 1]);
      assert events[..|events| - 1][..j] == events[..j];
    }
  }
}
