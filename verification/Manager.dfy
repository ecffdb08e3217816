/** The account session and its write-ahead protocol (adaptive-risk/src/manager.rs). */
module Manager {
  import opened Account
  import opened Calendar
  import opened Decimals
  import opened Decision
  import opened Ledger
  import opened Outcomes
  import opened Policy
  import opened Reserved
  import opened Store

  datatype Authorization = Authorization(
    accountId: string, policy: RiskPolicy, request: ProposedTrade, decision: RiskDecision)
  {
    function RequestId(): string { request.requestId }
  }

  // ----- What each session operation does to the document in memory and on disk -----

  /** The session's document and the store behind it. */
  datatype Machine = Machine(doc: RiskDocument, disk: Disk)

  /** Write the document ahead; a failed write leaves the session needing reconciliation. */
  ghost function Persisted(w: Writes, m: Machine): (Machine, Result<()>)
  {
    var (disk, ok) := Saved(w, m.disk, m.doc);
    if ok then (Machine(m.doc, disk), Ok(()))
    else (Machine(m.doc.(needsReconciliation := true), disk), Err(Storage))
  }

  /** Persist, then report: a storage error takes precedence over `r`. */
  ghost function PersistedThen<T>(w: Writes, m: Machine, r: Result<T>): (Machine, Result<T>)
  {
    var (m', p) := Persisted(w, m);
    (m', if p.Err? then Err(p.fault) else r)
  }

  ghost function Latched(w: Writes, m: Machine, account: bool, daily: bool): (Machine, Result<()>)
  {
    Persisted(w, m.(doc := m.doc.(accountLocked := m.doc.accountLocked || account, dailyLocked := m.doc.dailyLocked || daily)))
  }

  ghost function Executed(w: Writes, m: Machine, e: Execution): (Machine, Result<()>)
  {
    var (d, r) := AfterExecution(m.doc, e);
    PersistedThen(w, m.(doc := d), r)
  }

  ghost function SetupClosed(w: Writes, m: Machine, setup: string, at: Time, terminal: bool): (Machine, Result<()>)
  {
    var (d, r) := AfterSetupClosed(m.doc, setup, at, terminal);
    PersistedThen(w, m.(doc := d), r)
  }

  function Disconnecting(d: RiskDocument): RiskDocument
  {
    d.(invalidatedAfter := LaterMark(d.invalidatedAfter, d.lastReconciledAt), needsReconciliation := true)
  }

  ghost function DisconnectedFrom(w: Writes, m: Machine): (Machine, Result<()>)
  {
    Persisted(w, m.(doc := Disconnecting(m.doc)))
  }

  /** A submitted request must be proven resolved or be visible as an exposure. */
  predicate Explained(rs: Reservations, a: AccountSnapshot)
  {
    forall id | id in rs ::
      !rs[id].submitted || id in a.resolvedRequests || exists e | e in a.exposures :: e.requestId == Some(id)
  }

  /** Every check a reconciliation makes before it changes anything. */
  function Accepts(d: RiskDocument, a: AccountSnapshot, now: Time, reserved: Option<real>): Result<()>
  {
    if !a.connected then Err(BrokerDisconnected)
    else
      var valid := ValidateSnapshot(d.policy, d, a, now);
      if valid.Err? then valid
      else if a.dayReference.day.start < d.day.day.start then Err(DayMovedBackwards)
      else if a.dayReference.day == d.day.day && a.dayReference != d.day then Err(DayReferenceChanged)
      else if !Explained(d.reservations, a) then Err(UnresolvedRequest)
      else if reserved.None? then Err(InvalidExposure)
      else Ok(())
  }

  function Unresolved(rs: Reservations, resolved: set<string>): Reservations
  {
    map id | id in rs && id !in resolved :: rs[id]
  }

  /** The evidence is adopted before the floors are known. */
  function Adopted(d: RiskDocument, a: AccountSnapshot): RiskDocument
  {
    var newDay := a.dayReference.day != d.day.day;
    d.(day := if newDay then a.dayReference else d.day,
       dailyLocked := d.dailyLocked && !newDay,
       reservations := Unresolved(d.reservations, a.resolvedRequests),
       balanceHigh := Max(d.balanceHigh, a.balanceHigh),
       equityHigh := Max(d.equityHigh, a.equityHigh))
  }

  function Judged(d: RiskDocument, a: AccountSnapshot, f: Thresholds): RiskDocument
  {
    d.(dailyLocked := d.dailyLocked || a.equity <= f.internalDailyFloor,
       accountLocked := d.accountLocked || a.equity <= f.internalAccountFloor,
       lastSequence := Some(a.sequence),
       lastReconciledAt := Some(a.observedAt))
  }

  ghost function Applied(d: RiskDocument, a: AccountSnapshot, rule: LossRule, now: Time): (RiskDocument, Result<()>)
  {
    var accepts := Accepts(d, a, now, ReservedRisk(d.policy, d, a));
    if accepts.Err? then (d, accepts)
    else
      var adopted := Adopted(d, a);
      var f := rule(adopted.policy, adopted, a);
      if f.None? then (adopted, Err(RuleFailed)) else (Judged(adopted, a, f.value), Ok(()))
  }

  ghost function Reconciled(w: Writes, rule: LossRule, m: Machine, a: AccountSnapshot, now: Time): (Machine, Result<()>)
  {
    var (m1, p) := Persisted(w, m.(doc := m.doc.(needsReconciliation := true)));
    if p.Err? then (m1, p)
    else
      var (d, r) := Applied(m1.doc, a, rule, now);
      if r.Err? then (m1.(doc := d), r)
      else Persisted(w, m1.(doc := d.(needsReconciliation := false)))
  }

  function Reserve(d: RiskDocument, t: ProposedTrade, decision: RiskDecision, now: Time): RiskDocument
  {
    d.(attemptedRequests := d.attemptedRequests + {t.requestId},
       reservations := d.reservations[t.requestId :=
         Reservation(t.requestId, t.setupId, decision.allowedRiskAmount, decision.maxVolume, now, false)])
  }

  ghost function Authorized(w: Writes, rule: LossRule, m: Machine, a: AccountSnapshot, t: ProposedTrade,
                            now: Time): (Machine, Result<Authorization>)
  {
    var decision := EvaluateTrade(m.doc.policy, a, t, m.doc, rule, now);
    if !decision.approved then PersistedThen(w, m, Err(RiskBlocked))
    else
      PersistedThen(w, m.(doc := Reserve(m.doc, t, decision, now)),
                    Ok(Authorization(m.doc.accountId, m.doc.policy, t, decision)))
  }

  function TokenMatches(d: RiskDocument, token: Authorization): Result<()>
  {
    if token.accountId != d.accountId || token.policy != d.policy then Err(WrongAccount)
    else if token.RequestId() !in d.reservations then Err(AuthorizationMissing)
    else
      var r := d.reservations[token.RequestId()];
      if r.setupId == token.request.setupId && r.risk == token.decision.allowedRiskAmount
         && r.volume == token.decision.maxVolume then Ok(())
      else Err(ReservationMismatch)
  }

  /** Only the quote-dependent estimate fields may differ between authorization and submission. */
  predicate SameTerms(authorized: ProposedTrade, refreshed: ProposedTrade)
  {
    refreshed == authorized.(estimate := authorized.estimate.(
      price := refreshed.estimate.price,
      conversion := refreshed.estimate.conversion,
      costsPerUnit := refreshed.estimate.costsPerUnit,
      fixedCosts := refreshed.estimate.fixedCosts))
  }

  /** The state as it would be had this request never been made. */
  function Without(d: RiskDocument, id: string): RiskDocument
  {
    d.(reservations := d.reservations - {id}, attemptedRequests := d.attemptedRequests - {id})
  }

  /** The final checks of a submission, on the reconciled document. */
  function MaySubmit(d: RiskDocument, token: Authorization, refreshed: ProposedTrade, result: RiskDecision): Result<()>
  {
    var loss := refreshed.estimate.Loss(token.decision.maxVolume, d.policy.execution.slippageBufferPctOfRisk);
    if loss.None? then Err(InvalidExposure)
    else if !(result.approved && token.decision.maxVolume <= result.maxVolume
              && loss.value * Overlap(d.policy, refreshed) <= token.decision.allowedRiskAmount) then Err(RiskIncreased)
    else if token.RequestId() !in d.reservations then Err(AuthorizationMissing)
    else if d.reservations[token.RequestId()].submitted then Err(AlreadySubmitted)
    else Ok(())
  }

  ghost function Rechecked(rule: LossRule, d: RiskDocument, token: Authorization, refreshed: ProposedTrade,
                           a: AccountSnapshot, now: Time): Result<()>
  {
    var check := Without(d, token.RequestId());
    MaySubmit(d, token, refreshed, EvaluateTrade(check.policy, a, refreshed, check, rule, now))
  }

  function Submitting(d: RiskDocument, id: string): RiskDocument
    requires id in d.reservations
  {
    d.(reservations := d.reservations[id := d.reservations[id].(submitted := true)], needsReconciliation := true)
  }

  ghost function Submitted(w: Writes, rule: LossRule, m: Machine, token: Authorization, refreshed: ProposedTrade,
                           a: AccountSnapshot, now: Time): (Machine, Result<()>)
  {
    var matches := TokenMatches(m.doc, token);
    if matches.Err? then (m, matches)
    else if !SameTerms(token.request, refreshed) then (m, Err(OrderTermsChanged))
    else
      var (m1, r) := Reconciled(w, rule, m, a, now);
      if r.Err? then (m1, r)
      else
        var may := Rechecked(rule, m1.doc, token, refreshed, a, now);
        if may.Err? then (m1, may) else Persisted(w, m1.(doc := Submitting(m1.doc, token.RequestId())))
  }

  function Releasing(d: RiskDocument, id: string): RiskDocument
  {
    d.(reservations := d.reservations - {id}, needsReconciliation := true)
  }

  ghost function Released(w: Writes, m: Machine, token: Authorization): (Machine, Result<()>)
  {
    var matches := TokenMatches(m.doc, token);
    if matches.Err? then (m, matches) else Persisted(w, m.(doc := Releasing(m.doc, token.RequestId())))
  }

  // ----- The session -----

  class RiskSession {
    const store: LockedStore
    const state: RiskState

    ghost function Model(): Machine
      reads state, store
    {
      Machine(state.Document(), store.Contents())
    }

    constructor (store: LockedStore, d: RiskDocument)
      ensures this.store == store && fresh(state) && Model() == Machine(d, store.Contents())
    {
      this.store := store;
      state := new RiskState(d);
    }

    method Persist() returns (r: Result<()>)
      modifies state, store
      ensures (Model(), r) == Persisted(store.outcome, old(Model()))
    {
      var ok := store.Save(state.Document());
      if !ok {
        state.needsReconciliation := true;
        return Err(Storage);
      }
      r := Ok(());
    }

    method LatchStops(account: bool, daily: bool) returns (r: Result<()>)
      modifies state, store
      ensures (Model(), r) == Latched(store.outcome, old(Model()), account, daily)
    {
      state.accountLocked := state.accountLocked || account;
      state.dailyLocked := state.dailyLocked || daily;
      r := Persist();
    }

    method OnExecution(e: Execution) returns (r: Result<()>)
      modifies state, store
      ensures (Model(), r) == Executed(store.outcome, old(Model()), e)
    {
      var result := state.OnExecution(e);
      r := Persist();
      if r.Ok? { r := result; }
    }

    method OnSetupClosed(setup: string, at: Time, terminal: bool) returns (r: Result<()>)
      modifies state, store
      ensures (Model(), r) == SetupClosed(store.outcome, old(Model()), setup, at, terminal)
    {
      var result := state.OnSetupClosed(setup, at, terminal);
      r := Persist();
      if r.Ok? { r := result; }
    }

    method Disconnect() returns (r: Result<()>)
      modifies state, store
      ensures (Model(), r) == DisconnectedFrom(store.outcome, old(Model()))
    {
      state.invalidatedAfter := LaterMark(state.invalidatedAfter, state.lastReconciledAt);
      state.needsReconciliation := true;
      r := Persist();
    }

    method ApplyReconciliation(a: AccountSnapshot, rule: LossRule, now: Time) returns (r: Result<()>)
      modifies state
      ensures (state.Document(), r) == Applied(old(state.Document()), a, rule, now)
    {
      var d := state.Document();
      var reserved := SumReservedRisk(d.policy, d, a);
      r := Accepts(d, a, now, reserved);
      if r.Err? { return; }
      Adopt(a);
      var floors := rule(state.policy, state.Document(), a);
      if floors.None? { return Err(RuleFailed); }
      Judge(a, floors.value);
    }

    method TurnDay(reference: DayReference)
      modifies state`day, state`dailyLocked
      ensures state.day == if reference.day != old(state.day).day then reference else old(state.day)
      ensures state.dailyLocked <==> old(state.dailyLocked) && reference.day == old(state.day).day
    {
      if reference.day != state.day.day {
        state.day := reference;
        state.dailyLocked := false;
      }
    }

    method Adopt(a: AccountSnapshot)
      modifies state
      ensures state.Document() == Adopted(old(state.Document()), a)
    {
      TurnDay(a.dayReference);
      state.reservations := Unresolved(state.reservations, a.resolvedRequests);
      state.balanceHigh := Max(state.balanceHigh, a.balanceHigh);
      state.equityHigh := Max(state.equityHigh, a.equityHigh);
    }

    method Judge(a: AccountSnapshot, floors: Thresholds)
      modifies state
      ensures state.Document() == Judged(old(state.Document()), a, floors)
    {
      if a.equity <= floors.internalDailyFloor {
        state.dailyLocked := true;
      }
      if a.equity <= floors.internalAccountFloor {
        state.accountLocked := true;
      }
      state.lastSequence := Some(a.sequence);
      state.lastReconciledAt := Some(a.observedAt);
    }

    method Reconcile(a: AccountSnapshot, rule: LossRule, now: Time) returns (r: Result<()>)
      modifies state, store
      ensures (Model(), r) == Reconciled(store.outcome, rule, old(Model()), a, now)
    {
      state.needsReconciliation := true;
      r := Persist();
      if r.Err? { return; }
      r := ApplyReconciliation(a, rule, now);
      if r.Err? { return; }
      state.needsReconciliation := false;
      r := Persist();
    }

    method Authorize(a: AccountSnapshot, t: ProposedTrade, rule: LossRule, now: Time) returns (r: Result<Authorization>)
      modifies state, store
      ensures (Model(), r) == Authorized(store.outcome, rule, old(Model()), a, t, now)
    {
      var decision := DecideTrade(state.policy, a, t, state.Document(), rule, now);
      if !decision.approved {
        var p := Persist();
        return Err(if p.Err? then p.fault else RiskBlocked);
      }
      Hold(t, decision, now);
      var p := Persist();
      if p.Err? { return Err(p.fault); }
      r := Ok(Authorization(state.accountId, state.policy, t, decision));
    }

    method Hold(t: ProposedTrade, decision: RiskDecision, now: Time)
      modifies state`attemptedRequests, state`reservations
      ensures state.Document() == Reserve(old(state.Document()), t, decision, now)
    {
      var reservation := Reservation(t.requestId, t.setupId, decision.allowedRiskAmount, decision.maxVolume, now, false);
      state.attemptedRequests := state.attemptedRequests + {t.requestId};
      state.reservations := state.reservations[t.requestId := reservation];
    }

    method BeforeSubmit(token: Authorization, refreshed: ProposedTrade, a: AccountSnapshot, rule: LossRule,
                        now: Time) returns (r: Result<()>)
      modifies state, store
      ensures (Model(), r) == Submitted(store.outcome, rule, old(Model()), token, refreshed, a, now)
    {
      r := TokenMatches(state.Document(), token);
      if r.Err? { return; }
      if !SameTerms(token.request, refreshed) { return Err(OrderTermsChanged); }
      r := Reconcile(a, rule, now);
      if r.Err? { return; }
      r := Recheck(token, refreshed, a, rule, now);
      if r.Err? { return; }
      r := MarkSubmitted(token.RequestId());
    }

    method Recheck(token: Authorization, refreshed: ProposedTrade, a: AccountSnapshot, rule: LossRule,
                   now: Time) returns (r: Result<()>)
      ensures r == Rechecked(rule, state.Document(), token, refreshed, a, now)
    {
      var d := state.Document();
      var check := Without(d, token.RequestId());
      var result := DecideTrade(check.policy, a, refreshed, check, rule, now);
      r := MaySubmit(d, token, refreshed, result);
    }

    method MarkSubmitted(id: string) returns (r: Result<()>)
      requires id in state.reservations
      modifies state, store
      ensures (Model(), r) == Persisted(store.outcome, old(Model().(doc := Submitting(state.Document(), id))))
    {
      state.reservations := state.reservations[id := state.reservations[id].(submitted := true)];
      state.needsReconciliation := true;
      r := Persist();
    }

    method RejectedWithoutFill(token: Authorization) returns (r: Result<()>)
      modifies state, store
      ensures (Model(), r) == Released(store.outcome, old(Model()), token)
    {
      r := TokenMatches(state.Document(), token);
      if r.Err? { return; }
      state.reservations := state.reservations - {token.RequestId()};
      state.needsReconciliation := true;
      r := Persist();
    }
  }

  /** What `RiskManager::begin` hands to a new session. */
  function Begun(document: RiskDocument, accountId: string, policy: RiskPolicy): Result<RiskDocument>
  {
    var loaded := Loaded(document);
    if loaded.Ok? && !(loaded.value.accountId == accountId && loaded.value.policy == policy) then Err(PolicyChanged)
    else loaded
  }

  class RiskManager {
    const store: LockedStore
    const accountId: string
    const policy: RiskPolicy

    constructor (store: LockedStore, accountId: string, policy: RiskPolicy)
      ensures this.store == store && this.accountId == accountId && this.policy == policy
    {
      this.store, this.accountId, this.policy := store, accountId, policy;
    }

    method Begin() returns (r: Result<RiskSession>)
      ensures match Begun(store.document, accountId, policy)
        case Err(fault) => r == Err(fault)
        case Ok(d) => r.Ok? && fresh(r.value) && fresh(r.value.state) && r.value.store == store
                      && r.value.Model() == Machine(d, store.Contents())
      ensures r.Ok? <==> store.document.accountId == accountId && store.document.policy == policy && policy.Valid()
      ensures r.Ok? ==> r.value.state.Document() == store.document.(needsReconciliation := true)
    {
      var loaded := store.Load();
      if loaded.Err? { return Err(loaded.fault); }
      if !(loaded.value.accountId == accountId && loaded.value.policy == policy) { return Err(PolicyChanged); }
      var session := new RiskSession(store, loaded.value);
      r := Ok(session);
    }
  }
}
