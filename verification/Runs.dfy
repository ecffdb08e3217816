/** Whole runs: any sequence of session operations, failed writes, crashes, power losses and restarts. */
module Runs {
  import opened Account
  import opened Calendar
  import opened Decision
  import opened Evolution
  import opened Manager
  import opened Outcomes
  import opened Policy
  import opened Store

  datatype Event =
    | Begin(accountId: string, policy: RiskPolicy)
    | Crash
    | PowerLoss(survivor: RiskDocument)
    | LatchStops(account: bool, daily: bool)
    | Execute(execution: Execution)
    | CloseSetup(setup: string, at: Time, terminal: bool)
    | Disconnect
    | Reconcile(snapshot: AccountSnapshot, rule: LossRule, now: Time)
    | Authorize(snapshot: AccountSnapshot, trade: ProposedTrade, rule: LossRule, now: Time)
    | BeforeSubmit(token: Authorization, refreshed: ProposedTrade, snapshot: AccountSnapshot, rule: LossRule, now: Time)
    | Reject(token: Authorization)

  /** The session's document while a process holds the account lock, the disk, and a record of
      what has been allowed: requests authorized, submitted (in order), and let go since their
      authorization. */
  datatype World = World(
    session: Option<RiskDocument>,
    disk: Disk,
    issued: map<string, Reservation>,
    submitted: seq<string>,
    freed: set<string>)
  {
    ghost predicate Holds(P: RiskDocument -> bool)
    {
      (session.Some? ==> P(session.value)) && forall d | d in disk.durable :: P(d)
    }
  }

  ghost function At(w: World, m: Machine): World { w.(session := Some(m.doc), disk := m.disk) }

  ghost function InSession(writes: Writes, w: World, e: Event): World
    requires w.session.Some?
  {
    var m := Machine(w.session.value, w.disk);
    match e
    case Begin(_, _) => w
    case Crash => w.(session := None)
    case PowerLoss(survivor) =>
      if survivor in w.disk.durable then w.(session := None, disk := w.disk.(document := survivor)) else w
    case LatchStops(account, daily) => At(w, Latched(writes, m, account, daily).0)
    case Execute(x) => At(w, Executed(writes, m, x).0)
    case CloseSetup(setup, at, terminal) => At(w, SetupClosed(writes, m, setup, at, terminal).0)
    case Disconnect => At(w, DisconnectedFrom(writes, m).0)
    case Reconcile(a, rule, now) =>
      At(w, Reconciled(writes, rule, m, a, now).0).(freed := w.freed + FreedBy(writes, m, a, now))
    case Authorize(a, t, rule, now) =>
      var (m', r) := Authorized(writes, rule, m, a, t, now);
      if r.Err? then At(w, m')
      else At(w, m').(issued := w.issued[t.requestId := m'.doc.reservations[t.requestId]], freed := w.freed - {t.requestId})
    case BeforeSubmit(token, refreshed, a, rule, now) =>
      var (m', r) := Submitted(writes, rule, m, token, refreshed, a, now);
      At(w, m').(freed := w.freed + FreedBySubmission(writes, m, token, refreshed, a, now),
                 submitted := if r.Ok? then w.submitted + [token.RequestId()] else w.submitted)
    case Reject(token) =>
      At(w, Released(writes, m, token).0).(
        freed := w.freed + if TokenMatches(m.doc, token).Ok? then {token.RequestId()} else {})
  }

  /** One event. Without a session only a restart, a crash or a power loss can happen. */
  ghost function Next(writes: Writes, w: World, e: Event): World
  {
    if w.session.Some? then InSession(writes, w, e)
    else match e
      case Begin(accountId, policy) =>
        var begun := Begun(w.disk.document, accountId, policy);
        if begun.Ok? then w.(session := Some(begun.value)) else w
      case PowerLoss(survivor) =>
        if survivor in w.disk.durable then w.(disk := w.disk.(document := survivor)) else w
      case _ => w
  }

  ghost function Run(writes: Writes, w: World, events: seq<Event>): World
    decreases |events|
  {
    if events == [] then w
    else Next(writes, Run(writes, w, events[..|events| - 1]), events[|events| - 1])
  }

  // ----- What a run inherits -----

  /** `P` passes from a document to everything that evolves from it, given the requests let go. */
  ghost predicate Inherited(P: RiskDocument -> bool, freed: set<string>)
  {
    forall d, d' | P(d) && Evolves(d, d', freed) :: P(d')
  }

  ghost predicate Steadfast(P: RiskDocument -> bool)
  {
    forall d, d', freed | P(d) && Evolves(d, d', freed) :: P(d')
  }

  ghost predicate AccountedDocument(d: RiskDocument) { Accounted(d.reservations, d.attemptedRequests) }

  predicate StartsOrStops(e: Event) { e.Begin? || e.Crash? || e.PowerLoss? }

  lemma StepAdvances(writes: Writes, w: World, e: Event)
    requires w.session.Some? && w.disk.Valid() && AccountedDocument(w.session.value) && !StartsOrStops(e)
    ensures var w' := InSession(writes, w, e);
      && w'.session.Some?
      && exists freed :: freed <= w'.freed
          && Advances(Machine(w.session.value, w.disk), Machine(w'.session.value, w'.disk), freed)
  {
    var m := Machine(w.session.value, w.disk);
    match e
    case LatchStops(account, daily) => LatchedAdvances(writes, m, account, daily);
    case Execute(x) => ExecutedAdvances(writes, m, x);
    case CloseSetup(setup, at, terminal) => SetupClosedAdvances(writes, m, setup, at, terminal);
    case Disconnect => DisconnectedAdvances(writes, m);
    case Reconcile(a, rule, now) => ReconciledAdvances(writes, rule, m, a, now);
    case Authorize(a, t, rule, now) => AuthorizedAdvances(writes, rule, m, a, t, now);
    case BeforeSubmit(token, refreshed, a, rule, now) => SubmittedAdvances(writes, rule, m, token, refreshed, a, now);
    case Reject(token) => ReleasedAdvances(writes, m, token);
  }

  lemma AdvanceInherits(m: Machine, m': Machine, freed: set<string>, more: set<string>, P: RiskDocument -> bool)
    requires Advances(m, m', freed) && freed <= more && Inherited(P, more)
    requires P(m.doc) && forall d | d in m.disk.durable :: P(d)
    ensures P(m'.doc) && forall d | d in m'.disk.durable :: P(d)
  {
    FreeingMore(m.doc, m'.doc, freed, more);
    forall d | d in m'.disk.durable ensures P(d) {
      if d !in m.disk.durable { FreeingMore(m.doc, d, freed, more); }
    }
  }

  lemma NextInherits(writes: Writes, w: World, e: Event, P: RiskDocument -> bool)
    requires w.disk.Valid() && w.Holds(AccountedDocument) && w.Holds(P)
    requires Inherited(P, Next(writes, w, e).freed)
    ensures Next(writes, w, e).disk.Valid() && Next(writes, w, e).Holds(P)
  {
    var w' := Next(writes, w, e);
    if w.session.Some? && !StartsOrStops(e) {
      StepAdvances(writes, w, e);
      var m, m' := Machine(w.session.value, w.disk), Machine(w'.session.value, w'.disk);
      var freed :| freed <= w'.freed && Advances(m, m', freed);
      AdvanceInherits(m, m', freed, w'.freed, P);
    } else if w.session.None? && e.Begin? && w'.session.Some? {
      Unchanged(w.disk.document);
      FreeingMore(w.disk.document, w'.session.value, {}, w'.freed);
    }
  }
}
