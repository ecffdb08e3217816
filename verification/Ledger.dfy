/** The execution ledger and sealed setups (adaptive-risk/src/ledger.rs). */
module Ledger {
  import opened Account
  import opened Calendar
  import opened Outcomes
  import opened Policy
  import opened Streaks
  import opened Sums

  type Events = map<string, Execution>

  // ----- Specification over documents -----

  function LaterMark(mark: Option<Time>, t: Option<Time>): Option<Time>
  {
    if t.None? || (mark.Some? && t.value <= mark.value) then mark else t
  }

  function Recorded(d: RiskDocument, e: Execution): (RiskDocument, Result<()>)
  {
    if e.eventId == "" || e.setupId == "" || e.positionId == "" then (d, Err(MissingIdentity))
    else if e.eventId in d.executions then
      (d, if d.executions[e.eventId] == e then Ok(()) else Err(ConflictingExecution))
    else if e.setupId in d.outcomes then (d, Err(LateExecution))
    else (d.(executions := d.executions[e.eventId := e]), Ok(()))
  }

  function AfterExecution(d: RiskDocument, e: Execution): (RiskDocument, Result<()>)
  {
    var (recorded, r) := Recorded(d, e);
    var unseen := e.eventId !in d.executions;
    var mark := if unseen then LaterMark(LaterMark(d.invalidatedAfter, d.lastReconciledAt), Some(e.occurredAt))
                else d.invalidatedAfter;
    (recorded.(invalidatedAfter := mark, needsReconciliation := d.needsReconciliation || unseen || r.Err?), r)
  }

  ghost function SetupEvents(es: Events, setup: string): Events
  {
    map id | id in es && es[id].setupId == setup :: es[id]
  }

  ghost function NetPnl(es: Events): real { SumBy(es, (e: Execution) => e.netPnl) }

  ghost function Positions(es: Events): set<string> { set id | id in es :: es[id].positionId }

  /** The volume `e` moves in `position`. */
  function VolumeIn(position: string): Execution -> real
  {
    (e: Execution) => if e.positionId == position then e.volumeDelta else 0.0
  }

  ghost function NetVolume(es: Events, position: string): real { SumBy(es, VolumeIn(position)) }

  ghost predicate Opened(es: Events, position: string)
  {
    exists id :: id in es && es[id].positionId == position && 0.0 < es[id].volumeDelta
  }

  ghost predicate FullyClosed(es: Events)
  {
    forall position | position in Positions(es) :: NetVolume(es, position) == 0.0 && Opened(es, position)
  }

  /** What sealing `setup` at `at` would record. */
  ghost function Seal(es: Events, setup: string, at: Time): Result<SetupOutcome>
  {
    var mine := SetupEvents(es, setup);
    if mine == map[] || !(forall id | id in mine :: mine[id].occurredAt <= at) then Err(IncompleteSetup)
    else if !FullyClosed(mine) then Err(SetupNotClosed)
    else Ok(SetupOutcome(setup, at, NetPnl(mine)))
  }

  ghost function Closed(d: RiskDocument, setup: string, at: Time, terminal: bool): (RiskDocument, Result<()>)
  {
    if !terminal then (d, Err(LiveMembers))
    else
      var sealed := Seal(d.executions, setup, at);
      if sealed.Err? then (d, Err(sealed.fault))
      else if setup in d.outcomes then
        (d, if d.outcomes[setup] == sealed.value then Ok(()) else Err(ConflictingOutcome))
      else
        var outcomes := d.outcomes[setup := sealed.value];
        (d.(outcomes := outcomes, consecutiveLosses := StreakOf(d.policy.streakBackoff, outcomes)), Ok(()))
  }

  ghost function AfterSetupClosed(d: RiskDocument, setup: string, at: Time, terminal: bool): (RiskDocument, Result<()>)
  {
    var (closed, r) := Closed(d, setup, at, terminal);
    (closed.(needsReconciliation := d.needsReconciliation || r.Err?), r)
  }

  // ----- The state object -----

  class RiskState {
    var accountId: string
    var policy: RiskPolicy
    var initialBalance: real
    var balanceHigh: real
    var equityHigh: real
    var day: DayReference
    var dailyLocked: bool
    var accountLocked: bool
    var consecutiveLosses: nat
    var reservations: map<string, Reservation>
    var attemptedRequests: set<string>
    var executions: map<string, Execution>
    var outcomes: map<string, SetupOutcome>
    var lastSequence: Option<nat>
    var lastReconciledAt: Option<Time>
    var needsReconciliation: bool
    var invalidatedAfter: Option<Time>

    /** The state's value: `clone` and serialization see exactly this. */
    function Document(): RiskDocument
      reads this
    {
      RiskDocument(accountId, policy, initialBalance, balanceHigh, equityHigh, day, dailyLocked, accountLocked,
                   consecutiveLosses, reservations, attemptedRequests, executions, outcomes, lastSequence,
                   lastReconciledAt, needsReconciliation, invalidatedAfter)
    }

    constructor (d: RiskDocument)
      ensures Document() == d
    {
      accountId, policy, initialBalance := d.accountId, d.policy, d.initialBalance;
      balanceHigh, equityHigh, day := d.balanceHigh, d.equityHigh, d.day;
      dailyLocked, accountLocked, consecutiveLosses := d.dailyLocked, d.accountLocked, d.consecutiveLosses;
      reservations, attemptedRequests := d.reservations, d.attemptedRequests;
      executions, outcomes := d.executions, d.outcomes;
      lastSequence, lastReconciledAt := d.lastSequence, d.lastReconciledAt;
      needsReconciliation, invalidatedAfter := d.needsReconciliation, d.invalidatedAfter;
    }

    method OnExecution(e: Execution) returns (r: Result<()>)
      modifies this
      ensures (Document(), r) == AfterExecution(old(Document()), e)
    {
      var unseen := e.eventId !in executions;
      r := RecordExecution(e);
      if unseen {
        needsReconciliation := true;
        invalidatedAfter := LaterMark(LaterMark(invalidatedAfter, lastReconciledAt), Some(e.occurredAt));
      }
      if r.Err? {
        needsReconciliation := true;
      }
    }

    method RecordExecution(e: Execution) returns (r: Result<()>)
      modifies this
      ensures (Document(), r) == Recorded(old(Document()), e)
    {
      if e.eventId == "" || e.setupId == "" || e.positionId == "" { return Err(MissingIdentity); }
      if e.eventId in executions {
        return if executions[e.eventId] == e then Ok(()) else Err(ConflictingExecution);
      }
      if e.setupId in outcomes { return Err(LateExecution); }
      executions := executions[e.eventId := e];
      r := Ok(());
    }

    method OnSetupClosed(setup: string, at: Time, terminal: bool) returns (r: Result<()>)
      modifies this
      ensures (Document(), r) == AfterSetupClosed(old(Document()), setup, at, terminal)
    {
      r := CloseSetup(setup, at, terminal);
      if r.Err? {
        needsReconciliation := true;
      }
    }

    method CloseSetup(setup: string, at: Time, terminal: bool) returns (r: Result<()>)
      modifies this
      ensures (Document(), r) == Closed(old(Document()), setup, at, terminal)
    {
      if !terminal { return Err(LiveMembers); }
      var sealed := SealSetup(executions, setup, at);
      if sealed.Err? { return Err(sealed.fault); }
      var outcome := sealed.value;
      if setup in outcomes {
        return if outcomes[setup] == outcome then Ok(()) else Err(ConflictingOutcome);
      }
      outcomes := outcomes[setup := outcome];
      RebuildStreak();
      r := Ok(());
    }

    method RebuildStreak()
      modifies this`consecutiveLosses
      ensures consecutiveLosses == StreakOf(policy.streakBackoff, outcomes)
    {
      consecutiveLosses := ReplayStreak(policy.streakBackoff, outcomes);
    }
  }

  lemma PositionsInsert(es: Events, id: string, e: Execution)
    requires id !in es
    ensures Positions(es[id := e]) == Positions(es) + {e.positionId}
  {
    var after := es[id := e];
    assert after[id] == e;
    assert forall k | k in es :: after[k] == es[k];
  }

  lemma OpenedInsert(es: Events, id: string, e: Execution, p: string)
    requires id !in es
    ensures Opened(es[id := e], p) <==> Opened(es, p) || (e.positionId == p && 0.0 < e.volumeDelta)
  {
    var after := es[id := e];
    assert after[id] == e;
    if Opened(es, p) {
      var k :| k in es && es[k].positionId == p && 0.0 < es[k].volumeDelta;
      assert after[k] == es[k];
    }
  }

  function ValueIn(volumes: map<string, real>, p: string): real { if p in volumes then volumes[p] else 0.0 }

  /** The running totals of one position after a pass over `es`. */
  ghost predicate PositionTallied(es: Events, volumes: map<string, real>, entered: set<string>, p: string)
  {
    && (p in volumes <==> p in Positions(es))
    && ValueIn(volumes, p) == NetVolume(es, p)
    && (p in entered <==> Opened(es, p))
  }

  ghost predicate Tallied(es: Events, volumes: map<string, real>, entered: set<string>)
  {
    forall p :: PositionTallied(es, volumes, entered, p)
  }

  lemma PositionStep(es: Events, volumes: map<string, real>, entered: set<string>, id: string, e: Execution, p: string)
    requires id !in es && PositionTallied(es, volumes, entered, p)
    ensures PositionTallied(es[id := e],
                            volumes[e.positionId := ValueIn(volumes, e.positionId) + e.volumeDelta],
                            if 0.0 < e.volumeDelta then entered + {e.positionId} else entered, p)
  {
    PositionsInsert(es, id, e);
    SumByInsert(es, VolumeIn(p), id, e);
    OpenedInsert(es, id, e, p);
  }

  lemma TallyStep(es: Events, volumes: map<string, real>, entered: set<string>, id: string, e: Execution)
    requires id !in es && Tallied(es, volumes, entered)
    ensures Tallied(es[id := e],
                    volumes[e.positionId := ValueIn(volumes, e.positionId) + e.volumeDelta],
                    if 0.0 < e.volumeDelta then entered + {e.positionId} else entered)
  {
    var volumes' := volumes[e.positionId := ValueIn(volumes, e.positionId) + e.volumeDelta];
    var entered' := if 0.0 < e.volumeDelta then entered + {e.positionId} else entered;
    var es' := es[id := e];
    forall p ensures PositionTallied(es', volumes', entered', p) {
      PositionStep(es, volumes, entered, id, e, p);
    }
  }

  lemma NothingTallied()
    ensures Tallied(map[], map[], {})
  {
  }

  /** One pass over a setup's events: volume per position, positions opened, net result. */
  method Accumulate(es: Events) returns (volumes: map<string, real>, entered: set<string>, net: real)
    ensures net == NetPnl(es) && Tallied(es, volumes, entered)
  {
    volumes, entered, net := map[], {}, 0.0;
    var todo := es.Keys;
    ghost var seen: Events := map[];
    NothingTallied();
    while todo != {}
      invariant todo <= es.Keys && seen == es - todo
      invariant net == NetPnl(seen) && Tallied(seen, volumes, entered)
    {
      var id :| id in todo;
      var e := es[id];
      TallyStep(seen, volumes, entered, id, e);
      SumByInsert(seen, (e: Execution) => e.netPnl, id, e);
      var previous := ValueIn(volumes, e.positionId);
      entered := if 0.0 < e.volumeDelta then entered + {e.positionId} else entered;
      volumes := volumes[e.positionId := previous + e.volumeDelta];
      net := net + e.netPnl;
      todo := todo - {id};
      seen := seen[id := e];
    }
    assert seen == es;
  }

  method SealSetup(es: Events, setup: string, at: Time) returns (r: Result<SetupOutcome>)
    ensures r == Seal(es, setup, at)
  {
    var mine := map id | id in es && es[id].setupId == setup :: es[id];
    assert mine == SetupEvents(es, setup);
    if mine == map[] || !(forall id | id in mine :: mine[id].occurredAt <= at) { return Err(IncompleteSetup); }
    var volumes, entered, net := Accumulate(mine);
    assert forall p | p in Positions(mine) :: PositionTallied(mine, volumes, entered, p);
    assert forall p | p in volumes :: PositionTallied(mine, volumes, entered, p);
    if !(forall p | p in volumes :: volumes[p] == 0.0 && p in entered) { return Err(SetupNotClosed); }
    r := Ok(SetupOutcome(setup, at, net));
  }
}
