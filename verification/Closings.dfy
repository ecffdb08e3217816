/** What the ledger answers: when an execution is recorded, when a setup is sealed, how the streak moves
    (adaptive-risk/src/ledger.rs). */
module Closings {
  import opened Account
  import opened Answers
  import opened Calendar
  import opened Ledger
  import opened Ordering
  import opened Outcomes
  import opened Policy
  import opened Streaks
  import opened Sums

  // ----- Executions -----

  predicate Identified(e: Execution) { e.eventId != "" && e.setupId != "" && e.positionId != "" }

  /** The answer to an execution, by the first of its faults. */
  lemma ExecutionAnswers(d: RiskDocument, e: Execution)
    ensures var r, known := AfterExecution(d, e).1, e.eventId in d.executions;
      && (r == Err(MissingIdentity) <==> !Identified(e))
      && (r == Err(ConflictingExecution) <==> Identified(e) && known && d.executions[e.eventId] != e)
      && (r == Err(LateExecution) <==> Identified(e) && !known && e.setupId in d.outcomes)
      && (r.Ok? <==> Identified(e) && if known then d.executions[e.eventId] == e else e.setupId !in d.outcomes)
  {
  }

  /** An execution is added exactly when it is identified, new and not of a sealed setup. A new one, even if
      refused, invalidates up to its own time and the last reconciliation; it or any refusal raises the flag;
      nothing else changes. */
  lemma ExecutionLeaves(d: RiskDocument, e: Execution)
    ensures var (after, r), unseen := AfterExecution(d, e), e.eventId !in d.executions;
      && after.executions == (if Identified(e) && unseen && e.setupId !in d.outcomes then d.executions[e.eventId := e] else d.executions)
      && (after.needsReconciliation <==> d.needsReconciliation || unseen || r.Err?)
      && (!unseen ==> after.invalidatedAfter == d.invalidatedAfter)
      && (unseen ==> exists mark :: IsLater(mark, d.invalidatedAfter, d.lastReconciledAt)
                                    && IsLater(after.invalidatedAfter, mark, Some(e.occurredAt)))
      && after == d.(executions := after.executions, needsReconciliation := after.needsReconciliation,
                     invalidatedAfter := after.invalidatedAfter)
  {
    var mark := LaterMark(d.invalidatedAfter, d.lastReconciledAt);
    assert IsLater(mark, d.invalidatedAfter, d.lastReconciledAt);
    assert IsLater(LaterMark(mark, Some(e.occurredAt)), mark, Some(e.occurredAt));
  }

  // ----- Sealing -----

  /** The setup's volume in one position, as a contribution of each execution. */
  function VolumeOf(setup: string, position: string): Execution -> real
  {
    (e: Execution) => if e.setupId == setup && e.positionId == position then e.volumeDelta else 0.0
  }

  function ResultOf(setup: string): Execution -> real
  {
    (e: Execution) => if e.setupId == setup then e.netPnl else 0.0
  }

  /** The setup has executions, and none later than `at`. */
  ghost predicate Complete(es: Events, setup: string, at: Time)
  {
    && (exists id :: id in es && es[id].setupId == setup)
    && (forall id | id in es && es[id].setupId == setup :: es[id].occurredAt <= at)
  }

  /** Some execution of the setup opened volume in the position, and all of them together net to zero there. */
  ghost predicate Flat(es: Events, setup: string, position: string)
  {
    && (exists id :: id in es && es[id].setupId == setup && es[id].positionId == position && 0.0 < es[id].volumeDelta)
    && SumBy(es, VolumeOf(setup, position)) == 0.0
  }

  ghost predicate AllFlat(es: Events, setup: string)
  {
    forall id | id in es && es[id].setupId == setup :: Flat(es, setup, es[id].positionId)
  }

  lemma {:induction false} FilteredSum(es: Events, setup: string, f: Execution -> real, g: Execution -> real)
    requires forall e: Execution :: g(e) == if e.setupId == setup then f(e) else 0.0
    ensures SumBy(SetupEvents(es, setup), f) == SumBy(es, g)
    decreases |es|
  {
    var mine := SetupEvents(es, setup);
    if es == map[] {
      assert mine == map[];
    } else {
      var k := Pick(es);
      SmallerWithout(es, k);
      FilteredSum(es - {k}, setup, f, g);
      if es[k].setupId == setup {
        SumByRemove(mine, f, k);
        assert SetupEvents(es - {k}, setup) == mine - {k};
      } else {
        assert SetupEvents(es - {k}, setup) == mine;
      }
    }
  }

  lemma FlatIff(es: Events, setup: string, position: string)
    ensures var mine := SetupEvents(es, setup);
      Flat(es, setup, position) <==> NetVolume(mine, position) == 0.0 && Opened(mine, position)
  {
    var mine := SetupEvents(es, setup);
    FilteredSum(es, setup, VolumeIn(position), VolumeOf(setup, position));
    if Opened(mine, position) {
      var id :| id in mine && mine[id].positionId == position && 0.0 < mine[id].volumeDelta;
      assert id in es;
    }
    if exists id :: id in es && es[id].setupId == setup && es[id].positionId == position && 0.0 < es[id].volumeDelta {
      var id :| id in es && es[id].setupId == setup && es[id].positionId == position && 0.0 < es[id].volumeDelta;
      assert id in mine;
    }
  }

  lemma AllFlatIff(es: Events, setup: string)
    ensures AllFlat(es, setup) <==> FullyClosed(SetupEvents(es, setup))
  {
    var mine := SetupEvents(es, setup);
    forall position ensures Flat(es, setup, position) <==> NetVolume(mine, position) == 0.0 && Opened(mine, position) {
      FlatIff(es, setup, position);
    }
    forall id | id in mine ensures mine[id].positionId in Positions(mine) { }
    if AllFlat(es, setup) {
      forall position | position in Positions(mine) ensures NetVolume(mine, position) == 0.0 && Opened(mine, position) {
        var id :| id in mine && mine[id].positionId == position;
        assert Flat(es, setup, es[id].positionId);
      }
    } else {
      var id :| id in es && es[id].setupId == setup && !Flat(es, setup, es[id].positionId);
      assert id in mine && mine[id].positionId in Positions(mine);
    }
  }

  lemma CompleteIff(es: Events, setup: string, at: Time)
    ensures var mine := SetupEvents(es, setup);
      Complete(es, setup, at) <==> mine != map[] && forall id | id in mine :: mine[id].occurredAt <= at
  {
    var mine := SetupEvents(es, setup);
    assert forall id | id in es && es[id].setupId == setup :: id in mine && mine[id] == es[id];
    assert forall id | id in mine :: id in es && es[id].setupId == setup && mine[id] == es[id];
    if mine != map[] {
      var id := Pick(mine);
      assert id in es && es[id].setupId == setup;
    }
  }

  /** Sealing a setup, by the first of its faults; sealed, its result is the sum over its executions. */
  lemma SealAnswers(es: Events, setup: string, at: Time)
    ensures Seal(es, setup, at) ==
      if !Complete(es, setup, at) then Err(IncompleteSetup)
      else if !AllFlat(es, setup) then Err(SetupNotClosed)
      else Ok(SetupOutcome(setup, at, SumBy(es, ResultOf(setup))))
  {
    CompleteIff(es, setup, at);
    AllFlatIff(es, setup);
    FilteredSum(es, setup, (e: Execution) => e.netPnl, ResultOf(setup));
  }

  /** A closing of an unsealed setup seals it exactly when its members are terminal, it has executions and none
      later than the closing, and each of its positions was opened and nets to zero. Each other case has its own
      error, and every error raises the flag and nothing else. */
  lemma ClosingExactlyWhen(d: RiskDocument, setup: string, at: Time, terminal: bool)
    ensures var (after, r) := AfterSetupClosed(d, setup, at, terminal);
      var complete, flat := Complete(d.executions, setup, at), AllFlat(d.executions, setup);
      var outcome := SetupOutcome(setup, at, SumBy(d.executions, ResultOf(setup)));
      && (r == Err(LiveMembers) <==> !terminal)
      && (r == Err(IncompleteSetup) <==> terminal && !complete)
      && (r == Err(SetupNotClosed) <==> terminal && complete && !flat)
      && (r == Err(ConflictingOutcome) <==> terminal && complete && flat && setup in d.outcomes && d.outcomes[setup] != outcome)
      && (r.Ok? <==> terminal && complete && flat && (setup in d.outcomes ==> d.outcomes[setup] == outcome))
      && (setup !in d.outcomes ==> (setup in after.outcomes <==> terminal && complete && flat))
      && after.outcomes == (if r.Ok? then d.outcomes[setup := outcome] else d.outcomes)
      && (after.needsReconciliation <==> d.needsReconciliation || r.Err?)
      && after == d.(outcomes := after.outcomes, needsReconciliation := after.needsReconciliation,
                     consecutiveLosses := if setup !in d.outcomes && r.Ok? then StreakOf(d.policy.streakBackoff, after.outcomes)
                                          else d.consecutiveLosses)
  {
    SealAnswers(d.executions, setup, at);
    if setup in d.outcomes {
      assert d.outcomes[setup := d.outcomes[setup]] == d.outcomes;
    }
  }

  // ----- The streak -----

  lemma NoOutcomesNoStreak(b: StreakBackoff)
    ensures StreakOf(b, map[]) == 0
  {
    var none: map<string, SetupOutcome> := map[];
    assert Counted(b, none.Items) == {};
  }

  /** The outcome comes after every one in `outcomes`, by time of closing and then by setup id. */
  ghost predicate ComesLast(outcomes: map<string, SetupOutcome>, o: SetupOutcome)
  {
    forall id | id in outcomes ::
      || outcomes[id].closedAt < o.closedAt
      || (outcomes[id].closedAt == o.closedAt && Before(outcomes[id].setupId, o.setupId))
  }

  lemma ItemsInsert(outcomes: map<string, SetupOutcome>, key: string, o: SetupOutcome)
    requires key !in outcomes
    ensures outcomes[key := o].Items == outcomes.Items + {(key, o)}
  {
    var entry: Entry := (key, o);
    var before, after := outcomes.Items + {entry}, outcomes[key := o].Items;
    forall e: Entry ensures e in after <==> e in before {
      assert e == (e.0, e.1);
    }
    SameElements(after, before);
  }

  lemma SameElements<T>(a: set<T>, b: set<T>)
    requires forall x: T :: x in a <==> x in b
    ensures a == b
  {
  }

  /** The latest outcome moves the streak by its own result: a loss adds one, up to the 32-bit range; a win ends it
      when wins reset, a break-even when break-evens do; otherwise it stands. */
  lemma LatestOutcomeMoves(b: StreakBackoff, outcomes: map<string, SetupOutcome>, key: string, o: SetupOutcome)
    requires key !in outcomes && ComesLast(outcomes, o)
    ensures var before, after := StreakOf(b, outcomes), StreakOf(b, outcomes[key := o]);
      && (o.netPnl < 0.0 ==> after == if before < 0xffff_ffff then before + 1 else 0xffff_ffff)
      && (0.0 < o.netPnl ==> after == if b.resetOnWin then 0 else before)
      && (o.netPnl == 0.0 ==> after == if b.resetOnBreakEven then 0 else before)
  {
    var entry: Entry := (key, o);
    ItemsInsert(outcomes, key, o);
    forall e | e in outcomes.Items ensures Earlier(e, entry) {
      assert e.0 in outcomes && outcomes[e.0] == e.1;
    }
    ReplayLatest(b, outcomes.Items, entry);
  }
}
