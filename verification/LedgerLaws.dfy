/** What the ledger keeps whatever arrives, and in whatever order (adaptive-risk/src/ledger.rs). */
module LedgerLaws {
  import opened Account
  import opened Calendar
  import opened Ledger
  import opened Outcomes
  import opened Policy
  import opened Streaks

  ghost predicate WellKeyed(es: Events)
  {
    forall id | id in es :: es[id].eventId == id && id != "" && es[id].setupId != "" && es[id].positionId != ""
  }

  predicate Keyed(outcomes: SealedSetups)
  {
    forall id | id in outcomes :: outcomes[id].setupId == id
  }

  ghost predicate StillSeals(es: Events, o: SetupOutcome) { Seal(es, o.setupId, o.closedAt) == Ok(o) }

  type SealedSetups = map<string, SetupOutcome>

  /** Every sealed outcome is still what sealing that setup again would record, and the streak
      is the one the outcomes define. */
  ghost predicate Balanced(es: Events, outcomes: SealedSetups, b: StreakBackoff, losses: nat)
  {
    && WellKeyed(es)
    && Keyed(outcomes)
    && (forall setup | setup in outcomes :: StillSeals(es, outcomes[setup]))
    && losses == StreakOf(b, outcomes)
  }

  ghost predicate Conserved(d: RiskDocument)
  {
    Balanced(d.executions, d.outcomes, d.policy.streakBackoff, d.consecutiveLosses)
  }

  /** In a conserved ledger a sealed outcome's result is the sum over all executions recorded for
      its setup; each of its positions was opened and nets to zero; no execution is later. */
  lemma SealedSetupConservation(d: RiskDocument, setup: string)
    requires Conserved(d) && setup in d.outcomes
    ensures var mine, outcome := SetupEvents(d.executions, setup), d.outcomes[setup];
      && mine != map[] && outcome.setupId == setup
      && outcome.netPnl == NetPnl(mine)
      && (forall p | p in Positions(mine) :: NetVolume(mine, p) == 0.0 && Opened(mine, p))
      && (forall id | id in mine :: mine[id].occurredAt <= outcome.closedAt)
  {
    assert StillSeals(d.executions, d.outcomes[setup]);
  }

  lemma OtherSetupUntouched(es: Events, e: Execution, o: SetupOutcome)
    requires e.eventId !in es && e.setupId != o.setupId
    ensures StillSeals(es[e.eventId := e], o) == StillSeals(es, o)
  {
    assert SetupEvents(es[e.eventId := e], o.setupId) == SetupEvents(es, o.setupId);
  }

  lemma RecordingKeepsBalance(es: Events, outcomes: SealedSetups, b: StreakBackoff, losses: nat, e: Execution)
    requires Balanced(es, outcomes, b, losses)
    requires e.eventId !in es && e.setupId !in outcomes && e.eventId != "" && e.setupId != "" && e.positionId != ""
    ensures Balanced(es[e.eventId := e], outcomes, b, losses)
  {
    forall setup | setup in outcomes
      ensures StillSeals(es[e.eventId := e], outcomes[setup])
    {
      OtherSetupUntouched(es, e, outcomes[setup]);
    }
  }

  lemma SealingKeepsBalance(es: Events, outcomes: SealedSetups, b: StreakBackoff, losses: nat, o: SetupOutcome)
    requires Balanced(es, outcomes, b, losses) && StillSeals(es, o) && o.setupId !in outcomes
    ensures Balanced(es, outcomes[o.setupId := o], b, StreakOf(b, outcomes[o.setupId := o]))
  {
  }

  /** The only book-keeping an execution can do is to append itself to an unsealed setup. */
  lemma ExecutionEffect(d: RiskDocument, e: Execution)
    ensures var d' := AfterExecution(d, e).0;
      && d'.outcomes == d.outcomes && d'.policy == d.policy && d'.consecutiveLosses == d.consecutiveLosses
      && (d'.executions == d.executions
          || (e.eventId !in d.executions && e.setupId !in d.outcomes && e.eventId != "" && e.setupId != "" && e.positionId != ""
              && d'.executions == d.executions[e.eventId := e]))
  {
  }

  lemma ClosingEffect(d: RiskDocument, setup: string, at: Time, terminal: bool)
    ensures var d' := AfterSetupClosed(d, setup, at, terminal).0;
      && d'.executions == d.executions && d'.policy == d.policy
      && ((d'.outcomes == d.outcomes && d'.consecutiveLosses == d.consecutiveLosses)
          || (setup !in d.outcomes && Seal(d.executions, setup, at).Ok?
              && d'.outcomes == d.outcomes[setup := Seal(d.executions, setup, at).value]
              && d'.consecutiveLosses == StreakOf(d.policy.streakBackoff, d'.outcomes)))
  {
  }

  /** No execution, valid or not, in whatever order, breaks a setup already sealed. */
  lemma ExecutionKeepsConservation(d: RiskDocument, e: Execution)
    requires Conserved(d)
    ensures Conserved(AfterExecution(d, e).0)
  {
    ExecutionEffect(d, e);
    if AfterExecution(d, e).0.executions != d.executions {
      RecordingKeepsBalance(d.executions, d.outcomes, d.policy.streakBackoff, d.consecutiveLosses, e);
    }
  }

  lemma ClosingKeepsConservation(d: RiskDocument, setup: string, at: Time, terminal: bool)
    requires Conserved(d)
    ensures Conserved(AfterSetupClosed(d, setup, at, terminal).0)
  {
    ClosingEffect(d, setup, at, terminal);
    if AfterSetupClosed(d, setup, at, terminal).0.outcomes != d.outcomes {
      SealingKeepsBalance(d.executions, d.outcomes, d.policy.streakBackoff, d.consecutiveLosses, Seal(d.executions, setup, at).value);
    }
  }

  // ----- Delivery order -----

  ghost function Deliver(d: RiskDocument, events: seq<Execution>): RiskDocument
  {
    if events == [] then d
    else AfterExecution(Deliver(d, events[..|events| - 1]), events[|events| - 1]).0
  }

  /** No two deliveries disagree about an event id, nor with what is already recorded. */
  ghost predicate NonConflicting(es: Events, events: set<Execution>)
  {
    && (forall e, f | e in events && f in events && e.eventId == f.eventId :: e == f)
    && (forall e | e in events && e.eventId in es :: es[e.eventId] == e)
  }

  ghost function Elements(events: seq<Execution>): set<Execution> { set e | e in events }

  predicate Acceptable(outcomes: SealedSetups, e: Execution)
  {
    e.eventId != "" && e.setupId != "" && e.positionId != "" && e.setupId !in outcomes
  }

  ghost function Unseen(es: Events, events: set<Execution>): set<Execution>
  {
    set e | e in events && e.eventId !in es
  }

  ghost predicate Merged(es: Events, outcomes: SealedSetups, events: set<Execution>, merged: Events)
  {
    && (forall id | id in es :: id in merged && merged[id] == es[id])
    && (forall id | id in merged && id !in es :: merged[id] in events && merged[id].eventId == id)
    && (forall e | e in events && e.eventId !in es :: e.eventId in merged <==> Acceptable(outcomes, e))
  }

  predicate NotBefore(mark: Option<Time>, t: Option<Time>) { t.Some? ==> mark.Some? && t.value <= mark.value }

  /** `mark` is the latest of the old mark, the last reconciliation and every unseen event's time. */
  ghost predicate IsMark(d: RiskDocument, unseen: set<Execution>, mark: Option<Time>)
  {
    if unseen == {} then mark == d.invalidatedAfter
    else
      && NotBefore(mark, d.invalidatedAfter) && NotBefore(mark, d.lastReconciledAt)
      && (forall e | e in unseen :: NotBefore(mark, Some(e.occurredAt)))
      && (mark == d.invalidatedAfter || mark == d.lastReconciledAt || exists e :: e in unseen && mark == Some(e.occurredAt))
  }

  /** What deliveries must have produced, as a property of the SET of events alone. */
  ghost predicate Delivered(d: RiskDocument, events: set<Execution>, d': RiskDocument)
  {
    && Merged(d.executions, d.outcomes, events, d'.executions)
    && IsMark(d, Unseen(d.executions, events), d'.invalidatedAfter)
    && d' == d.(executions := d'.executions, invalidatedAfter := d'.invalidatedAfter,
                needsReconciliation := d.needsReconciliation || Unseen(d.executions, events) != {})
  }

  lemma MarkStep(d: RiskDocument, unseen: set<Execution>, mark: Option<Time>, e: Execution)
    requires IsMark(d, unseen, mark)
    ensures IsMark(d, unseen + {e}, LaterMark(LaterMark(mark, d.lastReconciledAt), Some(e.occurredAt)))
  {
    assert e in unseen + {e};
  }

  lemma MarkUnique(d: RiskDocument, unseen: set<Execution>, m: Option<Time>, n: Option<Time>)
    requires IsMark(d, unseen, m) && IsMark(d, unseen, n)
    ensures m == n
  {
    if unseen != {} {
      assert NotBefore(m, n) && NotBefore(n, m);
    }
  }

  lemma MergedUnique(es: Events, outcomes: SealedSetups, events: set<Execution>, m: Events, n: Events)
    requires NonConflicting(es, events)
    requires Merged(es, outcomes, events, m) && Merged(es, outcomes, events, n)
    ensures m == n
  {
    forall id ensures id in m ==> id in n && m[id] == n[id] {
      if id in m && id !in es { assert m[id] in events; }
    }
    forall id ensures id in n ==> id in m {
      if id in n && id !in es { assert n[id] in events; }
    }
  }

  lemma UnseenStep(es: Events, events: set<Execution>, e: Execution)
    ensures Unseen(es, events + {e}) == Unseen(es, events) + if e.eventId in es then {} else {e}
  {
  }

  lemma RecordedAgain(m: RiskDocument, e: Execution)
    requires e.eventId in m.executions && m.executions[e.eventId] == e
    requires e.eventId != "" && e.setupId != "" && e.positionId != ""
    ensures AfterExecution(m, e).0 == m
  {
  }

  lemma RecordedMeans(es: Events, outcomes: SealedSetups, events: set<Execution>, merged: Events, e: Execution)
    requires WellKeyed(es) && NonConflicting(es, events + {e}) && Merged(es, outcomes, events, merged) && e.eventId in merged
    ensures merged[e.eventId] == e && e.eventId != "" && e.setupId != "" && e.positionId != ""
    ensures e.eventId !in es ==> e in events
  {
    if e.eventId in es {
      assert e in events + {e};
      assert es[e.eventId] == e;
    } else {
      assert merged[e.eventId] in events + {e} && e in events + {e};
      assert merged[e.eventId] == e;
    }
  }

  lemma MergedAgain(es: Events, outcomes: SealedSetups, events: set<Execution>, merged: Events, e: Execution)
    requires Merged(es, outcomes, events, merged) && e.eventId in es
    ensures Merged(es, outcomes, events + {e}, merged)
  {
  }

  /** A delivery that the state has already recorded changes nothing. */
  lemma RepeatedDelivery(d: RiskDocument, events: set<Execution>, m: RiskDocument, e: Execution)
    requires WellKeyed(d.executions) && NonConflicting(d.executions, events + {e})
    requires Delivered(d, events, m) && e.eventId in m.executions
    ensures AfterExecution(m, e).0 == m && Delivered(d, events + {e}, m)
  {
    RecordedMeans(d.executions, d.outcomes, events, m.executions, e);
    RecordedAgain(m, e);
    UnseenStep(d.executions, events, e);
    if e.eventId in d.executions {
      MergedAgain(d.executions, d.outcomes, events, m.executions, e);
      assert Unseen(d.executions, events + {e}) == Unseen(d.executions, events);
    } else {
      assert events + {e} == events;
    }
  }

  lemma MergedStep(es: Events, outcomes: SealedSetups, events: set<Execution>, merged: Events, e: Execution)
    requires NonConflicting(es, events + {e}) && Merged(es, outcomes, events, merged) && e.eventId !in merged
    ensures Merged(es, outcomes, events + {e}, if Acceptable(outcomes, e) then merged[e.eventId := e] else merged)
  {
    assert e in events + {e};
    forall f | f in events + {e} && f.eventId !in es
      ensures f.eventId in (if Acceptable(outcomes, e) then merged[e.eventId := e] else merged) <==> Acceptable(outcomes, f)
    {
      if f.eventId == e.eventId { assert f == e; }
    }
  }

  lemma NewDelivery(d: RiskDocument, events: set<Execution>, m: RiskDocument, e: Execution)
    requires NonConflicting(d.executions, events + {e})
    requires Delivered(d, events, m) && e.eventId !in m.executions
    ensures Delivered(d, events + {e}, AfterExecution(m, e).0)
  {
    UnseenStep(d.executions, events, e);
    MergedStep(d.executions, d.outcomes, events, m.executions, e);
    MarkStep(d, Unseen(d.executions, events), m.invalidatedAfter, e);
    assert e in Unseen(d.executions, events + {e});
  }

  lemma {:induction false} DeliverMeetsDelivered(d: RiskDocument, events: seq<Execution>)
    requires WellKeyed(d.executions) && NonConflicting(d.executions, Elements(events))
    ensures Delivered(d, Elements(events), Deliver(d, events))
  {
    if events != [] {
      var rest, e := events[..|events| - 1], events[|events| - 1];
      assert Elements(events) == Elements(rest) + {e};
      DeliverMeetsDelivered(d, rest);
      var m := Deliver(d, rest);
      if e.eventId in m.executions {
        RepeatedDelivery(d, Elements(rest), m, e);
      } else {
        NewDelivery(d, Elements(rest), m, e);
      }
    } else {
      assert Unseen(d.executions, Elements([])) == {};
    }
  }

  /** Any order and any repetition of the same non-conflicting events reaches the same state,
      hence the same invalidation mark and the same outcome for whatever is sealed next. */
  lemma DeliveryConverges(d: RiskDocument, one: seq<Execution>, other: seq<Execution>)
    requires WellKeyed(d.executions) && NonConflicting(d.executions, Elements(one))
    requires Elements(one) == Elements(other)
    ensures Deliver(d, one) == Deliver(d, other)
  {
    DeliverMeetsDelivered(d, one);
    DeliverMeetsDelivered(d, other);
    MergedUnique(d.executions, d.outcomes, Elements(one), Deliver(d, one).executions, Deliver(d, other).executions);
    MarkUnique(d, Unseen(d.executions, Elements(one)), Deliver(d, one).invalidatedAfter, Deliver(d, other).invalidatedAfter);
  }

  /** A conflict makes the order matter: the first of two versions of an event is kept. */
  lemma ConflictsKeepTheFirst(d: RiskDocument, e: Execution, f: Execution)
    requires e.eventId == f.eventId && e != f && e.eventId !in d.executions
    requires Acceptable(d.outcomes, e) && Acceptable(d.outcomes, f)
    ensures Deliver(d, [e, f]).executions == d.executions[e.eventId := e]
    ensures Deliver(d, [f, e]).executions == d.executions[e.eventId := f]
    ensures AfterExecution(Deliver(d, [e]), f).1 == Err(ConflictingExecution)
  {
    assert [e, f][..1] == [e] && [f, e][..1] == [f] && [e][..0] == [] && [f][..0] == [];
    assert Deliver(d, []) == d;
    assert Deliver(d, [e]) == AfterExecution(d, e).0 && Deliver(d, [f]) == AfterExecution(d, f).0;
  }

  // ----- Sealing order -----

  datatype Closing = Closing(setup: string, at: Time)

  ghost function SealAll(d: RiskDocument, closings: seq<Closing>): RiskDocument
  {
    if closings == [] then d
    else
      var c := closings[|closings| - 1];
      AfterSetupClosed(SealAll(d, closings[..|closings| - 1]), c.setup, c.at, true).0
  }

  /** Each closing can be sealed, and none contradicts another or an outcome already sealed. */
  ghost predicate Sealable(d: RiskDocument, closings: set<Closing>)
  {
    && (forall c | c in closings :: Seal(d.executions, c.setup, c.at).Ok?)
    && (forall c, e | c in closings && e in closings && c.setup == e.setup :: c == e)
    && (forall c | c in closings && c.setup in d.outcomes :: Seal(d.executions, c.setup, c.at) == Ok(d.outcomes[c.setup]))
  }

  ghost function ClosingSet(closings: seq<Closing>): set<Closing> { set c | c in closings }

  /** `result` is `outcomes` with every closing's outcome added, as a property of the set of closings. */
  ghost predicate SealedFrom(es: Events, outcomes: SealedSetups, closings: set<Closing>, result: SealedSetups)
  {
    && (forall s | s in outcomes :: s in result && result[s] == outcomes[s])
    && (forall c | c in closings :: c.setup in result && Ok(result[c.setup]) == Seal(es, c.setup, c.at))
    && (forall s | s in result && s !in outcomes :: exists c :: c in closings && c.setup == s)
  }

  lemma SealedFromUnique(es: Events, outcomes: SealedSetups, closings: set<Closing>, m: SealedSetups, n: SealedSetups)
    requires SealedFrom(es, outcomes, closings, m) && SealedFrom(es, outcomes, closings, n)
    ensures m == n
  {
    forall s ensures s in m ==> s in n && m[s] == n[s] {
      if s in m && s !in outcomes {
        var c :| c in closings && c.setup == s;
      }
    }
    forall s ensures s in n ==> s in m {
      if s in n && s !in outcomes {
        var c :| c in closings && c.setup == s;
      }
    }
  }

  lemma SealedFromStep(es: Events, outcomes: SealedSetups, closings: set<Closing>, m: SealedSetups, c: Closing,
                       o: SetupOutcome)
    requires SealedFrom(es, outcomes, closings, m) && Seal(es, c.setup, c.at) == Ok(o)
    requires c.setup in m ==> m[c.setup] == o
    ensures SealedFrom(es, outcomes, closings + {c}, m[c.setup := o])
  {
    assert c in closings + {c};
    forall s | s in m[c.setup := o] && s !in outcomes
      ensures exists e :: e in closings + {c} && e.setup == s
    {
      if s != c.setup {
        var e :| e in closings && e.setup == s;
        assert e in closings + {c};
      }
    }
  }

  /** The state after sealing: only the outcomes and the streak they define have changed. */
  ghost predicate SealedState(d: RiskDocument, closings: set<Closing>, d': RiskDocument)
  {
    && SealedFrom(d.executions, d.outcomes, closings, d'.outcomes)
    && d' == d.(outcomes := d'.outcomes, consecutiveLosses := StreakOf(d.policy.streakBackoff, d'.outcomes))
  }

  lemma ClosingAgain(m: RiskDocument, c: Closing, o: SetupOutcome)
    requires Seal(m.executions, c.setup, c.at) == Ok(o) && (c.setup in m.outcomes ==> m.outcomes[c.setup] == o)
    requires m.consecutiveLosses == StreakOf(m.policy.streakBackoff, m.outcomes)
    ensures var outcomes := m.outcomes[c.setup := o];
      AfterSetupClosed(m, c.setup, c.at, true).0 == m.(outcomes := outcomes, consecutiveLosses := StreakOf(m.policy.streakBackoff, outcomes))
  {
    if c.setup in m.outcomes {
      assert m.outcomes[c.setup := o] == m.outcomes;
    }
  }

  /** The step's outcome, which agrees with the one recorded if its setup is already sealed. */
  lemma SealableStep(d: RiskDocument, closings: set<Closing>, m: SealedSetups, c: Closing)
    requires Sealable(d, closings + {c}) && SealedFrom(d.executions, d.outcomes, closings, m)
    ensures Seal(d.executions, c.setup, c.at).Ok?
    ensures c.setup in m ==> m[c.setup] == Seal(d.executions, c.setup, c.at).value
  {
    assert c in closings + {c};
    if c.setup in m && c.setup !in d.outcomes {
      var e :| e in closings && e.setup == c.setup;
      assert e in closings + {c};
    }
  }

  lemma SealStep(d: RiskDocument, closings: set<Closing>, m: RiskDocument, c: Closing)
    requires Sealable(d, closings + {c}) && SealedState(d, closings, m)
    ensures SealedState(d, closings + {c}, AfterSetupClosed(m, c.setup, c.at, true).0)
  {
    SealableStep(d, closings, m.outcomes, c);
    var o := Seal(d.executions, c.setup, c.at).value;
    SealedFromStep(d.executions, d.outcomes, closings, m.outcomes, c, o);
    ClosingAgain(m, c, o);
  }

  lemma {:induction false} SealAllReaches(d: RiskDocument, closings: seq<Closing>)
    requires Sealable(d, ClosingSet(closings)) && d.consecutiveLosses == StreakOf(d.policy.streakBackoff, d.outcomes)
    ensures SealedState(d, ClosingSet(closings), SealAll(d, closings))
  {
    if closings != [] {
      var rest, c := closings[..|closings| - 1], closings[|closings| - 1];
      assert ClosingSet(closings) == ClosingSet(rest) + {c};
      SealAllReaches(d, rest);
      SealStep(d, ClosingSet(rest), SealAll(d, rest), c);
    }
  }

  /** Sealing the same setups in any order gives the same outcomes, streak and risk multiplier. */
  lemma SealingConverges(d: RiskDocument, one: seq<Closing>, other: seq<Closing>)
    requires Conserved(d) && Sealable(d, ClosingSet(one)) && ClosingSet(one) == ClosingSet(other)
    ensures SealAll(d, one) == SealAll(d, other)
    ensures SealAll(d, one).consecutiveLosses == StreakOf(d.policy.streakBackoff, SealAll(d, one).outcomes)
    ensures d.policy.StreakMultiplier(SealAll(d, one).consecutiveLosses) == d.policy.StreakMultiplier(SealAll(d, other).consecutiveLosses)
  {
    SealAllReaches(d, one);
    SealAllReaches(d, other);
    SealedFromUnique(d.executions, d.outcomes, ClosingSet(one), SealAll(d, one).outcomes, SealAll(d, other).outcomes);
  }
}
