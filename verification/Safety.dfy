/** Safety over whole runs of the account protocol. */
module Safety {
  import opened Account
  import opened Calendar
  import opened Decision
  import opened Evolution
  import opened LedgerLaws
  import opened Manager
  import opened Outcomes
  import opened Policy
  import opened Reserved
  import opened Runs
  import opened Store
  import opened Streaks

  // ----- The run invariant -----

  ghost predicate Sane(d: RiskDocument)
  {
    Accounted(d.reservations, d.attemptedRequests) && Conserved(d) && Settled(d) && Funded(d)
  }

  lemma SaneIsInherited(freed: set<string>)
    ensures Inherited(Sane, freed) && Inherited(AccountedDocument, freed)
  {
    forall d, d' | Sane(d) && Evolves(d, d', freed) ensures Sane(d') { EvolvesFunded(d, d', freed); }
  }

  lemma EvolvesFunded(d: RiskDocument, d': RiskDocument, freed: set<string>)
    requires Evolves(d, d', freed) && Funded(d)
    ensures Funded(d')
  {
  }

  /** The request can never be submitted again: attempted, and not waiting unsubmitted. */
  ghost function Spent(id: string): RiskDocument -> bool
  {
    (d: RiskDocument) => id in d.attemptedRequests && (id in d.reservations ==> d.reservations[id].submitted)
  }

  lemma SpentIsInherited(id: string, freed: set<string>)
    ensures Inherited(Spent(id), freed)
  {
    forall d, d' | Spent(id)(d) && Evolves(d, d', freed) ensures Spent(id)(d') {
      if id in d'.reservations && id in d.reservations {
        assert SameReservation(d.reservations[id], d'.reservations[id]);
      }
    }
  }

  /** The reservation is still there as authorized, unless its request has been let go. */
  ghost function Held(id: string, r: Reservation, freed: set<string>): RiskDocument -> bool
  {
    (d: RiskDocument) => id in freed || (id in d.reservations && SameReservation(r, d.reservations[id]))
  }

  lemma HeldIsInherited(id: string, r: Reservation, freed: set<string>)
    ensures Inherited(Held(id, r, freed), freed)
  {
    forall d, d' | Held(id, r, freed)(d) && Evolves(d, d', freed) ensures Held(id, r, freed)(d') {
      if id in d'.reservations && id in d.reservations {
        assert SameReservation(d.reservations[id], d'.reservations[id]);
      }
    }
  }

  ghost function Attempted(id: string): RiskDocument -> bool
  {
    (d: RiskDocument) => id in d.attemptedRequests
  }

  lemma AttemptedIsInherited(id: string, freed: set<string>)
    ensures Inherited(Attempted(id), freed)
  {
  }

  ghost predicate NoRepeats(ids: seq<string>) { forall i, j | 0 <= i < j < |ids| :: ids[i] != ids[j] }

  ghost predicate Invariant(w: World)
  {
    && w.disk.Valid()
    && w.Holds(Sane)
    && NoRepeats(w.submitted)
    && (forall id | id in w.submitted :: w.Holds(Spent(id)))
    && (forall id | id in w.issued :: w.Holds(Attempted(id)) && w.Holds(Held(id, w.issued[id], w.freed)))
  }

  lemma HoldsAccounted(w: World)
    requires w.Holds(Sane)
    ensures w.Holds(AccountedDocument)
  {
  }

  /** What no approval can be given for again. */
  lemma OnlyFirstAttempts(writes: Writes, rule: LossRule, m: Machine, a: AccountSnapshot, t: ProposedTrade, now: Time)
    requires Authorized(writes, rule, m, a, t, now).1.Ok?
    ensures t.requestId !in m.doc.attemptedRequests
  {
    ApprovalIsCovered(m.doc.policy, a, t, m.doc, rule, now);
    GateOpen(m.doc.policy, a, t, m.doc, now);
  }

  /** Only a new authorization takes a request back out of those let go. */
  lemma FreedKept(writes: Writes, w: World, e: Event, id: string)
    requires w.disk.Valid() && w.Holds(Attempted(id))
    ensures id in w.freed ==> id in Next(writes, w, e).freed
  {
    if w.session.Some? && e.Authorize? {
      var m := Machine(w.session.value, w.disk);
      if Authorized(writes, e.rule, m, e.snapshot, e.trade, e.now).1.Ok? {
        OnlyFirstAttempts(writes, e.rule, m, e.snapshot, e.trade, e.now);
      }
    }
  }

  lemma HeldMoreFreed(w: World, id: string, r: Reservation, freed: set<string>)
    requires w.Holds(Held(id, r, w.freed)) && (id in w.freed ==> id in freed)
    ensures w.Holds(Held(id, r, freed))
  {
  }

  lemma IssuedKept(writes: Writes, w: World, e: Event, id: string)
    requires Invariant(w) && id in w.issued
    ensures var w' := Next(writes, w, e); w'.Holds(Attempted(id)) && w'.Holds(Held(id, w.issued[id], w'.freed))
  {
    var w' := Next(writes, w, e);
    HoldsAccounted(w);
    AttemptedIsInherited(id, w'.freed);
    NextInherits(writes, w, e, Attempted(id));
    FreedKept(writes, w, e, id);
    HeldMoreFreed(w, id, w.issued[id], w'.freed);
    HeldIsInherited(id, w.issued[id], w'.freed);
    NextInherits(writes, w, e, Held(id, w.issued[id], w'.freed));
  }

  lemma SpentKept(writes: Writes, w: World, e: Event, id: string)
    requires Invariant(w) && w.Holds(Spent(id))
    ensures Next(writes, w, e).Holds(Spent(id))
  {
    HoldsAccounted(w);
    SpentIsInherited(id, Next(writes, w, e).freed);
    NextInherits(writes, w, e, Spent(id));
  }

  lemma SanityKept(writes: Writes, w: World, e: Event)
    requires w.disk.Valid() && w.Holds(Sane)
    ensures Next(writes, w, e).disk.Valid() && Next(writes, w, e).Holds(Sane)
  {
    HoldsAccounted(w);
    SaneIsInherited(Next(writes, w, e).freed);
    NextInherits(writes, w, e, Sane);
  }

  lemma SpentEverywhere(w: World, id: string)
    requires w.session.Some? && w.disk.durable == {w.session.value} && Spent(id)(w.session.value)
    ensures w.Holds(Spent(id))
  {
  }

  lemma SubmissionIsSpent(writes: Writes, rule: LossRule, m: Machine, token: Authorization, refreshed: ProposedTrade,
                          a: AccountSnapshot, now: Time)
    requires m.disk.Valid() && Sane(m.doc) && Submitted(writes, rule, m, token, refreshed, a, now).1.Ok?
    ensures !Spent(token.RequestId())(m.doc)
    ensures var after := Submitted(writes, rule, m, token, refreshed, a, now).0;
      after.disk.durable == {after.doc} && Spent(token.RequestId())(after.doc)
  {
    SubmissionIsWrittenAhead(writes, rule, m, token, refreshed, a, now);
    SubmittedAdvances(writes, rule, m, token, refreshed, a, now);
  }

  lemma SubmittedIsSpent(w: World, id: string)
    requires Invariant(w) && w.session.Some? && id in w.submitted
    ensures Spent(id)(w.session.value)
  {
  }

  lemma AfterSubmitting(writes: Writes, w: World, e: Event)
    requires e.BeforeSubmit? && w.session.Some?
    ensures var w', m' := Next(writes, w, e), Submitted(writes, e.rule, Machine(w.session.value, w.disk), e.token, e.refreshed, e.snapshot, e.now).0;
      w'.session == Some(m'.doc) && w'.disk == m'.disk
  {
  }

  lemma SubmissionSpends(writes: Writes, w: World, e: Event)
    requires Invariant(w) && e.BeforeSubmit? && w.session.Some?
    requires Submitted(writes, e.rule, Machine(w.session.value, w.disk), e.token, e.refreshed, e.snapshot, e.now).1.Ok?
    ensures e.token.RequestId() !in w.submitted
    ensures Next(writes, w, e).Holds(Spent(e.token.RequestId()))
  {
    assert Sane(w.session.value);
    SubmissionIsSpent(writes, e.rule, Machine(w.session.value, w.disk), e.token, e.refreshed, e.snapshot, e.now);
    if e.token.RequestId() in w.submitted {
      SubmittedIsSpent(w, e.token.RequestId());
    }
    AfterSubmitting(writes, w, e);
    SpentEverywhere(Next(writes, w, e), e.token.RequestId());
  }

  lemma AuthorizationIsWrittenAhead(writes: Writes, rule: LossRule, m: Machine, a: AccountSnapshot, t: ProposedTrade, now: Time)
    requires Authorized(writes, rule, m, a, t, now).1.Ok?
    ensures var after := Authorized(writes, rule, m, a, t, now).0;
      after.disk.durable == {after.doc} && t.requestId in after.doc.reservations && t.requestId in after.doc.attemptedRequests
  {
    var decision := EvaluateTrade(m.doc.policy, a, t, m.doc, rule, now);
    WrittenAhead(writes, m.(doc := Reserve(m.doc, t, decision, now)));
  }

  /** The records of an authorization: its request is issued as reserved, and held anew. */
  lemma AuthorizationIssues(writes: Writes, w: World, a: AccountSnapshot, t: ProposedTrade, rule: LossRule, now: Time)
    requires w.session.Some? && t.requestId in Authorized(writes, rule, Machine(w.session.value, w.disk), a, t, now).0.doc.reservations
    ensures var w', (m', r) := Next(writes, w, Authorize(a, t, rule, now)), Authorized(writes, rule, Machine(w.session.value, w.disk), a, t, now);
      && w'.session == Some(m'.doc) && w'.disk == m'.disk
      && w'.issued == if r.Ok? then w.issued[t.requestId := m'.doc.reservations[t.requestId]] else w.issued
  {
  }

  lemma HeldEverywhere(w: World, id: string)
    requires w.session.Some? && w.disk.durable == {w.session.value}
    requires id in w.issued && id in w.session.value.reservations && w.issued[id] == w.session.value.reservations[id]
    requires id in w.session.value.attemptedRequests
    ensures w.Holds(Attempted(id)) && w.Holds(Held(id, w.issued[id], w.freed))
  {
  }

  lemma AuthorizationHolds(writes: Writes, w: World, e: Event)
    requires e.Authorize? && w.session.Some?
    requires Authorized(writes, e.rule, Machine(w.session.value, w.disk), e.snapshot, e.trade, e.now).1.Ok?
    ensures var w', id := Next(writes, w, e), e.trade.requestId;
      && w'.issued.Keys == w.issued.Keys + {id}
      && (forall k | k in w.issued && k != id :: w'.issued[k] == w.issued[k])
      && w'.Holds(Attempted(id)) && w'.Holds(Held(id, w'.issued[id], w'.freed))
  {
    AuthorizationIsWrittenAhead(writes, e.rule, Machine(w.session.value, w.disk), e.snapshot, e.trade, e.now);
    AuthorizationIssues(writes, w, e.snapshot, e.trade, e.rule, e.now);
    HeldEverywhere(Next(writes, w, e), e.trade.requestId);
  }

  /** The records of a world only ever grow, by a request newly submitted or newly authorized. */
  lemma SubmittedGrows(writes: Writes, w: World, e: Event)
    ensures var w' := Next(writes, w, e);
      || w'.submitted == w.submitted
      || (e.BeforeSubmit? && w.session.Some? && w'.submitted == w.submitted + [e.token.RequestId()]
          && Submitted(writes, e.rule, Machine(w.session.value, w.disk), e.token, e.refreshed, e.snapshot, e.now).1.Ok?)
  {
  }

  lemma IssuedGrows(writes: Writes, w: World, e: Event)
    ensures var w' := Next(writes, w, e);
      || w'.issued == w.issued
      || (e.Authorize? && w.session.Some?
          && Authorized(writes, e.rule, Machine(w.session.value, w.disk), e.snapshot, e.trade, e.now).1.Ok?)
  {
  }

  lemma SpentFrom(w: World, submitted: seq<string>, id: string)
    requires NoRepeats(submitted) && forall k | k in submitted :: w.Holds(Spent(k))
    requires id !in submitted && w.Holds(Spent(id))
    ensures NoRepeats(submitted + [id]) && forall k | k in submitted + [id] :: w.Holds(Spent(k))
  {
  }

  lemma SubmissionsKept(writes: Writes, w: World, e: Event)
    requires Invariant(w)
    ensures var w' := Next(writes, w, e);
      NoRepeats(w'.submitted) && forall id | id in w'.submitted :: w'.Holds(Spent(id))
  {
    var w' := Next(writes, w, e);
    forall id | id in w.submitted ensures w'.Holds(Spent(id)) { SpentKept(writes, w, e, id); }
    SubmittedGrows(writes, w, e);
    if w'.submitted != w.submitted {
      SubmissionSpends(writes, w, e);
      SpentFrom(w', w.submitted, e.token.RequestId());
    }
  }

  /** What was authorized stays recorded as it was. */
  lemma IssuedStays(writes: Writes, w: World, e: Event, id: string)
    requires Invariant(w) && id in w.issued
    ensures var w' := Next(writes, w, e); id in w'.issued && w'.issued[id] == w.issued[id]
  {
    IssuedGrows(writes, w, e);
    if Next(writes, w, e).issued != w.issued {
      AuthorizationHolds(writes, w, e);
      OnlyFirstAttempts(writes, e.rule, Machine(w.session.value, w.disk), e.snapshot, e.trade, e.now);
      assert Attempted(id)(w.session.value);
    }
  }

  lemma AuthorizationsKept(writes: Writes, w: World, e: Event, id: string)
    requires Invariant(w) && id in Next(writes, w, e).issued
    ensures var w' := Next(writes, w, e); w'.Holds(Attempted(id)) && w'.Holds(Held(id, w'.issued[id], w'.freed))
  {
    if id in w.issued {
      IssuedStays(writes, w, e, id);
      IssuedKept(writes, w, e, id);
    } else {
      IssuedGrows(writes, w, e);
      AuthorizationHolds(writes, w, e);
    }
  }

  lemma NextKeepsInvariant(writes: Writes, w: World, e: Event)
    requires Invariant(w)
    ensures Invariant(Next(writes, w, e))
  {
    SanityKept(writes, w, e);
    SubmissionsKept(writes, w, e);
    var w' := Next(writes, w, e);
    forall id | id in w'.issued ensures w'.Holds(Attempted(id)) && w'.Holds(Held(id, w'.issued[id], w'.freed)) {
      AuthorizationsKept(writes, w, e, id);
    }
  }

  // ----- The theorems -----

  /** An enrolled account before its first session. */
  ghost predicate Start(w: World)
  {
    && w.session.None? && w.issued == map[] && w.submitted == [] && w.freed == {}
    && w.disk.durable == {w.disk.document}
    && exists id, balance, day, policy :: Enroll(id, balance, day, policy) == Ok(w.disk.document)
  }

  lemma EnrolledIsSane(id: string, balance: real, day: DayReference, policy: RiskPolicy)
    requires Enroll(id, balance, day, policy).Ok?
    ensures Sane(Enroll(id, balance, day, policy).value)
  {
    var d := Enroll(id, balance, day, policy).value;
    EnrolledIsFunded(id, balance, day, policy);
    assert Counted(policy.streakBackoff, d.outcomes.Items) == {};
  }

  lemma {:induction false} RunKeepsInvariant(writes: Writes, w: World, events: seq<Event>)
    requires Start(w)
    ensures Invariant(Run(writes, w, events))
    decreases |events|
  {
    if events == [] {
      var id, balance, day, policy :| Enroll(id, balance, day, policy) == Ok(w.disk.document);
      EnrolledIsSane(id, balance, day, policy);
    } else {
      RunKeepsInvariant(writes, w, events[..|events| - 1]);
      NextKeepsInvariant(writes, Run(writes, w, events[..|events| - 1]), events[|events| - 1]);
    }
  }

  /** However writes fail and processes die, and whatever tokens are presented, no request is
      allowed to be submitted twice. */
  lemma AtMostOnceSubmission(writes: Writes, w: World, events: seq<Event>, i: nat, j: nat)
    requires Start(w) && i < j < |Run(writes, w, events).submitted|
    ensures Run(writes, w, events).submitted[i] != Run(writes, w, events).submitted[j]
  {
    RunKeepsInvariant(writes, w, events);
  }

  /** A reservation once authorized is in every document a session or a restart could see, with its
      authorized risk and volume, unless its request has been let go since. */
  lemma NoSilentRelease(writes: Writes, w: World, events: seq<Event>, id: string)
    requires Start(w) && id in Run(writes, w, events).issued && id !in Run(writes, w, events).freed
    ensures var w' := Run(writes, w, events);
      w'.Holds((d: RiskDocument) => id in d.reservations && SameReservation(w'.issued[id], d.reservations[id]))
  {
    var w' := Run(writes, w, events);
    RunKeepsInvariant(writes, w, events);
    assert w'.Holds(Held(id, w'.issued[id], w'.freed));
  }

  /** The snapshot proves `id` absent: its reconciliation was written ahead, it passed every check,
      lists the request as resolved and shows no exposure for it. */
  ghost predicate ProvedAbsent(writes: Writes, m: Machine, a: AccountSnapshot, now: Time, id: string)
  {
    && writes(m.disk.writes) == Written
    && Accepts(m.doc, a, now, ReservedRisk(m.doc.policy, m.doc, a)).Ok?
    && id in a.resolvedRequests
    && forall x | x in a.exposures :: x.requestId != Some(id)
  }

  /** The event proves that the reserved request `id` added no risk. */
  ghost predicate Evidence(writes: Writes, m: Machine, e: Event, id: string)
  {
    || (e.Reject? && e.token.RequestId() == id && TokenMatches(m.doc, e.token).Ok?)
    || (e.Reconcile? && ProvedAbsent(writes, m, e.snapshot, e.now, id))
    || (e.BeforeSubmit? && TokenMatches(m.doc, e.token).Ok? && ProvedAbsent(writes, m, e.snapshot, e.now, id))
  }

  /** An authorized request, still reserved, is let go here, and the event is evidence. */
  ghost predicate LetsGo(writes: Writes, w: World, e: Event, id: string)
  {
    && id in w.issued && id !in w.freed && w.session.Some? && id in w.session.value.reservations
    && SameReservation(w.issued[id], w.session.value.reservations[id])
    && Evidence(writes, Machine(w.session.value, w.disk), e, id)
  }

  lemma FreedWith(writes: Writes, w: World, e: Event, id: string)
    requires id in Next(writes, w, e).freed && id !in w.freed
    ensures w.session.Some?
    ensures var m := Machine(w.session.value, w.disk);
      && id in m.doc.reservations
      && (|| (e.Reject? && e.token.RequestId() == id && TokenMatches(m.doc, e.token).Ok?)
          || ((e.Reconcile? || (e.BeforeSubmit? && TokenMatches(m.doc, e.token).Ok? && SameTerms(e.token.request, e.refreshed)))
              && id in FreedBy(writes, m, e.snapshot, e.now)))
  {
  }

  lemma FreedIsProvedAbsent(writes: Writes, m: Machine, a: AccountSnapshot, now: Time, id: string)
    requires id in FreedBy(writes, m, a, now)
    ensures ProvedAbsent(writes, m, a, now, id)
  {
    CountableMeaning(m.doc.policy.execution, a.exposures, a.resolvedRequests);
  }

  lemma HeldInSession(w: World, id: string, r: Reservation)
    requires w.Holds(Held(id, r, w.freed)) && w.session.Some? && id !in w.freed
    ensures id in w.session.value.reservations && SameReservation(r, w.session.value.reservations[id])
  {
  }

  lemma ReconcilingFrees(writes: Writes, rule: LossRule, m: Machine, a: AccountSnapshot, now: Time, id: string)
    requires id in FreedBy(writes, m, a, now)
    ensures id !in Reconciled(writes, rule, m, a, now).0.doc.reservations
  {
    AcceptsIgnoresFlag(m.doc, a, now);
  }

  lemma SubmittingAddsNone(writes: Writes, rule: LossRule, m: Machine, token: Authorization, refreshed: ProposedTrade,
                           a: AccountSnapshot, now: Time)
    requires TokenMatches(m.doc, token).Ok? && SameTerms(token.request, refreshed)
    ensures Submitted(writes, rule, m, token, refreshed, a, now).0.doc.reservations.Keys
         == Reconciled(writes, rule, m, a, now).0.doc.reservations.Keys
  {
    var (m1, r) := Reconciled(writes, rule, m, a, now);
    if r.Ok? && Rechecked(rule, m1.doc, token, refreshed, a, now).Ok? {
      PersistedReservations(writes, m1.(doc := Submitting(m1.doc, token.RequestId())));
    }
  }

  lemma PersistedReservations(writes: Writes, m: Machine)
    ensures Persisted(writes, m).0.doc.reservations == m.doc.reservations
  {
  }

  /** What is let go is gone from the session. */
  lemma LetGoIsGone(writes: Writes, w: World, e: Event, id: string)
    requires id in Next(writes, w, e).freed && id !in w.freed
    ensures Next(writes, w, e).session.Some? && id !in Next(writes, w, e).session.value.reservations
  {
    FreedWith(writes, w, e, id);
    var m := Machine(w.session.value, w.disk);
    match e
    case Reconcile(a, rule, now) => ReconcilingFrees(writes, rule, m, a, now, id);
    case BeforeSubmit(token, refreshed, a, rule, now) =>
      ReconcilingFrees(writes, rule, m, a, now, id);
      SubmittingAddsNone(writes, rule, m, token, refreshed, a, now);
    case _ =>
  }

  /** A request is let go only while it is reserved as it was authorized, and only on evidence. */
  lemma LetGoOnlyOnEvidence(writes: Writes, w: World, e: Event, id: string)
    requires Invariant(w) && id in w.issued && id !in w.freed && id in Next(writes, w, e).freed
    ensures LetsGo(writes, w, e, id)
  {
    FreedWith(writes, w, e, id);
    HeldInSession(w, id, w.issued[id]);
    if e.Reconcile? || e.BeforeSubmit? {
      FreedIsProvedAbsent(writes, Machine(w.session.value, w.disk), e.snapshot, e.now, id);
    }
  }

  ghost predicate LetsGoAt(writes: Writes, w: World, events: seq<Event>, j: nat, id: string)
  {
    j < |events| && LetsGo(writes, Run(writes, w, events[..j]), events[j], id)
  }

  lemma LetsGoLater(writes: Writes, w: World, rest: seq<Event>, events: seq<Event>, j: nat, id: string)
    requires LetsGoAt(writes, w, rest, j, id) && |rest| <= |events| && rest == events[..|rest|]
    ensures LetsGoAt(writes, w, events, j, id)
  {
    assert events[..j] == rest[..j] && events[j] == rest[j];
  }

  lemma StartsUnissued(w: World, id: string)
    requires Start(w)
    ensures id !in w.issued
  {
  }

  /** Whatever a run has authorized and then let go, it let go at a moment after the authorization at
      which it was still reserved as authorized and the event was evidence. */
  lemma {:induction false} ReleasedOnEvidence(writes: Writes, w: World, events: seq<Event>, id: string) returns (j: nat)
    requires Start(w) && id in Run(writes, w, events).issued && id in Run(writes, w, events).freed
    ensures LetsGoAt(writes, w, events, j, id)
    decreases |events|
  {
    if events == [] {
      StartsUnissued(w, id);
      assert false;
    } else {
      var rest, e := events[..|events| - 1], events[|events| - 1];
      var before := Run(writes, w, rest);
      if id !in before.issued {
        NewlyIssuedIsHeld(writes, before, e, id);
        assert false;
      } else if id in before.freed {
        j := ReleasedOnEvidence(writes, w, rest, id);
        LetsGoLater(writes, w, rest, events, j, id);
      } else {
        j := |rest|;
        RunKeepsInvariant(writes, w, rest);
        LetGoOnlyOnEvidence(writes, before, e, id);
      }
    }
  }

  lemma NewlyIssuedIsHeld(writes: Writes, w: World, e: Event, id: string)
    requires id !in w.issued && id in Next(writes, w, e).issued
    ensures id !in Next(writes, w, e).freed
  {
  }

  /** No reconciliation succeeds while a submitted request is neither resolved nor visible. */
  lemma SubmittedMustBeExplained(writes: Writes, rule: LossRule, m: Machine, a: AccountSnapshot, now: Time, id: string)
    requires id in m.doc.reservations && m.doc.reservations[id].submitted
    requires id !in a.resolvedRequests && forall x | x in a.exposures :: x.requestId != Some(id)
    ensures Reconciled(writes, rule, m, a, now).1.Err?
    ensures id in Reconciled(writes, rule, m, a, now).0.doc.reservations
  {
    var raised := m.doc.(needsReconciliation := true);
    assert !Explained(raised.reservations, a);
    assert Accepts(raised, a, now, ReservedRisk(raised.policy, raised, a)).Err?;
  }

  /** In every reachable document the sealed setups are conserved, the streak is the one they define,
      and trading is enabled only by a snapshot newer than the last invalidation. */
  lemma EveryDocumentIsSane(writes: Writes, w: World, events: seq<Event>)
    requires Start(w)
    ensures Run(writes, w, events).Holds(Sane)
  {
    RunKeepsInvariant(writes, w, events);
  }

  /** A fact that evolution never undoes, once no surviving document lacks it, holds ever after. */
  lemma {:induction false} SteadfastForever(writes: Writes, w: World, events: seq<Event>,
                                            P: RiskDocument -> bool)
    requires w.disk.Valid() && w.Holds(AccountedDocument) && w.Holds(P) && Steadfast(P)
    ensures var w' := Run(writes, w, events);
      w'.disk.Valid() && w'.Holds(AccountedDocument) && w'.Holds(P)
    decreases |events|
  {
    if events != [] {
      var before := Run(writes, w, events[..|events| - 1]);
      SteadfastForever(writes, w, events[..|events| - 1], P);
      SaneIsInherited(Next(writes, before, events[|events| - 1]).freed);
      NextInherits(writes, before, events[|events| - 1], AccountedDocument);
      NextInherits(writes, before, events[|events| - 1], P);
    }
  }
}
