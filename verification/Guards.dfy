/** The guard around one protected pending-order entry (broker-ctrader/src/protection.rs, entry.rs). */
module Guards {
  import opened Account
  import opened Calendar
  import opened Decision
  import opened Evolution
  import opened Manager
  import opened Outcomes
  import opened Store

  datatype ExecutionType = OrderAccepted | OrderFilled | OrderPartialFill | OrderRejectedType | OtherType

  datatype ExecutionEvent = ExecutionEvent(hasErrorCode: bool, executionType: ExecutionType, orderId: Option<int>)

  /** How the transport call ended. */
  datatype Reply = Event(event: ExecutionEvent) | NotSent | Rejected | Unknown

  datatype EntryResult = Placed(orderId: int) | DryRun | OrderRejected | AmbiguousSuccess | Abandoned

  /** What the response to a sent order tells the caller. */
  function Response(event: ExecutionEvent): EntryResult
  {
    if event.hasErrorCode || event.executionType.OrderRejectedType? then OrderRejected
    else if event.executionType.OtherType? then AmbiguousSuccess
    else if event.orderId.None? then AmbiguousSuccess
    else Placed(event.orderId.value)
  }

  /** Evidence gathered while submitting. */
  class SubmissionEvidence {
    var attempted: bool
    var absent: bool

    constructor ()
      ensures !attempted && !absent
    {
      attempted, absent := false, false;
    }

    method Observe(reply: Reply)
      modifies this
      ensures attempted == old(attempted) && (absent <==> reply == NotSent || reply == Rejected)
    {
      absent := reply.NotSent? || reply.Rejected?;
    }

    predicate NoRiskAdded()
      reads this
    {
      !attempted || absent
    }
  }

  /** Only a call that never left, or was refused outright, proves that no order exists. */
  predicate ProvesAbsence(reply: Reply) { reply.NotSent? || reply.Rejected? }

  /** What the caller is told about a reply, by what it is told: an order id that the broker confirmed, a refusal
      that proves no order, or that only a reconciliation can tell. */
  predicate Tells(reply: Reply, r: EntryResult)
  {
    match r
    case Placed(id) =>
      && reply.Event? && !reply.event.hasErrorCode && reply.event.orderId == Some(id)
      && reply.event.executionType in {OrderAccepted, OrderFilled, OrderPartialFill}
    case OrderRejected =>
      reply.NotSent? || reply.Rejected? || (reply.Event? && (reply.event.hasErrorCode || reply.event.executionType == OrderRejectedType))
    case AmbiguousSuccess =>
      || reply.Unknown?
      || (reply.Event? && !reply.event.hasErrorCode && reply.event.executionType != OrderRejectedType
          && (reply.event.executionType == OtherType || reply.event.orderId.None?))
    case DryRun => false
    case Abandoned => false
  }

  /** Every reply tells exactly one thing. */
  lemma TellsOneThing(reply: Reply, r: EntryResult, s: EntryResult)
    requires Tells(reply, r) && Tells(reply, s)
    ensures r == s
  {
  }

  /** One step of collecting a fresh snapshot, as far as it touches the session. */
  datatype CollectStep =
    | CollectExecution(execution: Execution)
    | CollectClosing(setup: string, at: Time)
    | CollectReconcile(snapshot: AccountSnapshot, now: Time)
    | CollectStops(account: bool, daily: bool)

  /** What a revalidation that got as far as the session found; nothing when it failed or was dropped. */
  datatype Revalidation = Revalidation(snapshot: AccountSnapshot, refreshed: ProposedTrade, accountSteady: bool, now: Time)

  /** Everything outside the program that decides how one entry goes. `prepared` is false when a price,
      size, payload or client id cannot be built; `reply` is missing when the caller drops the future
      while the transport call is in flight. */
  datatype Circumstances = Circumstances(
    prepared: bool,
    collected: seq<CollectStep>,
    revalidation: Option<Revalidation>,
    dryRun: bool,
    reply: Option<Reply>)

  /** What the guard has done to the reservation, and whether the order was handed over in between. */
  datatype Deed = Sent | ReservationReleased | RiskRetained

  ghost function Releases(deeds: seq<Deed>): nat { multiset(deeds)[ReservationReleased] }

  /** What a transport call that was started does to the reservation. */
  function Afterwards(reply: Option<Reply>): seq<Deed>
  {
    if reply.None? then [] else if ProvesAbsence(reply.value) then [ReservationReleased] else [RiskRetained]
  }

  lemma DeedsOf(handedOver: bool, reply: Option<Reply>, deeds: seq<Deed>)
    requires deeds == if handedOver then [Sent] + Afterwards(reply) else [ReservationReleased]
    ensures Releases(deeds) <= 1 && (Sent in deeds <==> handedOver)
    ensures ReservationReleased in deeds <==> !handedOver || reply == Some(NotSent) || reply == Some(Rejected)
  {
  }

  class Guard {
    const session: RiskSession
    const authorization: Authorization
    const trade: ProposedTrade
    var transportStarted: bool
    ghost var deeds: seq<Deed>

    constructor (session: RiskSession, authorization: Authorization, trade: ProposedTrade)
      ensures this.session == session && this.authorization == authorization && this.trade == trade
      ensures !transportStarted && deeds == []
    {
      this.session, this.authorization, this.trade := session, authorization, trade;
      transportStarted, deeds := false, [];
    }

    /** The order's request is recorded as submitted wherever the account could be resumed from. */
    ghost predicate RecordedEverywhere()
      reads session.state, session.store
    {
      SubmittedEverywhere(session.Model(), authorization.RequestId())
    }

    /** The session no longer holds this authorization's reservation. */
    ghost predicate Gone()
      reads session.state
    {
      TokenMatches(session.state.Document(), authorization).Err?
    }

    method MarkTransport()
      modifies this`transportStarted
      ensures transportStarted
    {
      transportStarted := true;
    }

    method CollectOne(step: CollectStep) returns (ok: bool)
      modifies session.state, session.store
      ensures (session.Model(), ok) == CollectedOne(session.store.outcome, old(session.Model()), step)
    {
      var r: Result<()>;
      match step
      case CollectExecution(e) => r := session.OnExecution(e); ok := r.Ok?;
      case CollectClosing(setup, at) => r := session.OnSetupClosed(setup, at, true); ok := r.Ok?;
      case CollectReconcile(a, now) => r := session.Reconcile(a, StandardLossRule(), now); ok := r.Ok?;
      case CollectStops(account, daily) => r := session.LatchStops(account, daily); ok := r.Ok?;
    }

    method Collect(steps: seq<CollectStep>) returns (ok: bool)
      modifies session.state, session.store
      ensures (session.Model(), ok) == Collected(session.store.outcome, old(session.Model()), steps)
    {
      ok := true;
      ghost var start := session.Model();
      for i := 0 to |steps|
        invariant ok && (session.Model(), ok) == Collected(session.store.outcome, start, steps[..i])
      {
        ok := CollectOne(steps[i]);
        assert steps[..i + 1][..i] == steps[..i];
        if !ok {
          CollectedStops(session.store.outcome, start, steps, i + 1);
          return;
        }
      }
      assert steps[..|steps|] == steps;
    }

    method BeforeSubmit(c: Circumstances) returns (ok: bool)
      modifies session.state, session.store
      ensures (ok ==> RecordedEverywhere())
      ensures (session.Model(), ok) == Revalidated(session.store.outcome, old(session.Model()), authorization, trade, c)
    {
      ok := Collect(c.collected);
      if !ok || c.revalidation.None? { return false; }
      var found := c.revalidation.value;
      if !found.accountSteady || found.refreshed.requestedRisk < trade.requestedRisk { return false; }
      var refreshed := found.refreshed.(requestedRisk := trade.requestedRisk);
      ghost var before := session.Model();
      var r := session.BeforeSubmit(authorization, refreshed, found.snapshot, StandardLossRule(), found.now);
      if r.Ok? {
        SubmissionIsRecorded(session.store.outcome, before, authorization, refreshed, found.snapshot, found.now);
      }
      ok := r.Ok?;
    }

    /** Persist what the transport proved. */
    method Outcome(provenAbsent: bool) returns (r: Result<()>)
      modifies this`deeds, session.state, session.store
      ensures deeds == old(deeds) + [if provenAbsent then ReservationReleased else RiskRetained]
      ensures (session.Model(), r) == if provenAbsent then Released(session.store.outcome, old(session.Model()), authorization)
                                      else DisconnectedFrom(session.store.outcome, old(session.Model()))
      ensures !provenAbsent && old(RecordedEverywhere()) ==> RecordedEverywhere()
      ensures provenAbsent ==> Gone()
    {
      ghost var before := session.Model();
      if provenAbsent {
        r := session.RejectedWithoutFill(authorization);
        deeds := deeds + [ReservationReleased];
        ReleasedIsGone(session.store.outcome, before, authorization);
      } else {
        r := session.Disconnect();
        deeds := deeds + [RiskRetained];
        DisconnectingKeepsRecord(session.store.outcome, before, authorization.RequestId());
      }
    }

    /** Runs when the guard goes out of scope, on every path. */
    method Drop()
      modifies this`deeds, session.state, session.store
      ensures deeds == old(deeds) + if transportStarted then [] else [ReservationReleased]
      ensures transportStarted ==> session.Model() == old(session.Model())
      ensures !transportStarted ==> Gone()
      ensures !transportStarted ==> session.Model() == Released(session.store.outcome, old(session.Model()), authorization).0
    {
      ghost var before := session.Model();
      if !transportStarted {
        ReleasedIsGone(session.store.outcome, before, authorization);
        var r := session.RejectedWithoutFill(authorization);
        deeds := deeds + [ReservationReleased];
      }
    }

    /** Hand the order over, observe the reply, persist what it proved. */
    method Transport(c: Circumstances) returns (r: EntryResult)
      requires transportStarted && deeds == [] && RecordedEverywhere()
      modifies this`deeds, session.state, session.store
      ensures deeds == if c.dryRun then [ReservationReleased] else [Sent] + Afterwards(c.reply)
      ensures if ReservationReleased in deeds then Gone() else RecordedEverywhere()
      ensures !c.dryRun && c.reply.None? ==> r == Abandoned && session.Model() == old(session.Model())
      ensures c.dryRun || c.reply.Some? ==>
        var absent := c.dryRun || ProvesAbsence(c.reply.value);
        var persisted := if absent then Released(session.store.outcome, old(session.Model()), authorization).1
                         else DisconnectedFrom(session.store.outcome, old(session.Model())).1;
        if persisted.Err? then r == AmbiguousSuccess else if c.dryRun then r == DryRun else Tells(c.reply.value, r)
    {
      var evidence := new SubmissionEvidence();
      if c.dryRun {
        r := DryRun;
      } else {
        evidence.attempted := true;
        deeds := deeds + [Sent];
        if c.reply.None? { return Abandoned; }
        evidence.Observe(c.reply.value);
        match c.reply.value
        case Event(event) => r := Response(event);
        case NotSent => r := OrderRejected;
        case Rejected => r := OrderRejected;
        case Unknown => r := AmbiguousSuccess;
      }
      var persisted := Outcome(evidence.NoRiskAdded());
      if persisted.Err? { r := AmbiguousSuccess; }
    }

    /** The body of a pending-order entry from the moment its guard exists. */
    method Enter(c: Circumstances) returns (r: EntryResult)
      requires !transportStarted && deeds == []
      modifies this, session.state, session.store
      ensures transportStarted <==> c.prepared && Revalidated(session.store.outcome, old(session.Model()), authorization, trade, c).1
      ensures !transportStarted ==> deeds == [] && r == OrderRejected
      ensures transportStarted ==>
        && deeds == (if c.dryRun then [ReservationReleased] else [Sent] + Afterwards(c.reply))
        && (if ReservationReleased in deeds then Gone() else RecordedEverywhere())
        && (if c.dryRun then r == DryRun || r == AmbiguousSuccess
            else if c.reply.None? then r == Abandoned
            else r == AmbiguousSuccess || Tells(c.reply.value, r))
    {
      if !c.prepared { return OrderRejected; }
      var ready := BeforeSubmit(c);
      if !ready { return OrderRejected; }
      MarkTransport();
      r := Transport(c);
    }

    /** A protected pending-order entry, to the end of its guard's life. The reservation is released
        exactly when transport never started or what came back proves that no order exists, and at most
        once. Whenever an order may exist, its request stays recorded as submitted in every document the
        account could be resumed from. */
    method PlacePending(c: Circumstances) returns (r: EntryResult)
      requires !transportStarted && deeds == []
      modifies this, session.state, session.store
      ensures Releases(deeds) <= 1
      ensures ReservationReleased in deeds <==> Sent !in deeds || c.reply == Some(NotSent) || c.reply == Some(Rejected)
      ensures if ReservationReleased in deeds then Gone() else RecordedEverywhere()
      ensures Sent in deeds <==>
        c.prepared && !c.dryRun && Revalidated(session.store.outcome, old(session.Model()), authorization, trade, c).1
      ensures r.Placed? ==> Sent in deeds && c.reply.Some? && Tells(c.reply.value, r) && ReservationReleased !in deeds
      ensures r.OrderRejected? ==> Sent !in deeds || (c.reply.Some? && Tells(c.reply.value, r))
      ensures Sent in deeds ==> if c.reply.None? then r == Abandoned else r == AmbiguousSuccess || Tells(c.reply.value, r)
    {
      r := Enter(c);
      ghost var handedOver := transportStarted && !c.dryRun;
      Drop();
      DeedsOf(handedOver, c.reply, deeds);
    }
  }

  ghost function CollectedOne(writes: Writes, m: Machine, step: CollectStep): (Machine, bool)
  {
    match step
    case CollectExecution(e) => var (after, r) := Executed(writes, m, e); (after, r.Ok?)
    case CollectClosing(setup, at) => var (after, r) := SetupClosed(writes, m, setup, at, true); (after, r.Ok?)
    case CollectReconcile(a, now) => var (after, r) := Reconciled(writes, StandardLossRule(), m, a, now); (after, r.Ok?)
    case CollectStops(account, daily) => var (after, r) := Latched(writes, m, account, daily); (after, r.Ok?)
  }

  /** What collecting does to the session: the steps in order, up to the first that fails. */
  ghost function Collected(writes: Writes, m: Machine, steps: seq<CollectStep>): (Machine, bool)
  {
    if steps == [] then (m, true)
    else
      var (before, ok) := Collected(writes, m, steps[..|steps| - 1]);
      if ok then CollectedOne(writes, before, steps[|steps| - 1]) else (before, false)
  }

  lemma {:induction false} CollectedStops(writes: Writes, m: Machine, steps: seq<CollectStep>, n: nat)
    requires n <= |steps| && !Collected(writes, m, steps[..n]).1
    ensures Collected(writes, m, steps) == Collected(writes, m, steps[..n])
    decreases |steps|
  {
    if n < |steps| {
      assert steps[..|steps| - 1][..n] == steps[..n];
      CollectedStops(writes, m, steps[..|steps| - 1], n);
    } else {
      assert steps[..n] == steps;
    }
  }

  /** A revalidation may lower the order's price terms but not the risk asked for. */
  ghost function Revalidated(writes: Writes, m: Machine, token: Authorization, trade: ProposedTrade,
                             c: Circumstances): (Machine, bool)
  {
    var (collected, ok) := Collected(writes, m, c.collected);
    if !ok || c.revalidation.None? then (collected, false)
    else
      var found := c.revalidation.value;
      if !found.accountSteady || found.refreshed.requestedRisk < trade.requestedRisk then (collected, false)
      else
        var (after, r) := Submitted(writes, StandardLossRule(), collected, token,
                                    found.refreshed.(requestedRisk := trade.requestedRisk), found.snapshot, found.now);
        (after, r.Ok?)
  }

  /** An order goes out only when every step of the collection succeeded, the account stood still, the risk now
      asked for is no less than before, and the session allows the submission at the price found. */
  lemma RevalidatedExactlyWhen(writes: Writes, m: Machine, token: Authorization, trade: ProposedTrade, c: Circumstances)
    ensures Revalidated(writes, m, token, trade, c).1 <==>
      && Collected(writes, m, c.collected).1 && c.revalidation.Some?
      && var found := c.revalidation.value;
         && found.accountSteady && trade.requestedRisk <= found.refreshed.requestedRisk
         && Submitted(writes, StandardLossRule(), Collected(writes, m, c.collected).0, token,
                      found.refreshed.(requestedRisk := trade.requestedRisk), found.snapshot, found.now).1.Ok?
  {
  }

  lemma ReleasedIsGone(writes: Writes, m: Machine, token: Authorization)
    ensures TokenMatches(Released(writes, m, token).0.doc, token).Err?
  {
  }

  predicate SubmittedIn(d: RiskDocument, id: string) { id in d.reservations && d.reservations[id].submitted }

  ghost predicate SubmittedEverywhere(m: Machine, id: string)
  {
    SubmittedIn(m.doc, id) && forall d | d in m.disk.durable :: SubmittedIn(d, id)
  }

  lemma SubmissionIsRecorded(writes: Writes, m: Machine, token: Authorization, refreshed: ProposedTrade,
                             a: AccountSnapshot, now: Time)
    requires Submitted(writes, StandardLossRule(), m, token, refreshed, a, now).1.Ok?
    ensures SubmittedEverywhere(Submitted(writes, StandardLossRule(), m, token, refreshed, a, now).0, token.RequestId())
  {
    var m1 := SubmissionSteps(writes, StandardLossRule(), m, token, refreshed, a, now);
    WrittenAhead(writes, m1.(doc := Submitting(m1.doc, token.RequestId())));
  }

  lemma DisconnectingKeepsRecord(writes: Writes, m: Machine, id: string)
    ensures SubmittedEverywhere(m, id) ==> SubmittedEverywhere(DisconnectedFrom(writes, m).0, id)
  {
  }
}
