/** Reserved risk: broker fragments grouped by request, floored by reservations
    (adaptive-risk/src/decision.rs, `reserved_risk`). */
module Reserved {
  import opened Account
  import opened Decimals
  import opened Exposures
  import opened Outcomes
  import opened Policy
  import opened Sums

  type Reservations = map<string, Reservation>

  predicate Surcharges(x: ExecutionPolicy)
  {
    0.0 <= x.slippageBufferPctOfRisk && 1.0 <= x.overlapMultiplier
  }

  function RiskOf(x: ExecutionPolicy, e: Exposure): Option<real>
  {
    e.Risk(x.slippageBufferPctOfRisk, x.overlapMultiplier)
  }

  function ValueOrZero(r: Option<real>): real { if r.Some? then r.value else 0.0 }

  /** Risk of all the fragments that carry request `id`. */
  ghost function Linked(x: ExecutionPolicy, es: seq<Exposure>, id: string): real
  {
    if es == [] then 0.0
    else
      var e := es[|es| - 1];
      Linked(x, es[..|es| - 1], id) + if e.requestId == Some(id) then ValueOrZero(RiskOf(x, e)) else 0.0
  }

  /** Risk of the exposures that carry no request. */
  ghost function Unlinked(x: ExecutionPolicy, es: seq<Exposure>): real
  {
    if es == [] then 0.0
    else
      var e := es[|es| - 1];
      Unlinked(x, es[..|es| - 1]) + if e.requestId.None? then ValueOrZero(RiskOf(x, e)) else 0.0
  }

  ghost function LinkedIds(es: seq<Exposure>): set<string>
  {
    if es == [] then {}
    else
      var e := es[|es| - 1];
      LinkedIds(es[..|es| - 1]) + if e.requestId.Some? then {e.requestId.value} else {}
  }

  ghost function BrokerIds(es: seq<Exposure>): set<string>
  {
    if es == [] then {} else BrokerIds(es[..|es| - 1]) + {es[|es| - 1].brokerId}
  }

  /** No broker id twice, every exposure priced, none for a request called resolved. */
  ghost predicate Countable(x: ExecutionPolicy, es: seq<Exposure>, resolved: set<string>)
  {
    es != [] ==>
      var rest, e := es[..|es| - 1], es[|es| - 1];
      && Countable(x, rest, resolved)
      && e.brokerId !in BrokerIds(rest)
      && RiskOf(x, e).Some?
      && (e.requestId.Some? ==> e.requestId.value !in resolved)
  }

  lemma {:induction false} BrokerIdsMeaning(es: seq<Exposure>, id: string)
    ensures id in BrokerIds(es) <==> exists i :: 0 <= i < |es| && es[i].brokerId == id
  {
    if es != [] {
      BrokerIdsMeaning(es[..|es| - 1], id);
    }
  }

  lemma {:induction false} CountableMeaning(x: ExecutionPolicy, es: seq<Exposure>, resolved: set<string>)
    requires Countable(x, es, resolved)
    ensures forall i, j | 0 <= i < j < |es| :: es[i].brokerId != es[j].brokerId
    ensures forall i | 0 <= i < |es| :: RiskOf(x, es[i]).Some? && (es[i].requestId.Some? ==> es[i].requestId.value !in resolved)
  {
    if es != [] {
      CountableMeaning(x, es[..|es| - 1], resolved);
      BrokerIdsMeaning(es[..|es| - 1], es[|es| - 1].brokerId);
      assert forall i | 0 <= i < |es| - 1 :: es[i] == es[..|es| - 1][i];
    }
  }

  lemma {:induction false} LinkedIdsMeaning(es: seq<Exposure>, id: string)
    ensures id in LinkedIds(es) <==> exists i :: 0 <= i < |es| && es[i].requestId == Some(id)
  {
    if es != [] {
      LinkedIdsMeaning(es[..|es| - 1], id);
    }
  }

  predicate Sound(r: Reservation) { 0.0 <= r.risk && 0.0 < r.volume }

  ghost predicate AllSound(rs: Reservations) { forall id | id in rs :: Sound(rs[id]) }

  /** What one request is charged: its fragments, floored by its reservation while it has one. */
  ghost function Charge(x: ExecutionPolicy, rs: Reservations, es: seq<Exposure>, id: string): real
  {
    if id in rs then Max(Linked(x, es, id), rs[id].risk) else Linked(x, es, id)
  }

  ghost function Charges(x: ExecutionPolicy, rs: Reservations, es: seq<Exposure>): map<string, real>
  {
    map id | id in rs.Keys + LinkedIds(es) :: Charge(x, rs, es, id)
  }

  ghost function TotalRisk(x: ExecutionPolicy, rs: Reservations, es: seq<Exposure>): real
  {
    Unlinked(x, es) + MapSum(Charges(x, rs, es))
  }

  ghost function ReservedRisk(p: RiskPolicy, s: RiskDocument, a: AccountSnapshot): Option<real>
  {
    if Countable(p.execution, a.exposures, a.resolvedRequests) && AllSound(s.reservations)
    then Some(TotalRisk(p.execution, s.reservations, a.exposures))
    else None
  }

  // ----- The grouping and summing loops -----

  ghost function Grouped(x: ExecutionPolicy, es: seq<Exposure>): map<string, real>
  {
    map id | id in LinkedIds(es) :: Linked(x, es, id)
  }

  lemma LinkedZero(x: ExecutionPolicy, es: seq<Exposure>, id: string)
    requires id !in LinkedIds(es)
    ensures Linked(x, es, id) == 0.0
  {
  }

  lemma GroupedStep(x: ExecutionPolicy, es: seq<Exposure>, e: Exposure)
    ensures Grouped(x, es + [e]) ==
      if e.requestId.None? then Grouped(x, es)
      else
        var id := e.requestId.value;
        Grouped(x, es)[id := (if id in Grouped(x, es) then Grouped(x, es)[id] else 0.0) + ValueOrZero(RiskOf(x, e))]
  {
    assert (es + [e])[..|es|] == es;
    if e.requestId.Some? && e.requestId.value !in LinkedIds(es) {
      LinkedZero(x, es, e.requestId.value);
    }
  }

  lemma {:induction false} CountablePrefix(x: ExecutionPolicy, es: seq<Exposure>, resolved: set<string>, n: nat)
    requires n <= |es| && Countable(x, es, resolved)
    ensures Countable(x, es[..n], resolved)
    decreases |es|
  {
    if n < |es| {
      CountablePrefix(x, es[..|es| - 1], resolved, n);
      assert es[..|es| - 1][..n] == es[..n];
    } else {
      assert es[..n] == es;
    }
  }

  lemma CountableStep(x: ExecutionPolicy, es: seq<Exposure>, e: Exposure, resolved: set<string>)
    ensures Countable(x, es + [e], resolved) <==>
      && Countable(x, es, resolved) && e.brokerId !in BrokerIds(es)
      && RiskOf(x, e).Some? && (e.requestId.Some? ==> e.requestId.value !in resolved)
    ensures BrokerIds(es + [e]) == BrokerIds(es) + {e.brokerId}
    ensures Unlinked(x, es + [e]) == Unlinked(x, es) + if e.requestId.None? then ValueOrZero(RiskOf(x, e)) else 0.0
  {
    assert (es + [e])[..|es|] == es;
  }

  /** What the first loop has found in `es`. */
  ghost predicate GroupedSoFar(x: ExecutionPolicy, es: seq<Exposure>, resolved: set<string>, ids: set<string>,
                               byRequest: map<string, real>, unlinked: real)
  {
    && Countable(x, es, resolved) && ids == BrokerIds(es)
    && byRequest == Grouped(x, es) && unlinked == Unlinked(x, es)
  }

  /** Sums the exposures into one bucket per request plus one for the rest. */
  method GroupExposures(x: ExecutionPolicy, es: seq<Exposure>, resolved: set<string>)
    returns (ok: bool, byRequest: map<string, real>, unlinked: real)
    ensures ok == Countable(x, es, resolved)
    ensures ok ==> byRequest == Grouped(x, es) && unlinked == Unlinked(x, es)
  {
    var ids: set<string> := {};
    byRequest, unlinked := map[], 0.0;
    for i := 0 to |es|
      invariant GroupedSoFar(x, es[..i], resolved, ids, byRequest, unlinked)
    {
      var e := es[i];
      var risk := RiskOf(x, e);
      assert es[..i + 1] == es[..i] + [e];
      CountableStep(x, es[..i], e, resolved);
      if e.brokerId in ids || risk.None? || (e.requestId.Some? && e.requestId.value in resolved) {
        if Countable(x, es, resolved) { CountablePrefix(x, es, resolved, i + 1); }
        return false, byRequest, unlinked;
      }
      GroupedStep(x, es[..i], e);
      ids := ids + {e.brokerId};
      if e.requestId.Some? {
        var id := e.requestId.value;
        var previous := if id in byRequest then byRequest[id] else 0.0;
        byRequest := byRequest[id := previous + risk.value];
      } else {
        unlinked := unlinked + risk.value;
      }
    }
    assert es[..|es|] == es;
    ok := true;
  }

  ghost function Restrict(m: map<string, real>, keys: set<string>): map<string, real>
  {
    map id | id in m && id in keys :: m[id]
  }

  lemma RestrictInsert(m: map<string, real>, keys: set<string>, id: string)
    requires id in m && id !in keys
    ensures MapSum(Restrict(m, keys + {id})) == MapSum(Restrict(m, keys)) + m[id]
  {
    assert Restrict(m, keys + {id}) == Restrict(m, keys)[id := m[id]];
    MapSumInsert(Restrict(m, keys), id, m[id]);
  }

  lemma ChargeFrom(x: ExecutionPolicy, rs: Reservations, es: seq<Exposure>, id: string)
    requires id in rs
    ensures Charges(x, rs, es)[id] == Max(if id in Grouped(x, es) then Grouped(x, es)[id] else 0.0, rs[id].risk)
  {
    if id !in LinkedIds(es) { LinkedZero(x, es, id); }
  }

  method ChargeReservations(x: ExecutionPolicy, rs: Reservations, ghost es: seq<Exposure>, byRequest: map<string,
                            real>, unlinked: real)
    returns (ok: bool, total: real, leftover: map<string, real>)
    requires byRequest == Grouped(x, es) && unlinked == Unlinked(x, es)
    ensures ok == AllSound(rs)
    ensures ok ==> leftover == byRequest - rs.Keys
    ensures ok ==> total == unlinked + MapSum(Restrict(Charges(x, rs, es), rs.Keys))
  {
    var todo := rs.Keys;
    ghost var done: set<string> := {};
    total, leftover := unlinked, byRequest;
    assert Restrict(Charges(x, rs, es), {}) == map[];
    while todo != {}
      invariant todo <= rs.Keys && done == rs.Keys - todo
      invariant forall id | id in done :: Sound(rs[id])
      invariant leftover == byRequest - done
      invariant total == unlinked + MapSum(Restrict(Charges(x, rs, es), done))
    {
      var id :| id in todo;
      if !Sound(rs[id]) { return false, total, leftover; }
      var brokerRisk := if id in leftover then leftover[id] else 0.0;
      ChargeFrom(x, rs, es, id);
      RestrictInsert(Charges(x, rs, es), done, id);
      leftover := leftover - {id};
      total := total + Max(brokerRisk, rs[id].risk);
      todo := todo - {id};
      done := done + {id};
    }
    assert done == rs.Keys;
    ok := true;
  }

  method ChargeLeftover(leftover: map<string, real>, charged: real, ghost charges: map<string, real>,
                        ghost reserved: set<string>)
    returns (total: real)
    requires leftover == charges - reserved && reserved <= charges.Keys
    ensures total == charged + MapSum(charges) - MapSum(Restrict(charges, reserved))
  {
    var rest := leftover.Keys;
    ghost var done := reserved;
    total := charged;
    while rest != {}
      invariant rest <= leftover.Keys && done == charges.Keys - rest
      invariant total == charged + MapSum(Restrict(charges, done)) - MapSum(Restrict(charges, reserved))
    {
      var id :| id in rest;
      RestrictInsert(charges, done, id);
      total := total + leftover[id];
      rest := rest - {id};
      done := done + {id};
    }
    assert Restrict(charges, done) == charges;
  }

  method SumReservedRisk(p: RiskPolicy, s: RiskDocument, a: AccountSnapshot) returns (r: Option<real>)
    ensures r == ReservedRisk(p, s, a)
  {
    var x, rs, es := p.execution, s.reservations, a.exposures;
    var countable, byRequest, unlinked := GroupExposures(x, es, a.resolvedRequests);
    if !countable { return None; }
    var ok, charged, leftover := ChargeReservations(x, rs, es, byRequest, unlinked);
    if !ok { return None; }
    assert Grouped(x, es) - rs.Keys == Charges(x, rs, es) - rs.Keys;
    var total := ChargeLeftover(leftover, charged, Charges(x, rs, es), rs.Keys);
    r := Some(total);
  }

  // ----- What the total promises -----

  lemma LinkedNonNegative(x: ExecutionPolicy, es: seq<Exposure>, id: string)
    requires Surcharges(x)
    ensures 0.0 <= Linked(x, es, id)
  {
    if es != [] {
      LinkedNonNegative(x, es[..|es| - 1], id);
      var e := es[|es| - 1];
      if RiskOf(x, e).Some? {
        RiskNonNegative(e, x.slippageBufferPctOfRisk, x.overlapMultiplier);
      }
    }
  }

  /** A new reservation raises the total by at most its own risk, even when broker fragments
      already carry its request, and by exactly that when none do. */
  lemma ReservingAddsAtMost(x: ExecutionPolicy, rs: Reservations, es: seq<Exposure>, id: string, r: Reservation)
    requires Surcharges(x) && id !in rs && Sound(r)
    ensures TotalRisk(x, rs[id := r], es) <= TotalRisk(x, rs, es) + r.risk
    ensures id !in LinkedIds(es) ==> TotalRisk(x, rs[id := r], es) == TotalRisk(x, rs, es) + r.risk
  {
    var before, after := Charges(x, rs, es), Charges(x, rs[id := r], es);
    LinkedNonNegative(x, es, id);
    if id in before {
      assert after == before[id := Max(before[id], r.risk)];
      MapSumUpdate(before, id, Max(before[id], r.risk));
    } else {
      LinkedZero(x, es, id);
      assert after == before[id := r.risk];
      MapSumInsert(before, id, r.risk);
    }
  }

  /** Dropping reservations never raises the total. */
  lemma ReleasingNeverAdds(x: ExecutionPolicy, rs: Reservations, fewer: Reservations, es: seq<Exposure>)
    requires Surcharges(x) && AllSound(rs)
    requires fewer.Keys <= rs.Keys && forall id | id in fewer :: fewer[id].risk == rs[id].risk
    ensures TotalRisk(x, fewer, es) <= TotalRisk(x, rs, es)
  {
    forall id ensures 0.0 <= Linked(x, es, id) { LinkedNonNegative(x, es, id); }
    MapSumMono(Charges(x, fewer, es), Charges(x, rs, es));
  }

  ghost function ReservationRisks(rs: Reservations): map<string, real> { map id | id in rs :: rs[id].risk }

  /** Every reservation is counted in full until it is gone, whatever the broker shows. */
  lemma ReservationsCountedInFull(x: ExecutionPolicy, rs: Reservations, es: seq<Exposure>)
    requires Surcharges(x)
    ensures forall id | id in rs :: rs[id].risk <= Charges(x, rs, es)[id]
    ensures Unlinked(x, es) + MapSum(ReservationRisks(rs)) <= TotalRisk(x, rs, es)
  {
    forall id ensures 0.0 <= Linked(x, es, id) { LinkedNonNegative(x, es, id); }
    MapSumMono(ReservationRisks(rs), Charges(x, rs, es));
  }

  // ----- What each exposure and each reservation contributes -----

  /** Exposures can be counted exactly when each is priced and belongs to no resolved request, and no two
      share a broker id. */
  lemma {:induction false} CountableIff(x: ExecutionPolicy, es: seq<Exposure>, resolved: set<string>)
    ensures Countable(x, es, resolved) <==>
      && (forall i, j | 0 <= i < j < |es| :: es[i].brokerId != es[j].brokerId)
      && (forall i | 0 <= i < |es| :: RiskOf(x, es[i]).Some? && (es[i].requestId.Some? ==> es[i].requestId.value !in resolved))
  {
    if Countable(x, es, resolved) {
      CountableMeaning(x, es, resolved);
    } else {
      var rest, e := es[..|es| - 1], es[|es| - 1];
      CountableIff(x, rest, resolved);
      assert forall i | 0 <= i < |rest| :: rest[i] == es[i];
      BrokerIdsMeaning(rest, e.brokerId);
    }
  }

  /** The total exists exactly when the exposures can be counted and every reservation is sound. */
  lemma ReservedRiskExists(p: RiskPolicy, s: RiskDocument, a: AccountSnapshot)
    ensures ReservedRisk(p, s, a).Some? <==>
      && (forall i, j | 0 <= i < j < |a.exposures| :: a.exposures[i].brokerId != a.exposures[j].brokerId)
      && (forall i | 0 <= i < |a.exposures| ::
            && a.exposures[i].Risk(p.execution.slippageBufferPctOfRisk, p.execution.overlapMultiplier).Some?
            && (a.exposures[i].requestId.Some? ==> a.exposures[i].requestId.value !in a.resolvedRequests))
      && (forall id | id in s.reservations :: 0.0 <= s.reservations[id].risk && 0.0 < s.reservations[id].volume)
  {
    CountableIff(p.execution, a.exposures, a.resolvedRequests);
  }

  /** With nothing at the broker the total is the sum of the reservations. */
  lemma ReservedWithoutExposures(p: RiskPolicy, s: RiskDocument, a: AccountSnapshot)
    requires a.exposures == [] && ReservedRisk(p, s, a).Some?
    ensures ReservedRisk(p, s, a).value == MapSum(ReservationRisks(s.reservations))
  {
    assert Charges(p.execution, s.reservations, []) == ReservationRisks(s.reservations);
  }

  lemma LinkedGrows(x: ExecutionPolicy, es: seq<Exposure>, e: Exposure, id: string)
    ensures Linked(x, es + [e], id) == Linked(x, es, id) + if e.requestId == Some(id) then ValueOrZero(RiskOf(x, e)) else 0.0
    ensures LinkedIds(es + [e]) == LinkedIds(es) + if e.requestId.Some? then {e.requestId.value} else {}
    ensures Unlinked(x, es + [e]) == Unlinked(x, es) + if e.requestId.None? then ValueOrZero(RiskOf(x, e)) else 0.0
  {
    assert (es + [e])[..|es|] == es;
  }

  lemma UnlinkedCharges(x: ExecutionPolicy, rs: Reservations, es: seq<Exposure>, e: Exposure)
    requires e.requestId.None?
    ensures Charges(x, rs, es + [e]) == Charges(x, rs, es)
  {
    forall id ensures Linked(x, es + [e], id) == Linked(x, es, id) { LinkedGrows(x, es, e, id); }
    LinkedGrows(x, es, e, "");
  }

  lemma LinkedCharges(x: ExecutionPolicy, rs: Reservations, es: seq<Exposure>, e: Exposure)
    requires e.requestId.Some?
    ensures var id := e.requestId.value;
      Charges(x, rs, es + [e]) == Charges(x, rs, es)[id := Charge(x, rs, es + [e], id)]
  {
    var id := e.requestId.value;
    forall k | k != id ensures Linked(x, es + [e], k) == Linked(x, es, k) { LinkedGrows(x, es, e, k); }
    LinkedGrows(x, es, e, id);
  }

  lemma ChargesAdd(x: ExecutionPolicy, rs: Reservations, es: seq<Exposure>, e: Exposure)
    requires RiskOf(x, e).Some?
    ensures e.requestId.None? || e.requestId.value !in rs ==> TotalRisk(x, rs, es + [e]) == TotalRisk(x, rs, es) + RiskOf(x, e).value
    ensures e.requestId.Some? && e.requestId.value in rs ==>
      var id := e.requestId.value;
      TotalRisk(x, rs, es + [e]) == TotalRisk(x, rs, es) - Max(Linked(x, es, id), rs[id].risk)
                                  + Max(Linked(x, es, id) + RiskOf(x, e).value, rs[id].risk)
  {
    LinkedGrows(x, es, e, "");
    if e.requestId.None? {
      UnlinkedCharges(x, rs, es, e);
    } else {
      var id := e.requestId.value;
      LinkedGrows(x, es, e, id);
      LinkedCharges(x, rs, es, e);
      if id in rs || id in LinkedIds(es) {
        MapSumUpdate(Charges(x, rs, es), id, Charge(x, rs, es + [e], id));
      } else {
        LinkedZero(x, es, id);
        MapSumInsert(Charges(x, rs, es), id, Charge(x, rs, es + [e], id));
      }
    }
  }

  lemma FewerExposures(p: RiskPolicy, s: RiskDocument, a: AccountSnapshot, e: Exposure)
    requires ReservedRisk(p, s, a.(exposures := a.exposures + [e])).Some?
    ensures ReservedRisk(p, s, a).Some? && RiskOf(p.execution, e).Some?
  {
    assert (a.exposures + [e])[..|a.exposures|] == a.exposures;
  }

  /** One more exposure adds its whole risk to the total, unless its request is reserved: then that
      request's charge becomes the larger of its reservation and the sum of its fragments. */
  lemma ExposureAdds(p: RiskPolicy, s: RiskDocument, a: AccountSnapshot, e: Exposure)
    requires ReservedRisk(p, s, a.(exposures := a.exposures + [e])).Some?
    ensures ReservedRisk(p, s, a).Some?
    ensures e.Risk(p.execution.slippageBufferPctOfRisk, p.execution.overlapMultiplier).Some?
    ensures var before, after := ReservedRisk(p, s, a).value, ReservedRisk(p, s, a.(exposures := a.exposures + [e])).value;
      var risk := e.Risk(p.execution.slippageBufferPctOfRisk, p.execution.overlapMultiplier).value;
      && (e.requestId.None? || e.requestId.value !in s.reservations ==> after == before + risk)
      && (e.requestId.Some? && e.requestId.value in s.reservations ==>
            var id := e.requestId.value;
            var fragments, floor := Linked(p.execution, a.exposures, id), s.reservations[id].risk;
            after == before - Max(fragments, floor) + Max(fragments + risk, floor))
  {
    FewerExposures(p, s, a, e);
    ChargesAdd(p.execution, s.reservations, a.exposures, e);
  }

  /** The fragments' sum: nothing at first, and each exposure's risk exactly when it carries the request. */
  lemma FragmentsAdd(x: ExecutionPolicy, es: seq<Exposure>, e: Exposure, id: string)
    ensures Linked(x, [], id) == 0.0
    ensures e.Risk(x.slippageBufferPctOfRisk, x.overlapMultiplier).Some? ==>
      Linked(x, es + [e], id) == Linked(x, es, id)
        + if e.requestId == Some(id) then e.Risk(x.slippageBufferPctOfRisk, x.overlapMultiplier).value else 0.0
  {
    LinkedGrows(x, es, e, id);
  }
}
