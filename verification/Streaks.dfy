/** The losing streak: an order-free definition, and the sorted replay that computes it
    (adaptive-risk/src/ledger.rs, `rebuild_streak`). */
module Streaks {
  import opened Account
  import opened Ordering
  import opened Policy

  const MAX_U32: nat := 0xffff_ffff

  function Saturated(n: nat): nat { if n > MAX_U32 then MAX_U32 else n }

  /** An outcome with the key it is stored under. */
  type Entry = (string, SetupOutcome)

  /** `(closed_at, setup_id)` order. */
  predicate ClosedEarlier(a: SetupOutcome, b: SetupOutcome)
  {
    a.closedAt < b.closedAt || (a.closedAt == b.closedAt && Before(a.setupId, b.setupId))
  }

  /** Outcomes that tie, which only happens under foreign keys, stay in the order of the map. */
  predicate Earlier(a: Entry, b: Entry)
  {
    || ClosedEarlier(a.1, b.1)
    || (a.1.closedAt == b.1.closedAt && a.1.setupId == b.1.setupId && Before(a.0, b.0))
  }

  lemma EarlierIsStrictOrder(a: Entry, b: Entry, c: Entry)
    ensures Earlier(a, b) && Earlier(b, c) ==> Earlier(a, c)
    ensures Earlier(a, b) ==> !Earlier(b, a)
    ensures a.0 != b.0 ==> Earlier(a, b) || Earlier(b, a)
  {
    StringOrder(a.1.setupId, b.1.setupId, c.1.setupId);
    StringOrder(a.0, b.0, c.0);
  }

  lemma StringOrder(a: string, b: string, c: string)
    ensures Before(a, b) && Before(b, c) ==> Before(a, c)
    ensures Before(a, b) ==> !Before(b, a) && a != b
    ensures Before(a, b) || a == b || Before(b, a)
  {
    Trichotomy(a, b);
    if Before(a, b) {
      Asymmetric(a, b);
      if Before(b, c) { Transitive(a, b, c); }
    }
  }

  predicate Lost(o: SetupOutcome) { o.netPnl < 0.0 }

  predicate Resets(b: StreakBackoff, o: SetupOutcome)
  {
    (0.0 < o.netPnl && b.resetOnWin) || (o.netPnl == 0.0 && b.resetOnBreakEven)
  }

  /** The losses later than every resetting outcome. */
  ghost function Counted(b: StreakBackoff, os: set<Entry>): set<Entry>
  {
    set o | o in os && Lost(o.1) && forall r | r in os && Resets(b, r.1) :: Earlier(r, o)
  }

  ghost function StreakOf(b: StreakBackoff, outcomes: map<string, SetupOutcome>): nat
  {
    Saturated(|Counted(b, outcomes.Items)|)
  }

  function Replayed(b: StreakBackoff, losses: nat, o: SetupOutcome): nat
  {
    if Lost(o) then (if losses < MAX_U32 then losses + 1 else MAX_U32)
    else if Resets(b, o) then 0
    else losses
  }

  /** Replaying one outcome later than all the others moves the saturated count as the definition says. */
  lemma ReplayLatest(b: StreakBackoff, os: set<Entry>, o: Entry)
    requires forall e | e in os :: Earlier(e, o)
    ensures Replayed(b, Saturated(|Counted(b, os)|), o.1) == Saturated(|Counted(b, os + {o})|)
  {
    var before, after := Counted(b, os), Counted(b, os + {o});
    EarlierIsStrictOrder(o, o, o);
    if Lost(o.1) {
      assert after == before + {o};
      assert o !in before;
    } else if Resets(b, o.1) {
      forall l | l in os ensures !Earlier(o, l) { EarlierIsStrictOrder(o, l, o); }
      assert after == {};
    } else {
      assert after == before;
    }
  }

  // ----- Sorting -----

  function Elements(os: seq<Entry>): set<Entry> { set o | o in os }

  predicate Ascending(os: seq<Entry>)
  {
    forall i, j | 0 <= i < j < |os| :: Earlier(os[i], os[j])
  }

  /** Stable: an entry goes before the later ones it ties with. */
  function Insert(os: seq<Entry>, o: Entry): seq<Entry>
  {
    if os != [] && ClosedEarlier(os[0].1, o.1) then [os[0]] + Insert(os[1..], o) else [o] + os
  }

  function Sort(os: seq<Entry>): seq<Entry>
  {
    if os == [] then [] else Insert(Sort(os[1..]), os[0])
  }

  lemma {:induction false} InsertElements(os: seq<Entry>, o: Entry)
    ensures Elements(Insert(os, o)) == Elements(os) + {o}
  {
    if os != [] && ClosedEarlier(os[0].1, o.1) {
      InsertElements(os[1..], o);
      assert os == [os[0]] + os[1..];
      assert Elements(os) == {os[0]} + Elements(os[1..]);
      assert Elements(Insert(os, o)) == {os[0]} + Elements(Insert(os[1..], o));
    }
  }

  lemma EarlierUnlessClosedLater(a: Entry, b: Entry)
    requires Before(a.0, b.0)
    ensures !ClosedEarlier(b.1, a.1) ==> Earlier(a, b)
  {
    Trichotomy(a.1.setupId, b.1.setupId);
  }

  lemma {:induction false} InsertAscending(os: seq<Entry>, o: Entry)
    requires Ascending(os) && forall e | e in os :: Before(o.0, e.0)
    ensures Ascending(Insert(os, o))
  {
    if os != [] {
      var rest := Insert(os[1..], o);
      if ClosedEarlier(os[0].1, o.1) {
        InsertAscending(os[1..], o);
        InsertElements(os[1..], o);
        forall j | 0 <= j < |rest| ensures Earlier(os[0], rest[j]) { assert rest[j] in Elements(rest); }
      } else {
        EarlierUnlessClosedLater(o, os[0]);
        forall j | 0 <= j < |os| ensures Earlier(o, os[j]) { EarlierIsStrictOrder(o, os[0], os[j]); }
      }
    }
  }

  /** In ascending order of keys. */
  predicate KeyOrdered(os: seq<Entry>)
  {
    forall i, j | 0 <= i < j < |os| :: Before(os[i].0, os[j].0)
  }

  lemma {:induction false} SortIsAscending(os: seq<Entry>)
    requires KeyOrdered(os)
    ensures Ascending(Sort(os)) && Elements(Sort(os)) == Elements(os)
  {
    if os != [] {
      SortIsAscending(os[1..]);
      assert forall e | e in Sort(os[1..]) :: e in Elements(os[1..]);
      InsertAscending(Sort(os[1..]), os[0]);
      InsertElements(Sort(os[1..]), os[0]);
      assert os == [os[0]] + os[1..];
    }
  }

  lemma AppendKey(os: seq<Entry>, o: Entry)
    requires KeyOrdered(os) && forall e | e in os :: Before(e.0, o.0)
    ensures KeyOrdered(os + [o])
  {
    assert forall i | 0 <= i < |os| :: os[i] in os;
  }

  /** The map's own iteration: every entry, in ascending order of keys. */
  method CollectOutcomes(outcomes: map<string, SetupOutcome>) returns (os: seq<Entry>)
    ensures KeyOrdered(os) && Elements(os) == outcomes.Items
  {
    os := [];
    var todo := outcomes.Keys;
    while todo != {}
      invariant todo <= outcomes.Keys
      invariant KeyOrdered(os)
      invariant forall o :: o in os <==> o.0 in outcomes.Keys - todo && o.1 == outcomes[o.0]
      invariant forall o, k | o in os && k in todo :: Before(o.0, k)
    {
      var id := TakeLeast(todo);
      AppendKey(os, (id, outcomes[id]));
      os := os + [(id, outcomes[id])];
      todo := todo - {id};
    }
    assert forall o :: o in os <==> o in outcomes.Items;
  }

  method TakeLeast(ids: set<string>) returns (id: string)
    requires ids != {}
    ensures Least(id, ids)
  {
    ghost var witnessed := LeastExists(ids);
    id :| id in ids && forall k | k in ids && k != id :: Before(id, k);
  }

  /** Collect, sort, replay. */
  method ReplayStreak(b: StreakBackoff, outcomes: map<string, SetupOutcome>) returns (losses: nat)
    ensures losses == StreakOf(b, outcomes)
  {
    var collected := CollectOutcomes(outcomes);
    var ordered := Sort(collected);
    SortIsAscending(collected);
    losses := 0;
    assert Counted(b, Elements(ordered[..0])) == {};
    for i := 0 to |ordered|
      invariant losses == Saturated(|Counted(b, Elements(ordered[..i]))|)
    {
      ReplayLatest(b, Elements(ordered[..i]), ordered[i]);
      assert Elements(ordered[..i + 1]) == Elements(ordered[..i]) + {ordered[i]};
      losses := Replayed(b, losses, ordered[i].1);
    }
    assert ordered[..|ordered|] == ordered;
  }
}
