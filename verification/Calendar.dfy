/** Trading days (adaptive-risk/src/calendar.rs) over a zone's table of UTC offsets. Times are nanoseconds. */
module Calendar {
  import opened Outcomes

  type Time = int

  const DAY: int := 86_400_000_000_000

  /** The offset in force from each change onwards; `base` applies before the first one. */
  datatype Zone = Zone(base: int, changes: seq<(Time, int)>)

  datatype TradingCalendar = TradingCalendar(zone: Zone, resetTime: int)

  /** Half-open `[start, end)`. */
  datatype TradingDay = TradingDay(start: Time, end: Time)

  function OffsetAt(zone: Zone, t: Time): int
    decreases |zone.changes|
  {
    if |zone.changes| == 0 then zone.base
    else
      var last := |zone.changes| - 1;
      if zone.changes[last].0 <= t then zone.changes[last].1
      else OffsetAt(zone.(changes := zone.changes[..last]), t)
  }

  function Offsets(zone: Zone): (os: set<int>)
  {
    {zone.base} + set i | 0 <= i < |zone.changes| :: zone.changes[i].1
  }

  lemma OffsetListed(zone: Zone, t: Time)
    ensures OffsetAt(zone, t) in Offsets(zone)
    decreases |zone.changes|
  {
    if |zone.changes| != 0 {
      var last := |zone.changes| - 1;
      var earlier := zone.(changes := zone.changes[..last]);
      OffsetListed(earlier, t);
      assert zone.changes[last].1 in Offsets(zone);
      assert Offsets(earlier) <= Offsets(zone);
    }
  }


  function LocalAt(zone: Zone, t: Time): int { t + OffsetAt(zone, t) }

  function Instants(zone: Zone, local: int): set<Time>
  {
    set o | o in Offsets(zone) && OffsetAt(zone, local - o) == o :: local - o
  }

  /** `Instants` finds every instant whose wall clock shows `local`: none in a gap, two in an overlap. */
  lemma InstantsComplete(zone: Zone, local: int, t: Time)
    ensures t in Instants(zone, local) <==> LocalAt(zone, t) == local
  {
    OffsetListed(zone, t);
    if LocalAt(zone, t) == local {
      assert t == local - OffsetAt(zone, t);
    }
  }

  lemma Singleton<T>(s: set<T>, x: T)
    requires |s| == 1 && x in s
    ensures s == {x}
  {
    assert |s - {x}| == 0;
    assert s == (s - {x}) + {x};
  }

  function TheOnly<T(==)>(s: set<T>): (x: T)
    requires |s| == 1
    ensures s == {x}
  {
    assert forall x | x in s :: s == {x} by { forall x | x in s ensures s == {x} { Singleton(s, x); } }
    var x :| x in s; x
  }

  function Single(ts: set<Time>): (r: Option<Time>)
    ensures r.Some? <==> |ts| == 1
    ensures r.Some? ==> ts == {r.value}
  {
    if |ts| == 1 then Some(TheOnly(ts)) else None
  }

  /** The local date whose trading day is running at `now`: yesterday's until the reset time has passed. */
  function DateAt(calendar: TradingCalendar, now: Time): int
  {
    var local := LocalAt(calendar.zone, now);
    if local % DAY < calendar.resetTime then local / DAY - 1 else local / DAY
  }

  function Boundary(calendar: TradingCalendar, date: int): Option<Time>
  {
    Single(Instants(calendar.zone, date * DAY + calendar.resetTime))
  }

  function DayAt(calendar: TradingCalendar, now: Time): Option<TradingDay>
  {
    var date := DateAt(calendar, now);
    var start := Boundary(calendar, date);
    var end := Boundary(calendar, date + 1);
    if start.None? || end.None? then None
    else if start.value <= now < end.value then Some(TradingDay(start.value, end.value))
    else None
  }

  /** The wall clock never stands a whole day or more behind an earlier reading of itself. */
  ghost predicate NeverRewindsADay(zone: Zone)
  {
    forall earlier: Time, later: Time | earlier <= later :: LocalAt(zone, earlier) - LocalAt(zone, later) < DAY
  }

  /** A zone whose offsets differ by no more than a day satisfies it. */
  lemma NearbyOffsetsNeverRewind(zone: Zone)
    requires forall o, p | o in Offsets(zone) && p in Offsets(zone) :: o - p <= DAY
    ensures NeverRewindsADay(zone)
  {
    forall earlier: Time, later: Time | earlier <= later
      ensures LocalAt(zone, earlier) - LocalAt(zone, later) < DAY
    {
      OffsetListed(zone, earlier);
      OffsetListed(zone, later);
    }
  }

  predicate Contains(day: TradingDay, t: Time) { day.start <= t < day.end }

  predicate Disjoint(a: TradingDay, b: TradingDay) { a.end <= b.start || b.end <= a.start }

  lemma BoundariesIncrease(calendar: TradingCalendar, earlier: int, later: int)
    requires NeverRewindsADay(calendar.zone) && earlier < later
    requires Boundary(calendar, earlier).Some? && Boundary(calendar, later).Some?
    ensures Boundary(calendar, earlier).value < Boundary(calendar, later).value
  {
    var t, u := Boundary(calendar, earlier).value, Boundary(calendar, later).value;
    InstantsComplete(calendar.zone, earlier * DAY + calendar.resetTime, t);
    InstantsComplete(calendar.zone, later * DAY + calendar.resetTime, u);
    assert LocalAt(calendar.zone, t) + DAY <= LocalAt(calendar.zone, u);
  }

  predicate Bounded(calendar: TradingCalendar, date: int)
  {
    Boundary(calendar, date).Some? && Boundary(calendar, date + 1).Some?
  }

  function DayOn(calendar: TradingCalendar, date: int): TradingDay
    requires Bounded(calendar, date)
  {
    TradingDay(Boundary(calendar, date).value, Boundary(calendar, date + 1).value)
  }

  lemma DatesOrder(calendar: TradingCalendar, d: int, e: int)
    requires NeverRewindsADay(calendar.zone) && Bounded(calendar, d) && Bounded(calendar, e)
    ensures d < e ==> DayOn(calendar, d).end <= DayOn(calendar, e).start
    ensures e < d ==> DayOn(calendar, e).end <= DayOn(calendar, d).start
  {
    if d + 1 < e {
      BoundariesIncrease(calendar, d + 1, e);
    } else if e + 1 < d {
      BoundariesIncrease(calendar, e + 1, d);
    }
  }

  /** Days tile: each contains its instant, two of them are equal or disjoint, and every
      instant of a day that has a day at all has that same day. */
  lemma DaysTile(calendar: TradingCalendar, now: Time, other: Time)
    requires NeverRewindsADay(calendar.zone)
    requires DayAt(calendar, now).Some? && DayAt(calendar, other).Some?
    ensures Contains(DayAt(calendar, now).value, now)
    ensures DayAt(calendar, now) == DayAt(calendar, other)
         || Disjoint(DayAt(calendar, now).value, DayAt(calendar, other).value)
    ensures Contains(DayAt(calendar, now).value, other) ==> DayAt(calendar, other) == DayAt(calendar, now)
    ensures DayAt(calendar, now).value.start == DayAt(calendar, other).value.start
        ==> DayAt(calendar, now) == DayAt(calendar, other)
  {
    DatesOrder(calendar, DateAt(calendar, now), DateAt(calendar, other));
  }

  // ----- Which day, if any -----

  /** The one instant at which the wall clock shows `local`. */
  ghost predicate OnlyInstant(zone: Zone, local: int, t: Time)
  {
    LocalAt(zone, t) == local && forall u: Time :: LocalAt(zone, u) == local ==> u == t
  }

  lemma SingleIff(zone: Zone, local: int, t: Time)
    ensures Single(Instants(zone, local)) == Some(t) <==> OnlyInstant(zone, local, t)
  {
    var ts := Instants(zone, local);
    forall u: Time ensures u in ts <==> LocalAt(zone, u) == local { InstantsComplete(zone, local, u); }
    if OnlyInstant(zone, local, t) {
      assert ts == {t};
    }
  }

  /** The wall clock has passed the reset of `date`, and not yet that of the next. */
  lemma DateIsRunning(calendar: TradingCalendar, now: Time)
    requires 0 <= calendar.resetTime < DAY
    ensures var date := DateAt(calendar, now);
      date * DAY + calendar.resetTime <= LocalAt(calendar.zone, now) < (date + 1) * DAY + calendar.resetTime
  {
    var local := LocalAt(calendar.zone, now);
    assert local == local / DAY * DAY + local % DAY;
  }

  /** An instant has a day exactly when the resets of the running date and of the next each happen at one
      instant, with this one between them: at or after the first, before the second. That is then the day. */
  lemma DayAtIff(calendar: TradingCalendar, now: Time, day: TradingDay, date: int)
    requires 0 <= calendar.resetTime < DAY
    requires date * DAY + calendar.resetTime <= LocalAt(calendar.zone, now) < (date + 1) * DAY + calendar.resetTime
    ensures DayAt(calendar, now) == Some(day) <==>
      && OnlyInstant(calendar.zone, date * DAY + calendar.resetTime, day.start)
      && OnlyInstant(calendar.zone, (date + 1) * DAY + calendar.resetTime, day.end)
      && day.start <= now < day.end
  {
    DateIsRunning(calendar, now);
    assert DateAt(calendar, now) == date by { OneRunningDate(LocalAt(calendar.zone, now) - calendar.resetTime, date, DateAt(calendar, now)); }
    SingleIff(calendar.zone, date * DAY + calendar.resetTime, day.start);
    SingleIff(calendar.zone, (date + 1) * DAY + calendar.resetTime, day.end);
  }

  lemma OneRunningDate(since: int, d: int, e: int)
    requires d * DAY <= since < (d + 1) * DAY && e * DAY <= since < (e + 1) * DAY
    ensures d == e
  {
  }

  /** Twentieths of a day, for the zone below. */
  const TWENTIETH: int := DAY / 20

  /** No IANA zone: a made-up table whose wall clock shows date 0, then date 10, then date 0 again, then date 10 again. */
  const LEAPING: Zone := Zone(0, [(4 * TWENTIETH, 192 * TWENTIETH), (10 * TWENTIETH, 6 * TWENTIETH), (15 * TWENTIETH, 203 * TWENTIETH)])

  lemma LeapingOffset(t: Time)
    ensures OffsetAt(LEAPING, t) ==
      if 15 * TWENTIETH <= t then 203 * TWENTIETH
      else if 10 * TWENTIETH <= t then 6 * TWENTIETH
      else if 4 * TWENTIETH <= t then 192 * TWENTIETH
      else 0
  {
    var two := LEAPING.(changes := LEAPING.changes[..2]);
    var one := two.(changes := two.changes[..1]);
    assert OffsetAt(one, t) == if 4 * TWENTIETH <= t then 192 * TWENTIETH else OffsetAt(one.(changes := []), t);
    assert OffsetAt(two, t) == if 10 * TWENTIETH <= t then 6 * TWENTIETH else OffsetAt(one, t);
  }

  lemma LeapingInstant(local: int, t: Time)
    requires local in {0, DAY, 10 * DAY, 11 * DAY}
    requires t == if local == 0 then 0 else if local == DAY then 14 * TWENTIETH else if local == 10 * DAY then 8 * TWENTIETH else 17 * TWENTIETH
    ensures Single(Instants(LEAPING, local)) == Some(t)
  {
    forall u: Time ensures u in Instants(LEAPING, local) <==> u == t { LeapingOffset(u); InstantsComplete(LEAPING, local, u); }
    assert Instants(LEAPING, local) == {t};
  }

  const LEAPING_CALENDAR: TradingCalendar := TradingCalendar(LEAPING, 0)

  lemma LeapingBoundary(date: int, t: Time)
    requires date in {0, 1, 10, 11}
    requires t == if date == 0 then 0 else if date == 1 then 14 * TWENTIETH else if date == 10 then 8 * TWENTIETH else 17 * TWENTIETH
    ensures Boundary(LEAPING_CALENDAR, date) == Some(t)
  {
    LeapingInstant(date * DAY, t);
  }

  lemma LeapingDate(now: Time)
    requires now in {0, 8 * TWENTIETH}
    ensures DateAt(LEAPING_CALENDAR, now) == if now == 0 then 0 else 10
  {
    LeapingOffset(now);
  }

  /** The hypothesis of `DaysTile` cannot simply be dropped: two different days of this calendar overlap. */
  lemma DaysCanOverlapOtherwise()
    ensures DayAt(LEAPING_CALENDAR, 0) == Some(TradingDay(0, 14 * TWENTIETH))
    ensures DayAt(LEAPING_CALENDAR, 8 * TWENTIETH) == Some(TradingDay(8 * TWENTIETH, 17 * TWENTIETH))
  {
    LeapingDate(0);
    LeapingDate(8 * TWENTIETH);
    LeapingBoundary(0, 0);
    LeapingBoundary(1, 14 * TWENTIETH);
    LeapingBoundary(10, 8 * TWENTIETH);
    LeapingBoundary(11, 17 * TWENTIETH);
  }

  /** A made-up zone whose clock falls back two days, once. */
  const REWINDING: TradingCalendar := TradingCalendar(Zone(0, [(0, -2 * DAY)]), 0)

  lemma RewindingOffset(t: Time)
    ensures OffsetAt(REWINDING.zone, t) == if 0 <= t then -2 * DAY else 0
  {
    assert OffsetAt(REWINDING.zone.(changes := []), t) == 0;
  }

  lemma RewindingBoundary(date: int)
    ensures Boundary(REWINDING, date) ==
      if date < -2 then Some(date * DAY) else if date < 0 then None else Some((date + 2) * DAY)
  {
    var ts := Instants(REWINDING.zone, date * DAY);
    forall t: Time ensures t in ts <==> (t < 0 && t == date * DAY) || (0 <= t && t == (date + 2) * DAY) {
      RewindingOffset(t);
      InstantsComplete(REWINDING.zone, date * DAY, t);
    }
    if date < -2 {
      assert ts == {date * DAY};
    } else if date < 0 {
      assert ts == {date * DAY, (date + 2) * DAY};
    } else {
      assert ts == {(date + 2) * DAY};
    }
  }

  /** Nor is it necessary: this clock rewinds more than a day and its days still tile, because the boundaries
      that come twice are ambiguous and give no day. */
  lemma RewindingDaysTile(now: Time, other: Time)
    requires DayAt(REWINDING, now).Some? && DayAt(REWINDING, other).Some?
    ensures DayAt(REWINDING, now) == DayAt(REWINDING, other)
         || Disjoint(DayAt(REWINDING, now).value, DayAt(REWINDING, other).value)
    ensures !NeverRewindsADay(REWINDING.zone)
  {
    var d, e := DateAt(REWINDING, now), DateAt(REWINDING, other);
    RewindingBoundary(d);
    RewindingBoundary(d + 1);
    RewindingBoundary(e);
    RewindingBoundary(e + 1);
    RewindingOffset(-1);
    RewindingOffset(0);
    assert LocalAt(REWINDING.zone, -1) - LocalAt(REWINDING.zone, 0) >= DAY;
  }
}
