/** The risk policy and its two tightening schedules (adaptive-risk/src/policy.rs). */
module Policy {
  import opened Calendar

  datatype DrawdownReference = StaticInitialBalance | TrailingBalance | TrailingEquity

  datatype DailyReference = Balance | Equity | HigherOfBalanceAndEquity

  /** `value` applies from `from` upwards; streak tiers count losses, drawdown tiers percent. */
  datatype Tier = Tier(from: real, value: real)

  datatype StreakBackoff = StreakBackoff(enabled: bool, resetOnWin: bool, resetOnBreakEven: bool, levels: seq<Tier>)

  datatype DrawdownBackoff = DrawdownBackoff(enabled: bool, levels: seq<Tier>)

  datatype ExecutionPolicy = ExecutionPolicy(
    slippageBufferPctOfRisk: real, maxDataAgeSeconds: int, overlapMultiplier: real)

  datatype RiskPolicy = RiskPolicy(
    version: string,
    baseRiskPct: real,
    maxAccountLossPct: real,
    internalAccountStopPct: real,
    dailyLossLimitPct: real,
    internalDailyStopPct: real,
    safetyBufferPct: real,
    drawdownReference: DrawdownReference,
    dailyReference: DailyReference,
    trailingAllowanceTracksReference: bool,
    calendar: TradingCalendar,
    streakBackoff: StreakBackoff,
    drawdownBackoff: DrawdownBackoff,
    execution: ExecutionPolicy)
  {
    predicate Valid()
    {
      && version != ""
      && 0 < execution.maxDataAgeSeconds
      && 0.0 <= execution.slippageBufferPctOfRisk <= 1000.0
      && 1.0 <= execution.overlapMultiplier <= 100.0
      && 0.0 < baseRiskPct <= 100.0
      && 0.0 <= safetyBufferPct
      && StopBelowLimit(internalDailyStopPct, dailyLossLimitPct)
      && StopBelowLimit(internalAccountStopPct, maxAccountLossPct)
      && StartsAtZero(streakBackoff.levels) && streakBackoff.levels[0].value <= 1.0
      && WithinRange(streakBackoff.levels, 1.0) && Tightens(streakBackoff.levels)
      && StartsAtZero(drawdownBackoff.levels)
      && (forall tier | tier in drawdownBackoff.levels :: 0.0 <= tier.from <= 100.0)
      && WithinRange(drawdownBackoff.levels, 100.0) && Tightens(drawdownBackoff.levels)
      && DayAt(calendar, 0).Some?
    }

    predicate StopBelowLimit(internal: real, firm: real)
    {
      0.0 < internal && firm <= 100.0 && internal + safetyBufferPct < firm
    }

    function StreakMultiplier(losses: nat): real
    {
      if streakBackoff.enabled then LastReached(streakBackoff.levels, losses as real) else 1.0
    }

    function DrawdownRiskPct(drawdown: real): real
    {
      if drawdownBackoff.enabled then LastReached(drawdownBackoff.levels, drawdown) else baseRiskPct
    }
  }

  predicate StartsAtZero(levels: seq<Tier>) { levels != [] && levels[0].from == 0.0 }

  predicate WithinRange(levels: seq<Tier>, top: real)
  {
    forall tier | tier in levels :: 0.0 <= tier.value <= top
  }

  /** Each window of two rises in threshold and does not rise in value. */
  predicate Tightens(levels: seq<Tier>)
  {
    forall i | 0 < i < |levels| :: levels[i - 1].from < levels[i].from && levels[i].value <= levels[i - 1].value
  }

  /** Search from the last tier backwards for one whose threshold has been reached. */
  function LastReached(levels: seq<Tier>, x: real): real
  {
    if levels == [] then 0.0
    else if levels[|levels| - 1].from <= x then levels[|levels| - 1].value
    else LastReached(levels[..|levels| - 1], x)
  }

  /** In a tightening schedule that starts at zero the search finds exactly the tier whose
      half-open band `[from, next.from)` holds `x`. */
  lemma {:induction false} LastReachedIsBand(levels: seq<Tier>, x: real) returns (i: nat)
    requires StartsAtZero(levels) && Tightens(levels) && 0.0 <= x
    ensures i < |levels| && LastReached(levels, x) == levels[i].value
    ensures levels[i].from <= x && (i + 1 < |levels| ==> x < levels[i + 1].from)
    ensures forall j | 0 <= j < |levels| :: levels[j].from <= x <==> j <= i
  {
    var last := |levels| - 1;
    if levels[last].from <= x {
      i := last;
      ThresholdsRise(levels, last);
    } else {
      i := LastReachedIsBand(levels[..last], x);
    }
  }

  lemma {:induction false} ThresholdsRise(levels: seq<Tier>, j: nat)
    requires Tightens(levels) && j < |levels|
    ensures forall i | 0 <= i <= j :: levels[i].from <= levels[j].from && levels[j].value <= levels[i].value
  {
    if j > 0 {
      ThresholdsRise(levels, j - 1);
    }
  }

  lemma LastReachedTightens(levels: seq<Tier>, x: real, y: real)
    requires StartsAtZero(levels) && Tightens(levels) && 0.0 <= x <= y
    ensures LastReached(levels, y) <= LastReached(levels, x)
  {
    var i := LastReachedIsBand(levels, x);
    var j := LastReachedIsBand(levels, y);
    assert levels[i].from <= y;
    ThresholdsRise(levels, j);
  }

  /** More losses in a row never earn a larger multiplier, nor a deeper drawdown a larger allowance. */
  lemma SchedulesTighten(p: RiskPolicy, fewer: nat, more: nat, shallow: real, deep: real)
    requires p.Valid() && fewer <= more && 0.0 <= shallow <= deep
    ensures 0.0 <= p.StreakMultiplier(more) <= p.StreakMultiplier(fewer) <= 1.0
    ensures p.DrawdownRiskPct(deep) <= p.DrawdownRiskPct(shallow)
  {
    if p.streakBackoff.enabled {
      LastReachedTightens(p.streakBackoff.levels, fewer as real, more as real);
      var i := LastReachedIsBand(p.streakBackoff.levels, fewer as real);
      var j := LastReachedIsBand(p.streakBackoff.levels, more as real);
      assert p.streakBackoff.levels[i] in p.streakBackoff.levels && p.streakBackoff.levels[j] in p.streakBackoff.levels;
    }
    if p.drawdownBackoff.enabled {
      LastReachedTightens(p.drawdownBackoff.levels, shallow, deep);
    }
  }

  /** A schedule starts at zero, and tier by tier its thresholds rise and its values stay in range and do not rise. */
  predicate SoundSchedule(levels: seq<Tier>, top: real)
  {
    && 0 < |levels| && levels[0].from == 0.0
    && (forall i | 0 <= i < |levels| :: 0.0 <= levels[i].value && levels[i].value <= top)
    && (forall i | 0 <= i < |levels| - 1 :: levels[i].from < levels[i + 1].from && levels[i + 1].value <= levels[i].value)
  }

  lemma SoundScheduleIff(levels: seq<Tier>, top: real)
    ensures SoundSchedule(levels, top) <==> StartsAtZero(levels) && WithinRange(levels, top) && Tightens(levels)
  {
    if StartsAtZero(levels) && WithinRange(levels, top) && Tightens(levels) {
      assert forall i | 0 <= i < |levels| :: levels[i] in levels;
    }
    if SoundSchedule(levels, top) {
      forall i | 0 < i < |levels| ensures levels[i - 1].from < levels[i].from && levels[i].value <= levels[i - 1].value {
        var before := i - 1;
        assert levels[before].from < levels[before + 1].from;
      }
    }
  }

  /** What validation asks of a policy. */
  lemma ValidExactlyWhen(p: RiskPolicy)
    ensures p.Valid() <==>
      && p.version != "" && 0 < p.execution.maxDataAgeSeconds
      && 0.0 <= p.execution.slippageBufferPctOfRisk && p.execution.slippageBufferPctOfRisk <= 1000.0
      && 1.0 <= p.execution.overlapMultiplier && p.execution.overlapMultiplier <= 100.0
      && 0.0 < p.baseRiskPct && p.baseRiskPct <= 100.0 && 0.0 <= p.safetyBufferPct
      && 0.0 < p.internalDailyStopPct && p.internalDailyStopPct + p.safetyBufferPct < p.dailyLossLimitPct && p.dailyLossLimitPct <= 100.0
      && 0.0 < p.internalAccountStopPct && p.internalAccountStopPct + p.safetyBufferPct < p.maxAccountLossPct && p.maxAccountLossPct <= 100.0
      && SoundSchedule(p.streakBackoff.levels, 1.0)
      && SoundSchedule(p.drawdownBackoff.levels, 100.0)
      && (forall i | 0 <= i < |p.drawdownBackoff.levels| :: 0.0 <= p.drawdownBackoff.levels[i].from && p.drawdownBackoff.levels[i].from <= 100.0)
      && DayAt(p.calendar, 0).Some?
  {
    SoundScheduleIff(p.streakBackoff.levels, 1.0);
    SoundScheduleIff(p.drawdownBackoff.levels, 100.0);
    var levels := p.drawdownBackoff.levels;
    assert forall i | 0 <= i < |levels| :: levels[i] in levels;
    assert SoundSchedule(p.streakBackoff.levels, 1.0) ==> p.streakBackoff.levels[0].value <= 1.0;
  }
}
