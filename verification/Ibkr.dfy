/** Whole-contract sizing of one entry (broker-ibkr/src/ibkr.rs, risk.rs), with exact reals for its floats. */
module Ibkr {
  import opened Decimals
  import opened Outcomes

  const U32_MAX: int := 0xFFFF_FFFF

  type Contracts = n: int | 0 <= n <= U32_MAX

  datatype RiskBudget = Percent(pct: real) | Amount(amount: real) | Units(literal: real)

  datatype EntryError =
    | ContractSizeUnavailable
    | RiskCapExceeded
    | AccountFetch
    | OpenPositionsCapExceeded
    | OrderRejected
    | EquityParse
    | UnitsBelowMinimum

  datatype SizeLimits = SizeLimits(minSize: real, sizeIncrement: real)

  datatype AccountSnapshot = AccountSnapshot(equity: real, openPositions: nat, rate: real, limits: SizeLimits)

  datatype EntryRequest =
    EntryRequest(multiplier: Option<real>, risk: RiskBudget, reference: real, stopLoss: real, dryRun: bool)

  datatype Caps = Caps(maxRiskPct: real, maxOpenPositions: nat)

  datatype Sized = Sized(contracts: Contracts) | Unsized(error: EntryError)

  datatype Placement = Placed(size: Contracts, price: real) | Refused(error: EntryError)

  function Abs(x: real): real { if x < 0.0 then -x else x }

  /** `floor().min(u32::MAX) as u32`, for a non-negative number. */
  function Saturated(x: real): Contracts
    requires 0.0 <= x
  {
    if x.Floor <= U32_MAX then x.Floor else U32_MAX
  }

  function ContractsForBudget(budget: real, stop: real, multiplier: real, rate: real): Contracts
  {
    if budget <= 0.0 || stop <= 0.0 || multiplier <= 0.0 || rate <= 0.0 then 0
    else
      var perContract := stop * multiplier * rate;
      MulPositive(stop, multiplier);
      MulPositive(stop * multiplier, rate);
      DivIff(0.0, budget, perContract);
      Saturated(budget / perContract)
  }

  /** An increment or minimum that is not positive says nothing usable and reads as one contract. */
  function OrOne(x: real): real { if x > 0.0 then x else 1.0 }

  /** The greatest multiple of the increment that is not above the count. */
  function Fitted(contracts: Contracts, increment: real): real
    requires 0.0 < increment
  {
    Multiple((contracts as real / increment).Floor, increment)
  }

  function FitToSizeGrid(contracts: Contracts, limits: SizeLimits): Option<Contracts>
  {
    var fitted := Fitted(contracts, OrOne(limits.sizeIncrement));
    if contracts == 0 || fitted < OrOne(limits.minSize) || fitted <= 0.0 then None else Some(Saturated(fitted))
  }

  function PercentOf(amount: real, equity: real): real
    requires 0.0 < equity
  {
    amount / equity * 100.0
  }

  function SizeEntry(risk: RiskBudget, equity: real, maxRiskPct: real, stop: real, multiplier: real, rate: real): Sized
  {
    if equity <= 0.0 then Unsized(EquityParse)
    else match risk
      case Percent(pct) => Sized(ContractsForBudget(Pct(equity, pct), stop, multiplier, rate))
      case Amount(amount) =>
        if PercentOf(amount, equity) > maxRiskPct then Unsized(RiskCapExceeded)
        else Sized(ContractsForBudget(amount, stop, multiplier, rate))
      case Units(literal) =>
        if PercentOf(literal * stop * multiplier * rate, equity) > maxRiskPct then Unsized(RiskCapExceeded)
        else Sized(if literal <= 0.0 then 0 else Saturated(literal))
  }

  /** `account` is missing when the account could not be read. */
  function PlaceEntry(caps: Caps, req: EntryRequest, account: Option<AccountSnapshot>): Placement
  {
    if req.multiplier.None? || req.multiplier.value <= 0.0 then Refused(ContractSizeUnavailable)
    else if req.risk.Percent? && req.risk.pct > caps.maxRiskPct then Refused(RiskCapExceeded)
    else if account.None? then Refused(AccountFetch)
    else if account.value.openPositions >= caps.maxOpenPositions then Refused(OpenPositionsCapExceeded)
    else if Abs(req.reference - req.stopLoss) <= 0.0 then Refused(OrderRejected)
    else
      var sized := SizeEntry(req.risk, account.value.equity, caps.maxRiskPct, Abs(req.reference - req.stopLoss),
                             req.multiplier.value, account.value.rate);
      if sized.Unsized? then Refused(sized.error)
      else
        var fitted := FitToSizeGrid(sized.contracts, account.value.limits);
        if fitted.None? || fitted.value == 0 then Refused(UnitsBelowMinimum)
        else if req.dryRun then Placed(fitted.value, req.reference)
        else Refused(OrderRejected)
  }

  /** Money lost per contract when the stop is hit, in account currency. */
  function PerContract(stop: real, multiplier: real, rate: real): (r: real)
    ensures 0.0 < stop && 0.0 < multiplier && 0.0 < rate ==> 0.0 < r
  {
    if 0.0 < stop && 0.0 < multiplier && 0.0 < rate then
      MulPositive(stop, multiplier);
      MulPositive(stop * multiplier, rate);
      stop * multiplier * rate
    else
      stop * multiplier * rate
  }

  /** What the caller asked to put at risk, in account currency. */
  function Requested(risk: RiskBudget, equity: real, perContract: real): real
  {
    match risk
    case Percent(pct) => Pct(equity, pct)
    case Amount(amount) => amount
    case Units(literal) => literal * perContract
  }

  lemma PctIff(amount: real, equity: real, cap: real)
    requires 0.0 < equity
    ensures PercentOf(amount, equity) <= cap <==> amount <= Pct(equity, cap)
  {
    var share := amount / equity;
    assert share * equity == amount;
    if share * 100.0 <= cap {
      MulMono(share * 100.0, cap, equity);
      assert share * 100.0 * equity == amount * 100.0;
    } else {
      MulStrict(cap, share * 100.0, equity);
      assert share * 100.0 * equity == amount * 100.0;
    }
  }

  lemma PctOrder(p: real, q: real, equity: real)
    requires 0.0 < equity
    ensures p <= q <==> Pct(equity, p) <= Pct(equity, q)
  {
    if p <= q { MulMono(p, q, equity); } else { MulStrict(q, p, equity); }
  }

  lemma Regroup(literal: real, stop: real, multiplier: real, rate: real)
    ensures literal * stop * multiplier * rate == literal * (stop * multiplier * rate)
  {
  }

  /** `contracts` is the greatest count whose whole risk fits what was asked for. */
  ghost predicate Buys(contracts: Contracts, perContract: real, asked: real)
  {
    forall k: int :: 0 < k ==> (k <= contracts <==> k <= U32_MAX && Multiple(k, perContract) <= asked)
  }

  lemma BudgetBuys(budget: real, stop: real, multiplier: real, rate: real)
    requires 0.0 < stop && 0.0 < multiplier && 0.0 < rate
    ensures Buys(ContractsForBudget(budget, stop, multiplier, rate), PerContract(stop, multiplier, rate), budget)
  {
    var perContract := PerContract(stop, multiplier, rate);
    forall k: int | 0 < k
      ensures k <= ContractsForBudget(budget, stop, multiplier, rate) <==> k <= U32_MAX && Multiple(k, perContract) <= budget
    {
      MulPositive(k as real, perContract);
      DivIff(k as real, budget, perContract);
    }
  }

  lemma LiteralBuys(literal: real, perContract: real)
    requires 0.0 < perContract
    ensures Buys(if literal <= 0.0 then 0 else Saturated(literal), perContract, literal * perContract)
  {
    var contracts: Contracts := if literal <= 0.0 then 0 else Saturated(literal);
    forall k: int | 0 < k
      ensures k <= contracts <==> k <= U32_MAX && Multiple(k, perContract) <= literal * perContract
    {
      if k as real <= literal {
        MulMono(k as real, literal, perContract);
      } else {
        MulStrict(literal, k as real, perContract);
      }
    }
  }

  lemma LiteralIsCapped(literal: real, equity: real, cap: real, stop: real, multiplier: real, rate: real)
    requires 0.0 < equity
    ensures SizeEntry(Units(literal), equity, cap, stop, multiplier, rate)
         == if literal * PerContract(stop, multiplier, rate) > Pct(equity, cap) then Unsized(RiskCapExceeded)
            else Sized(if literal <= 0.0 then 0 else Saturated(literal))
  {
    Regroup(literal, stop, multiplier, rate);
    PctIff(literal * PerContract(stop, multiplier, rate), equity, cap);
  }

  /** Sizing refuses an entry exactly when it asks for more than the cap, and otherwise buys the greatest
      count whose risk fits what was asked for, in every risk mode. */
  lemma SizedIff(risk: RiskBudget, equity: real, cap: real, stop: real, multiplier: real, rate: real)
    requires 0.0 < equity && 0.0 < stop && 0.0 < multiplier && 0.0 < rate
    requires risk.Percent? ==> risk.pct <= cap
    ensures var perContract := PerContract(stop, multiplier, rate);
            var asked := Requested(risk, equity, perContract);
            match SizeEntry(risk, equity, cap, stop, multiplier, rate)
            case Unsized(error) => error.RiskCapExceeded? && Pct(equity, cap) < asked
            case Sized(contracts) => asked <= Pct(equity, cap) && Buys(contracts, perContract, asked)
  {
    match risk
    case Percent(pct) =>
      PctOrder(pct, cap, equity);
      BudgetBuys(Pct(equity, pct), stop, multiplier, rate);
    case Amount(amount) =>
      PctIff(amount, equity, cap);
      BudgetBuys(amount, stop, multiplier, rate);
    case Units(literal) =>
      LiteralIsCapped(literal, equity, cap, stop, multiplier, rate);
      LiteralBuys(literal, PerContract(stop, multiplier, rate));
  }

  lemma FittedBelow(contracts: Contracts, limits: SizeLimits)
    requires FitToSizeGrid(contracts, limits).Some?
    ensures FitToSizeGrid(contracts, limits).value <= contracts
  {
    FloorToStep(contracts as real, OrOne(limits.sizeIncrement));
  }

  /** A dry run that places `n` contracts at a positive rate places at least one, and risks no more than
      was asked for and no more than the cap allows, whatever the risk mode and the size grid. */
  lemma PlacementIsCapped(caps: Caps, req: EntryRequest, account: AccountSnapshot)
    requires PlaceEntry(caps, req, Some(account)).Placed? && 0.0 < account.rate
    ensures req.dryRun && req.multiplier.Some?
    ensures var n := PlaceEntry(caps, req, Some(account)).size;
            var perContract := PerContract(Abs(req.reference - req.stopLoss), req.multiplier.value, account.rate);
            && 1 <= n && 0.0 < perContract
            && Multiple(n, perContract) <= Requested(req.risk, account.equity, perContract) <= Pct(account.equity, caps.maxRiskPct)
  {
    var stop := Abs(req.reference - req.stopLoss);
    var sized := SizeEntry(req.risk, account.equity, caps.maxRiskPct, stop, req.multiplier.value, account.rate);
    FittedBelow(sized.contracts, account.limits);
    SizedIff(req.risk, account.equity, caps.maxRiskPct, stop, req.multiplier.value, account.rate);
  }

  predicate Whole(x: real) { x == x.Floor as real }

  ghost predicate OnGrid(n: int, increment: real) { exists k: int :: Multiple(k, increment) == n as real }

  /** A size the exchange takes and the budget covers. */
  ghost predicate Acceptable(k: int, limits: SizeLimits, perContract: real, asked: real)
  {
    && 1 <= k <= U32_MAX
    && OnGrid(k, OrOne(limits.sizeIncrement))
    && OrOne(limits.minSize) <= k as real
    && Multiple(k, perContract) <= asked
  }

  lemma WholeFitted(contracts: Contracts, increment: real)
    requires 0.0 < increment && Whole(increment)
    ensures Whole(Fitted(contracts, increment)) && 0.0 <= Fitted(contracts, increment) <= contracts as real
  {
    FloorToStep(contracts as real, increment);
    var k := (contracts as real / increment).Floor;
    DivIff(0.0, contracts as real, increment);
    MulNonNegative(k as real, increment);
    assert Multiple(k, increment) == (k * increment.Floor) as real;
  }

  /** On a whole grid, fitting finds the greatest grid size not above the count, or nothing when that
      size is below the minimum. */
  lemma FitIsGreatest(contracts: Contracts, limits: SizeLimits)
    requires Whole(OrOne(limits.sizeIncrement))
    ensures FitToSizeGrid(contracts, limits).Some? ==>
      var n := FitToSizeGrid(contracts, limits).value;
      1 <= n <= contracts && OnGrid(n, OrOne(limits.sizeIncrement)) && OrOne(limits.minSize) <= n as real
    ensures forall k: int :: 1 <= k <= contracts && OnGrid(k, OrOne(limits.sizeIncrement)) && OrOne(limits.minSize) <= k as real ==>
      FitToSizeGrid(contracts, limits).Some? && k <= FitToSizeGrid(contracts, limits).value
  {
    var increment := OrOne(limits.sizeIncrement);
    WholeFitted(contracts, increment);
    FloorToStep(contracts as real, increment);
    forall k: int | 1 <= k <= contracts && OnGrid(k, increment) && OrOne(limits.minSize) <= k as real
      ensures FitToSizeGrid(contracts, limits).Some? && k <= FitToSizeGrid(contracts, limits).value
    {
      var j: int :| Multiple(j, increment) == k as real;
      assert Multiple(j, increment) <= Fitted(contracts, increment);
    }
  }

  /** Nothing but the size is left to decide: the entry is armed, the account was read, there is room for
      another position and the stop is away from the entry. */
  predicate Sizeable(caps: Caps, req: EntryRequest, account: AccountSnapshot)
  {
    && req.dryRun
    && req.multiplier.Some? && 0.0 < req.multiplier.value
    && account.openPositions < caps.maxOpenPositions
    && req.reference != req.stopLoss
    && 0.0 < account.equity && 0.0 < account.rate
  }

  lemma FittedIsGreatest(contracts: Contracts, limits: SizeLimits, perContract: real, asked: real)
    requires Buys(contracts, perContract, asked) && Whole(OrOne(limits.sizeIncrement))
    ensures var fitted := FitToSizeGrid(contracts, limits);
            && (fitted.Some? ==> 1 <= fitted.value && Acceptable(fitted.value, limits, perContract, asked))
            && forall k: int :: Acceptable(k, limits, perContract, asked) ==> fitted.Some? && k <= fitted.value
  {
    FitIsGreatest(contracts, limits);
  }

  /** On a whole size grid the outcome is decided by the money alone: refused over the cap, otherwise the
      greatest acceptable size is placed, and refused as too small exactly when no size is acceptable. */
  lemma PlacementIsGreatest(caps: Caps, req: EntryRequest, account: AccountSnapshot)
    requires Sizeable(caps, req, account) && Whole(OrOne(account.limits.sizeIncrement))
    ensures var perContract := PerContract(Abs(req.reference - req.stopLoss), req.multiplier.value, account.rate);
            var asked := Requested(req.risk, account.equity, perContract);
            match PlaceEntry(caps, req, Some(account))
            case Placed(n, _) =>
              && asked <= Pct(account.equity, caps.maxRiskPct)
              && Acceptable(n, account.limits, perContract, asked)
              && forall k: int :: Acceptable(k, account.limits, perContract, asked) ==> k <= n
            case Refused(error) =>
              if asked > Pct(account.equity, caps.maxRiskPct) then error.RiskCapExceeded?
              else error.UnitsBelowMinimum? && forall k: int :: !Acceptable(k, account.limits, perContract, asked)
  {
    var stop := Abs(req.reference - req.stopLoss);
    var perContract := PerContract(stop, req.multiplier.value, account.rate);
    var asked := Requested(req.risk, account.equity, perContract);
    if req.risk.Percent? {
      PctOrder(req.risk.pct, caps.maxRiskPct, account.equity);
    }
    if !(req.risk.Percent? && req.risk.pct > caps.maxRiskPct) {
      SizedIff(req.risk, account.equity, caps.maxRiskPct, stop, req.multiplier.value, account.rate);
      var sized := SizeEntry(req.risk, account.equity, caps.maxRiskPct, stop, req.multiplier.value, account.rate);
      if sized.Sized? {
        FittedIsGreatest(sized.contracts, account.limits, perContract, asked);
      }
    }
  }

  /** Whatever the count and the minimum, a fitted size is on the grid and not below the minimum. */
  ghost predicate GridKept(increment: real)
  {
    forall contracts: Contracts, minimum: real ::
      var r := FitToSizeGrid(contracts, SizeLimits(minimum, increment));
      r.Some? ==> OnGrid(r.value, increment) && OrOne(minimum) <= r.value as real
  }

  lemma UnitFractionFitted(contracts: Contracts, increment: real)
    requires 0.0 < increment && Whole(1.0 / increment)
    ensures Fitted(contracts, increment) == contracts as real
  {
    var q := (1.0 / increment).Floor;
    assert q as real * increment == 1.0;
    assert contracts as real / increment == (contracts * q) as real by {
      assert (contracts * q) as real * increment == contracts as real * (q as real * increment);
    }
    assert Multiple(contracts * q, increment) == contracts as real * (q as real * increment);
  }

  /** A single contract is fitted to less than one. */
  lemma SmallIncrement(increment: real)
    requires 0.0 < increment < 1.0 && !Whole(1.0 / increment)
    ensures 0.0 < Fitted(1, increment) < 1.0
  {
    var q := (1.0 / increment).Floor;
    DivIff(1.0, 1.0, increment);
    MulPositive(q as real, increment);
    assert 1.0 / increment * increment == 1.0;
    MulStrict(q as real, 1.0 / increment, increment);
  }

  /** The next whole count above a large increment is fitted to one step. */
  lemma LargeIncrement(increment: real)
    requires 1.0 < increment < U32_MAX as real && !Whole(increment)
    ensures Fitted(increment.Floor + 1, increment) == increment
  {
    var contracts := (increment.Floor + 1) as real;
    DivIff(1.0, contracts, increment);
    DivIff(2.0, contracts, increment);
    assert (contracts / increment).Floor == 1;
  }

  lemma OtherIncrementsLoseTheGrid(increment: real)
    requires 0.0 < increment < U32_MAX as real && !Whole(increment) && !Whole(1.0 / increment)
    ensures !GridKept(increment)
  {
    if increment < 1.0 {
      SmallIncrement(increment);
      var fitted := Fitted(1, increment);
      assert FitToSizeGrid(1, SizeLimits(fitted, increment)) == Some(0);
    } else {
      LargeIncrement(increment);
      assert FitToSizeGrid(increment.Floor + 1, SizeLimits(increment, increment)) == Some(increment.Floor);
    }
  }

  /** Cutting a fitted size to whole contracts keeps the exchange's grid and minimum exactly when the
      increment is a whole number of contracts or a whole fraction of one. */
  lemma GridKeptIff(increment: real)
    requires 0.0 < increment < U32_MAX as real
    ensures GridKept(increment) <==> Whole(increment) || Whole(1.0 / increment)
  {
    if Whole(increment) || Whole(1.0 / increment) {
      forall contracts: Contracts, minimum: real | FitToSizeGrid(contracts, SizeLimits(minimum, increment)).Some?
        ensures var r := FitToSizeGrid(contracts, SizeLimits(minimum, increment));
                OnGrid(r.value, increment) && OrOne(minimum) <= r.value as real
      {
        if Whole(increment) {
          WholeFitted(contracts, increment);
        } else {
          UnitFractionFitted(contracts, increment);
        }
        assert Multiple((contracts as real / increment).Floor, increment) == Fitted(contracts, increment);
      }
    } else {
      OtherIncrementsLoseTheGrid(increment);
    }
  }

  /** An exchange that trades steps of one and a half contracts is sent one. */
  lemma HalfStepsGoBelowTheMinimum()
    ensures FitToSizeGrid(2, SizeLimits(1.5, 1.5)) == Some(1)
  {
    assert (2.0 / 1.5).Floor == 1;
  }

  /** The cap can refuse a literal size only at a positive rate; the other two modes buy nothing then. */
  lemma LiteralSizesNeedARate(equity: real, cap: real, stop: real, multiplier: real, rate: real)
    requires 0.0 < equity && 0.0 <= cap && 0.0 < stop && 0.0 < multiplier
    ensures (exists literal :: 0.0 < literal && SizeEntry(Units(literal), equity, cap, stop, multiplier, rate).Unsized?) <==> 0.0 < rate
    ensures rate <= 0.0 ==> forall risk: RiskBudget :: !risk.Units? ==>
      SizeEntry(risk, equity, cap, stop, multiplier, rate) in {Sized(0), Unsized(RiskCapExceeded)}
  {
    if 0.0 < rate {
      var perContract := PerContract(stop, multiplier, rate);
      var literal := Pct(equity, cap + 1.0) / perContract;
      MulPositive(equity, cap + 1.0);
      DivIff(0.0, Pct(equity, cap + 1.0), perContract);
      assert literal * perContract == Pct(equity, cap + 1.0);
      PctOrder(cap + 1.0, cap, equity);
      LiteralIsCapped(literal, equity, cap, stop, multiplier, rate);
    } else {
      forall literal | 0.0 < literal
        ensures SizeEntry(Units(literal), equity, cap, stop, multiplier, rate).Sized?
      {
        MulPositive(literal, stop);
        MulPositive(literal * stop, multiplier);
        MulMono(rate, 0.0, literal * stop * multiplier);
        PctIff(literal * stop * multiplier * rate, equity, cap);
        MulNonNegative(equity, cap);
      }
    }
  }

  // ----- What a placement answers -----

  /** The answers given before anything is sized, each by the first condition that fails. */
  lemma EarlyAnswers(caps: Caps, req: EntryRequest, account: Option<AccountSnapshot>)
    ensures var r := PlaceEntry(caps, req, account);
      var armed := req.multiplier.Some? && 0.0 < req.multiplier.value;
      var within := req.risk.Percent? ==> req.risk.pct <= caps.maxRiskPct;
      var roomy := armed && within && account.Some? && account.value.openPositions < caps.maxOpenPositions;
      && (r == Refused(ContractSizeUnavailable) <==> !armed)
      && (armed && !within ==> r == Refused(RiskCapExceeded))
      && (r == Refused(AccountFetch) <==> armed && within && account.None?)
      && (r == Refused(OpenPositionsCapExceeded) <==> armed && within && account.Some? && caps.maxOpenPositions <= account.value.openPositions)
      && (roomy && req.reference == req.stopLoss ==> r == Refused(OrderRejected))
      && (r == Refused(EquityParse) <==> roomy && req.reference != req.stopLoss && account.value.equity <= 0.0)
      && (r.Placed? ==> req.dryRun && r.price == req.reference)
  {
  }

  /** A live order is refused where a dry run would place it, and only there. */
  lemma LiveOrdersAreRefused(caps: Caps, req: EntryRequest, account: Option<AccountSnapshot>)
    ensures var dry, sent := PlaceEntry(caps, req.(dryRun := true), account), PlaceEntry(caps, req.(dryRun := false), account);
      sent == if dry.Placed? then Refused(OrderRejected) else dry
  {
  }

  /** On any grid: the greatest multiple of the increment not above the count is taken, refused below the minimum,
      and cut to whole contracts. Unusable increments and minimums read as one. */
  lemma FitTakesTheMultiple(contracts: Contracts, limits: SizeLimits, k: int)
    requires var increment := if 0.0 < limits.sizeIncrement then limits.sizeIncrement else 1.0;
      Multiple(k, increment) <= contracts as real < Multiple(k + 1, increment)
    ensures var increment := if 0.0 < limits.sizeIncrement then limits.sizeIncrement else 1.0;
      var minimum := if 0.0 < limits.minSize then limits.minSize else 1.0;
      FitToSizeGrid(contracts, limits) ==
        if contracts == 0 || Multiple(k, increment) < minimum then None
        else Some(Multiple(k, increment).Floor)
  {
    var increment := OrOne(limits.sizeIncrement);
    DivIff(k as real, contracts as real, increment);
    DivIff((k + 1) as real, contracts as real, increment);
    assert (contracts as real / increment).Floor == k;
  }
}
