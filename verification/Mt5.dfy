/** MT5 closure evidence: the single-order attempt and the settlement must tell the same story
    (broker-mt5/src/history.rs). Amounts are exact; tickets arrive already parsed. */
module Mt5 {
  import opened Outcomes

  datatype Deal = Deal(
    ticket: nat, order: nat, position: nat, symbol: string, entry: nat, dealType: nat,
    volumeRaw: nat, price: real, profit: real, commission: real, fee: real, swap: real, createdAt: int)
  {
    function Net(): real { profit + commission + fee + swap }

    /** A buy or sell that opens (part of) a position. */
    predicate Opens() { entry == 0 && dealType <= 1 }

    predicate Closes() { (entry == 1 || entry == 3) && dealType <= 1 }
  }

  datatype Order = Order(ticket: nat, symbol: string, state: nat)

  datatype Position = Position(ticket: nat, symbol: string)

  datatype Trades = Trades(orders: seq<Order>, positions: seq<Position>)

  datatype History = History(orders: seq<Order>, deals: seq<Deal>)

  datatype AttemptState =
    | Unknown
    | Pending
    | OpenPosition(brokerTradeId: nat)
    | ClosedWin(realizedPl: real)
    | ClosedLossOrBreakeven(realizedPl: real)
    | Cancelled
  {
    predicate Closed() { ClosedWin? || ClosedLossOrBreakeven? }
  }

  // ----- Sequences of deals -----

  function Filter<T>(s: seq<T>, p: T -> bool): seq<T>
  {
    if s == [] then [] else (if p(s[0]) then [s[0]] else []) + Filter(s[1..], p)
  }

  function Sum<T>(s: seq<T>, f: T -> real): real
  {
    if s == [] then 0.0 else f(s[0]) + Sum(s[1..], f)
  }

  function Volume(rows: seq<Deal>, p: Deal -> bool): nat
  {
    if rows == [] then 0 else (if p(rows[0]) then rows[0].volumeRaw else 0) + Volume(rows[1..], p)
  }

  function TotalNet(rows: seq<Deal>): real { Sum(rows, (d: Deal) => d.Net()) }

  function FirstOpening(deals: seq<Deal>, order: nat, symbol: string): Option<nat>
  {
    if deals == [] then None
    else if deals[0].order == order && deals[0].symbol == symbol && deals[0].Opens() then Some(deals[0].position)
    else FirstOpening(deals[1..], order, symbol)
  }

  /** Opened volume is positive and matched by closed volume; in-out reversals are never attributed. */
  predicate FullyClosed(rows: seq<Deal>)
  {
    && (forall d | d in rows :: d.entry != 2)
    && var opened_ := Volume(rows, (d: Deal) => d.Opens());
       0 < opened_ && opened_ == Volume(rows, (d: Deal) => d.Closes())
  }

  function RowsOf(deals: seq<Deal>, symbol: string, id: nat): seq<Deal>
  {
    Filter(deals, (d: Deal) => d.position == id && d.symbol == symbol)
  }

  /** The position an attempt looks at: the caller's hint, else the order's first opening deal. */
  function AttemptPosition(symbol: string, order: nat, hint: Option<nat>, history: History): Option<nat>
  {
    if hint.Some? then hint else FirstOpening(history.deals, order, symbol)
  }

  function Attempt(symbol: string, order: Option<nat>, hint: Option<nat>, live: Trades, history: History): AttemptState
  {
    if order.None? then Unknown
    else if exists o | o in live.orders :: o.ticket == order.value && o.symbol == symbol then Pending
    else
      var position := AttemptPosition(symbol, order.value, hint, history);
      if position.Some? && exists p | p in live.positions :: p.ticket == position.value && p.symbol == symbol
      then OpenPosition(position.value)
      else if position.Some? && FullyClosed(RowsOf(history.deals, symbol, position.value)) then
        var pnl := TotalNet(RowsOf(history.deals, symbol, position.value));
        if 0.0 < pnl then ClosedWin(pnl) else ClosedLossOrBreakeven(pnl)
      else if exists o | o in history.orders :: o.ticket == order.value && o.symbol == symbol && o.state in {2, 5, 6}
      then Cancelled
      else Unknown
  }

  // ----- Settlement -----

  datatype SettledTrade = SettledTrade(brokerTradeId: nat, realizedPl: Option<real>, closedAt: Option<int>, financing: real)

  datatype LedgerEntry = LedgerEntry(reference: nat, position: nat, amount: real)

  datatype Settlement = Settlement(trades: seq<SettledTrade>, ledger: seq<LedgerEntry>, warned: bool)

  /** Insertion into an ascending set of tickets. */
  function Include(ids: seq<nat>, id: nat): seq<nat>
  {
    if ids == [] || id < ids[0] then [id] + ids
    else if id == ids[0] then ids
    else [ids[0]] + Include(ids[1..], id)
  }

  /** The positions that any of the orders opened, in ascending order. */
  function OpenedPositions(deals: seq<Deal>, symbol: string, orders: set<nat>): seq<nat>
  {
    if deals == [] then []
    else
      var rest := OpenedPositions(deals[1..], symbol, orders);
      if deals[0].order in orders && deals[0].symbol == symbol && deals[0].Opens()
      then Include(rest, deals[0].position) else rest
  }

  predicate IsOpen(live: Trades, id: nat) { exists p | p in live.positions :: p.ticket == id }

  function Latest(rows: seq<Deal>): Option<int>
  {
    if rows == [] then None
    else
      var rest := Latest(rows[1..]);
      if rest.Some? && rows[0].createdAt <= rest.value then rest else Some(rows[0].createdAt)
  }

  function Settle(id: nat, rows: seq<Deal>, live: Trades): SettledTrade
  {
    var deals := Filter(rows, Is(id));
    var closed := FullyClosed(deals) && !IsOpen(live, id);
    SettledTrade(id, if closed then Some(TotalNet(deals)) else None,
                 if closed then Latest(deals) else None, Sum(deals, (d: Deal) => d.swap))
  }

  function SettleAll(ids: seq<nat>, rows: seq<Deal>, live: Trades): (trades: seq<SettledTrade>)
    ensures |trades| == |ids| && forall i | 0 <= i < |ids| :: trades[i] == Settle(ids[i], rows, live)
  {
    if ids == [] then [] else [Settle(ids[0], rows, live)] + SettleAll(ids[1..], rows, live)
  }

  function Entries(rows: seq<Deal>): (ledger: seq<LedgerEntry>)
    ensures |ledger| == |rows|
    ensures forall i | 0 <= i < |rows| :: ledger[i] == LedgerEntry(rows[i].ticket, rows[i].position, rows[i].Net())
  {
    if rows == [] then [] else [LedgerEntry(rows[0].ticket, rows[0].position, rows[0].Net())] + Entries(rows[1..])
  }

  function SettlementRows(deals: seq<Deal>, symbol: string, ids: seq<nat>): seq<Deal>
  {
    Filter(deals, (d: Deal) => d.position in ids && d.symbol == symbol)
  }

  function SettlementOf(symbol: string, orders: set<nat>, live: Trades, history: History): Settlement
  {
    var ids := OpenedPositions(history.deals, symbol, orders);
    var rows := SettlementRows(history.deals, symbol, ids);
    Settlement(SettleAll(ids, rows, live), Entries(rows), ids == [])
  }

  // ----- Agreement -----

  lemma {:induction false} FilterTwice<T>(s: seq<T>, p: T -> bool, q: T -> bool, both: T -> bool)
    requires forall x | x in s :: both(x) <==> p(x) && q(x)
    ensures Filter(Filter(s, p), q) == Filter(s, both)
  {
    if s != [] {
      assert s == [s[0]] + s[1..];
      FilterTwice(s[1..], p, q, both);
      var rest := Filter(s[1..], p);
      assert [] + rest == rest && ([s[0]] + rest)[1..] == rest;
    }
  }

  predicate Rising(ids: seq<nat>) { forall i, j | 0 <= i < j < |ids| :: ids[i] < ids[j] }

  lemma {:induction false} IncludeMeaning(ids: seq<nat>, id: nat)
    requires Rising(ids)
    ensures forall k :: k in Include(ids, id) <==> k in ids || k == id
    ensures Rising(Include(ids, id))
  {
    if ids != [] {
      assert ids == [ids[0]] + ids[1..];
      if ids[0] < id {
        IncludeMeaning(ids[1..], id);
        var more := Include(ids[1..], id);
        forall j | 0 <= j < |more| ensures ids[0] < more[j] { assert more[j] in more; }
      }
    }
  }

  predicate OpenedBy(deals: seq<Deal>, symbol: string, orders: set<nat>, id: nat)
  {
    exists d | d in deals :: d.order in orders && d.symbol == symbol && d.Opens() && d.position == id
  }

  lemma {:induction false} OpenedPositionsMeaning(deals: seq<Deal>, symbol: string, orders: set<nat>)
    ensures forall id :: id in OpenedPositions(deals, symbol, orders) <==> OpenedBy(deals, symbol, orders, id)
    ensures Rising(OpenedPositions(deals, symbol, orders))
  {
    if deals != [] {
      assert deals == [deals[0]] + deals[1..];
      OpenedPositionsMeaning(deals[1..], symbol, orders);
      IncludeMeaning(OpenedPositions(deals[1..], symbol, orders), deals[0].position);
      forall id ensures OpenedBy(deals, symbol, orders, id) <==>
        OpenedBy(deals[1..], symbol, orders, id)
        || (deals[0].order in orders && deals[0].symbol == symbol && deals[0].Opens() && deals[0].position == id)
      {
        if OpenedBy(deals[1..], symbol, orders, id) {
          var d :| d in deals[1..] && d.order in orders && d.symbol == symbol && d.Opens() && d.position == id;
          assert d in deals;
        }
      }
    }
  }

  lemma {:induction false} FirstOpeningIsOpened(deals: seq<Deal>, order: nat, symbol: string, orders: set<nat>)
    requires FirstOpening(deals, order, symbol).Some? && order in orders
    ensures OpenedBy(deals, symbol, orders, FirstOpening(deals, order, symbol).value)
  {
    if deals[0].order == order && deals[0].symbol == symbol && deals[0].Opens() {
      assert deals[0] in deals;
    } else {
      FirstOpeningIsOpened(deals[1..], order, symbol, orders);
      var id := FirstOpening(deals, order, symbol).value;
      var d :| d in deals[1..] && d.order in orders && d.symbol == symbol && d.Opens() && d.position == id;
      assert d in deals;
    }
  }

  /** Settling a position the orders opened sees exactly the rows the attempt sees. */
  lemma SettlesSameRows(symbol: string, ids: seq<nat>, live: Trades, history: History, id: nat)
    requires id in ids
    ensures var rows := RowsOf(history.deals, symbol, id);
      Settle(id, SettlementRows(history.deals, symbol, ids), live).realizedPl ==
      if FullyClosed(rows) && !IsOpen(live, id) then Some(TotalNet(rows)) else None
  {
    FilterTwice(history.deals, (d: Deal) => d.position in ids && d.symbol == symbol, Is(id),
                (d: Deal) => d.position == id && d.symbol == symbol);
  }

  predicate Reports(s: Settlement, id: nat, pnl: real)
  {
    exists t | t in s.trades :: t.brokerTradeId == id && t.realizedPl == Some(pnl)
  }

  /** When an attempt calls a position closed at a result, the settlement of that order reports the same
      trade closed at the same result exactly when the position is one the orders opened and no live
      position of any symbol carries its ticket. */
  lemma SettlementAgrees(symbol: string, order: nat, hint: Option<nat>, orders: set<nat>, live: Trades, history: History)
    requires Attempt(symbol, Some(order), hint, live, history).Closed()
    ensures AttemptPosition(symbol, order, hint, history).Some?
    ensures var id, pnl := AttemptPosition(symbol, order, hint, history).value, Attempt(symbol, Some(order), hint, live, history).realizedPl;
      Reports(SettlementOf(symbol, orders, live, history), id, pnl)
      <==> OpenedBy(history.deals, symbol, orders, id) && !IsOpen(live, id)
  {
    var id, pnl := AttemptPosition(symbol, order, hint, history).value, Attempt(symbol, Some(order), hint, live, history).realizedPl;
    OpenedPositionsMeaning(history.deals, symbol, orders);
    ReportsIff(symbol, OpenedPositions(history.deals, symbol, orders), live, history, id, pnl);
  }

  lemma ReportsIff(symbol: string, ids: seq<nat>, live: Trades, history: History, id: nat, pnl: real)
    requires FullyClosed(RowsOf(history.deals, symbol, id)) && pnl == TotalNet(RowsOf(history.deals, symbol, id))
    ensures var trades := SettleAll(ids, SettlementRows(history.deals, symbol, ids), live);
      (exists t | t in trades :: t.brokerTradeId == id && t.realizedPl == Some(pnl)) <==> id in ids && !IsOpen(live, id)
  {
    var trades := SettleAll(ids, SettlementRows(history.deals, symbol, ids), live);
    if id in ids {
      SettlesSameRows(symbol, ids, live, history, id);
      var i :| 0 <= i < |ids| && ids[i] == id;
      assert trades[i] in trades;
    }
  }

  /** Without a hint, and with tickets unique across symbols, they always agree. */
  lemma UnhintedAttemptsAgree(symbol: string, order: nat, orders: set<nat>, live: Trades, history: History)
    requires Attempt(symbol, Some(order), None, live, history).Closed() && order in orders
    requires forall p, d | p in live.positions && d in history.deals && p.ticket == d.position :: p.symbol == d.symbol
    ensures Reports(SettlementOf(symbol, orders, live, history), FirstOpening(history.deals, order, symbol).value,
                    Attempt(symbol, Some(order), None, live, history).realizedPl)
  {
    SettlementAgrees(symbol, order, None, orders, live, history);
    FirstOpeningIsOpened(history.deals, order, symbol, orders);
  }

  /** Position 7 of the lemmas below: opened by order 2, closed by order 3 at a profit of 10. */
  const OPENING: Deal := Deal(1, 2, 7, "EURUSD", 0, 0, 100, 1.0, 0.0, 0.0, 0.0, 0.0, 1)
  const CLOSING: Deal := Deal(2, 3, 7, "EURUSD", 1, 1, 100, 1.1, 10.0, 0.0, 0.0, 0.0, 2)

  lemma RoundTripRows()
    ensures RowsOf([OPENING, CLOSING], "EURUSD", 7) == [OPENING, CLOSING]
  {
    FilterAll([OPENING, CLOSING], (d: Deal) => d.position == 7 && d.symbol == "EURUSD");
  }

  lemma RoundTripCloses()
    ensures FullyClosed([OPENING, CLOSING])
  {
    assert [OPENING, CLOSING][1..] == [CLOSING];
    assert Volume([CLOSING], (d: Deal) => d.Opens()) == 0 && Volume([CLOSING], (d: Deal) => d.Closes()) == 100;
  }

  lemma RoundTripEarns()
    ensures TotalNet([OPENING, CLOSING]) == 10.0
  {
    SumPrepend(OPENING, [CLOSING]);
    SumPrepend(CLOSING, []);
    assert [OPENING] + [CLOSING] == [OPENING, CLOSING] && [CLOSING] + [] == [CLOSING];
  }

  lemma OrderOneOpenedNothing()
    ensures OpenedPositions([OPENING, CLOSING], "EURUSD", {1}) == []
  {
    assert [OPENING, CLOSING][1..] == [CLOSING];
    assert OpenedPositions([CLOSING], "EURUSD", {1}) == [];
  }

  /** An attempt at order 1 that is told it opened position 7 reports that position's result, and the
      settlement of order 1 reports no trade at all. */
  lemma HintedAttemptCanDisagree()
    ensures var live, history := Trades([], []), History([], [OPENING, CLOSING]);
      && Attempt("EURUSD", Some(1), Some(7), live, history) == ClosedWin(10.0)
      && SettlementOf("EURUSD", {1}, live, history).trades == []
  {
    RoundTripRows();
    RoundTripCloses();
    RoundTripEarns();
    OrderOneOpenedNothing();
  }

  // ----- Conservation -----

  function Realized(trades: seq<SettledTrade>): real
  {
    Sum(trades, (t: SettledTrade) => if t.realizedPl.Some? then t.realizedPl.value else 0.0)
  }

  function In(ids: seq<nat>): Deal -> bool { (d: Deal) => d.position in ids }

  function Is(id: nat): Deal -> bool { (d: Deal) => d.position == id }

  lemma {:induction false} SplitById(rows: seq<Deal>, id: nat, ids: seq<nat>)
    requires id !in ids
    ensures TotalNet(Filter(rows, In([id] + ids))) == TotalNet(Filter(rows, Is(id))) + TotalNet(Filter(rows, In(ids)))
  {
    if rows != [] {
      var d, rest := rows[0], rows[1..];
      SplitById(rest, id, ids);
      FilterTotal(rows, In([id] + ids));
      FilterTotal(rows, Is(id));
      FilterTotal(rows, In(ids));
    }
  }

  lemma FilterTotal(rows: seq<Deal>, p: Deal -> bool)
    requires rows != []
    ensures TotalNet(Filter(rows, p)) == (if p(rows[0]) then rows[0].Net() else 0.0) + TotalNet(Filter(rows[1..], p))
  {
    var rest := Filter(rows[1..], p);
    assert [] + rest == rest;
    SumPrepend(rows[0], rest);
  }

  lemma SumPrepend(d: Deal, rows: seq<Deal>)
    ensures TotalNet([d] + rows) == d.Net() + TotalNet(rows)
  {
    assert ([d] + rows)[1..] == rows;
  }

  lemma {:induction false} RealizedIsPartition(ids: seq<nat>, rows: seq<Deal>, live: Trades)
    requires Rising(ids)
    requires forall i | 0 <= i < |ids| :: Settle(ids[i], rows, live).realizedPl.Some?
    ensures Realized(SettleAll(ids, rows, live)) == TotalNet(Filter(rows, In(ids)))
  {
    if ids == [] {
      NoneSelected(rows);
    } else {
      RealizedIsPartition(ids[1..], rows, live);
      assert [ids[0]] + ids[1..] == ids;
      SplitById(rows, ids[0], ids[1..]);
      RealizedStep(ids, rows, live);
    }
  }

  lemma RealizedStep(ids: seq<nat>, rows: seq<Deal>, live: Trades)
    requires ids != [] && Settle(ids[0], rows, live).realizedPl.Some?
    ensures Realized(SettleAll(ids, rows, live)) == TotalNet(Filter(rows, Is(ids[0]))) + Realized(SettleAll(ids[1..], rows, live))
  {
    assert SettleAll(ids, rows, live)[1..] == SettleAll(ids[1..], rows, live);
  }

  lemma {:induction false} NoneSelected(rows: seq<Deal>)
    ensures Filter(rows, In([])) == []
  {
    if rows != [] { NoneSelected(rows[1..]); }
  }

  lemma {:induction false} FilterAll<T>(s: seq<T>, p: T -> bool)
    requires forall x | x in s :: p(x)
    ensures Filter(s, p) == s
  {
    if s != [] {
      assert s == [s[0]] + s[1..];
      FilterAll(s[1..], p);
    }
  }

  lemma {:induction false} FilterSatisfies<T>(s: seq<T>, p: T -> bool)
    ensures forall x | x in Filter(s, p) :: p(x)
  {
    if s != [] { FilterSatisfies(s[1..], p); }
  }

  lemma {:induction false} EntriesTotal(rows: seq<Deal>)
    ensures Sum(Entries(rows), (e: LedgerEntry) => e.amount) == TotalNet(rows)
  {
    if rows != [] {
      assert Entries(rows)[1..] == Entries(rows[1..]);
      EntriesTotal(rows[1..]);
    }
  }

  /** With every position closed, the realized results add up to the ledger's amounts. */
  lemma SettlementConserves(symbol: string, orders: set<nat>, live: Trades, history: History)
    requires forall t | t in SettlementOf(symbol, orders, live, history).trades :: t.realizedPl.Some?
    ensures var s := SettlementOf(symbol, orders, live, history);
      Realized(s.trades) == Sum(s.ledger, (e: LedgerEntry) => e.amount)
  {
    var ids := OpenedPositions(history.deals, symbol, orders);
    var rows := SettlementRows(history.deals, symbol, ids);
    OpenedPositionsMeaning(history.deals, symbol, orders);
    forall i | 0 <= i < |ids| ensures Settle(ids[i], rows, live).realizedPl.Some? {
      assert SettleAll(ids, rows, live)[i] in SettleAll(ids, rows, live);
    }
    RealizedIsPartition(ids, rows, live);
    FilterSatisfies(history.deals, (d: Deal) => d.position in ids && d.symbol == symbol);
    FilterAll(rows, In(ids));
    EntriesTotal(rows);
  }

  predicate OnlyTrade(trades: seq<SettledTrade>, i: nat, id: nat)
  {
    i < |trades| && trades[i].brokerTradeId == id
    && forall j | 0 <= j < |trades| && trades[j].brokerTradeId == id :: j == i
  }

  /** Each ledger row belongs to exactly one trade. */
  lemma RowBelongsToOneTrade(symbol: string, orders: set<nat>, live: Trades, history: History,
                             e: LedgerEntry) returns (i: nat)
    requires e in SettlementOf(symbol, orders, live, history).ledger
    ensures OnlyTrade(SettlementOf(symbol, orders, live, history).trades, i, e.position)
  {
    var ids := OpenedPositions(history.deals, symbol, orders);
    var rows := SettlementRows(history.deals, symbol, ids);
    OpenedPositionsMeaning(history.deals, symbol, orders);
    FilterSatisfies(history.deals, (d: Deal) => d.position in ids && d.symbol == symbol);
    var k :| 0 <= k < |rows| && Entries(rows)[k] == e;
    assert rows[k] in rows;
    i :| 0 <= i < |ids| && ids[i] == e.position;
    IdsIdentifyTrades(ids, rows, live, i);
  }

  lemma IdsIdentifyTrades(ids: seq<nat>, rows: seq<Deal>, live: Trades, i: nat)
    requires Rising(ids) && i < |ids|
    ensures OnlyTrade(SettleAll(ids, rows, live), i, ids[i])
  {
  }

  // ----- What a row, a position and an attempt are -----

  /** Each of a row's four amounts counts in full towards its result. */
  lemma NetCountsEverything(d: Deal, x: real)
    ensures d.(profit := 0.0, commission := 0.0, fee := 0.0, swap := 0.0).Net() == 0.0
    ensures d.(profit := d.profit + x).Net() == d.Net() + x && d.(commission := d.commission + x).Net() == d.Net() + x
    ensures d.(fee := d.fee + x).Net() == d.Net() + x && d.(swap := d.swap + x).Net() == d.Net() + x
  {
  }

  /** A buy or sell that opens, and one that closes, by or against an opposite position included. */
  predicate Opening(d: Deal) { d.entry == 0 && (d.dealType == 0 || d.dealType == 1) }

  predicate Closing(d: Deal) { (d.entry == 1 || d.entry == 3) && (d.dealType == 0 || d.dealType == 1) }

  function OpeningVolume(rows: seq<Deal>): nat
  {
    if rows == [] then 0 else OpeningVolume(rows[1..]) + if Opening(rows[0]) then rows[0].volumeRaw else 0
  }

  function ClosingVolume(rows: seq<Deal>): nat
  {
    if rows == [] then 0 else ClosingVolume(rows[1..]) + if Closing(rows[0]) then rows[0].volumeRaw else 0
  }

  lemma {:induction false} VolumesAre(rows: seq<Deal>)
    ensures Volume(rows, (d: Deal) => d.Opens()) == OpeningVolume(rows)
    ensures Volume(rows, (d: Deal) => d.Closes()) == ClosingVolume(rows)
  {
    if rows != [] { VolumesAre(rows[1..]); }
  }

  /** A position is closed exactly when no row reverses it and it opened some volume and closed just that. */
  lemma FullyClosedIff(rows: seq<Deal>)
    ensures FullyClosed(rows) <==>
      (forall i | 0 <= i < |rows| :: rows[i].entry != 2) && 0 < OpeningVolume(rows) && OpeningVolume(rows) == ClosingVolume(rows)
  {
    VolumesAre(rows);
    assert forall i | 0 <= i < |rows| :: rows[i] in rows;
  }

  /** A live order still stands for the attempt. */
  ghost predicate Standing(orders: seq<Order>, symbol: string, order: nat)
  {
    exists i :: 0 <= i < |orders| && orders[i].ticket == order && orders[i].symbol == symbol
  }

  ghost predicate Held(positions: seq<Position>, symbol: string, id: nat)
  {
    exists i :: 0 <= i < |positions| && positions[i].ticket == id && positions[i].symbol == symbol
  }

  /** The order's record says cancelled, rejected or expired. */
  ghost predicate Withdrawn(orders: seq<Order>, symbol: string, order: nat)
  {
    exists i :: 0 <= i < |orders| && orders[i].ticket == order && orders[i].symbol == symbol
                && (orders[i].state == 2 || orders[i].state == 5 || orders[i].state == 6)
  }

  lemma MembersByIndex(live: Trades, history: History, symbol: string, ticket: nat)
    ensures Standing(live.orders, symbol, ticket) <==> exists o | o in live.orders :: o.ticket == ticket && o.symbol == symbol
    ensures Held(live.positions, symbol, ticket) <==> exists p | p in live.positions :: p.ticket == ticket && p.symbol == symbol
    ensures Withdrawn(history.orders, symbol, ticket) <==>
      exists o | o in history.orders :: o.ticket == ticket && o.symbol == symbol && o.state in {2, 5, 6}
  {
    if o :| o in live.orders && o.ticket == ticket && o.symbol == symbol { assert exists i :: 0 <= i < |live.orders| && live.orders[i] == o; }
    if p :| p in live.positions && p.ticket == ticket && p.symbol == symbol { assert exists i :: 0 <= i < |live.positions| && live.positions[i] == p; }
    if o :| o in history.orders && o.ticket == ticket && o.symbol == symbol && o.state in {2, 5, 6} {
      assert exists i :: 0 <= i < |history.orders| && history.orders[i] == o;
    }
  }

  /** What an attempt answers: a standing order first, then a held position, then a closed one with the sum of
      its rows, a win only above zero, then a withdrawn order; otherwise nothing is known. */
  lemma AttemptAnswers(symbol: string, order: nat, hint: Option<nat>, live: Trades, history: History)
    ensures var r, position := Attempt(symbol, Some(order), hint, live, history), AttemptPosition(symbol, order, hint, history);
      var standing := Standing(live.orders, symbol, order);
      var held := position.Some? && Held(live.positions, symbol, position.value);
      var closed := position.Some? && FullyClosed(RowsOf(history.deals, symbol, position.value));
      && (r.Pending? <==> standing)
      && (r.OpenPosition? <==> !standing && held)
      && (r.OpenPosition? ==> Some(r.brokerTradeId) == position)
      && (r.ClosedWin? || r.ClosedLossOrBreakeven? <==> !standing && !held && closed)
      && (r.Closed() ==> r.realizedPl == TotalNet(RowsOf(history.deals, symbol, position.value)) && (r.ClosedWin? <==> 0.0 < r.realizedPl))
      && (r.Cancelled? <==> !standing && !held && !closed && Withdrawn(history.orders, symbol, order))
      && (r.Unknown? <==> !standing && !held && !closed && !Withdrawn(history.orders, symbol, order))
    ensures Attempt(symbol, None, hint, live, history).Unknown?
  {
    var position := AttemptPosition(symbol, order, hint, history);
    MembersByIndex(live, history, symbol, order);
    if position.Some? { MembersByIndex(live, history, symbol, position.value); }
  }

  /** The order's own position is that of its first opening row. */
  lemma {:induction false} FirstOpeningIsFirst(deals: seq<Deal>, order: nat, symbol: string)
    ensures FirstOpening(deals, order, symbol).None? ==>
      forall i | 0 <= i < |deals| :: !(deals[i].order == order && deals[i].symbol == symbol && Opening(deals[i]))
    ensures FirstOpening(deals, order, symbol).Some? ==>
      exists i :: 0 <= i < |deals| && deals[i].order == order && deals[i].symbol == symbol && Opening(deals[i])
                  && deals[i].position == FirstOpening(deals, order, symbol).value
                  && forall j | 0 <= j < i :: !(deals[j].order == order && deals[j].symbol == symbol && Opening(deals[j]))
  {
    if deals != [] {
      if !(deals[0].order == order && deals[0].symbol == symbol && deals[0].Opens()) {
        var rest := deals[1..];
        FirstOpeningIsFirst(rest, order, symbol);
        assert forall i | 0 < i < |deals| :: deals[i] == rest[i - 1];
        if FirstOpening(rest, order, symbol).Some? {
          var i :| 0 <= i < |rest| && rest[i].order == order && rest[i].symbol == symbol && Opening(rest[i])
                   && rest[i].position == FirstOpening(rest, order, symbol).value
                   && forall j | 0 <= j < i :: !(rest[j].order == order && rest[j].symbol == symbol && Opening(rest[j]));
          assert deals[i + 1] == rest[i];
        }
      }
    }
  }

  // ----- What a settlement lists -----

  lemma {:induction false} FilterMembers<T>(s: seq<T>, p: T -> bool)
    ensures forall x :: x in Filter(s, p) <==> x in s && p(x)
  {
    if s != [] {
      assert s == [s[0]] + s[1..];
      FilterMembers(s[1..], p);
    }
  }

  lemma TicketsOf(ids: seq<nat>, trades: seq<SettledTrade>)
    requires |trades| == |ids| && forall i | 0 <= i < |ids| :: trades[i].brokerTradeId == ids[i]
    ensures forall id: nat :: (exists i :: 0 <= i < |trades| && trades[i].brokerTradeId == id) <==> id in ids
    ensures Rising(ids) ==> forall i, j | 0 <= i < j < |trades| :: trades[i].brokerTradeId < trades[j].brokerTradeId
  {
    forall id: nat | id in ids ensures exists i :: 0 <= i < |trades| && trades[i].brokerTradeId == id {
      var i :| 0 <= i < |ids| && ids[i] == id;
      assert trades[i].brokerTradeId == id;
    }
  }

  lemma RowIsEntered(deals: seq<Deal>, symbol: string, ids: seq<nat>, d: Deal)
    requires d in deals && d.symbol == symbol && d.position in ids
    ensures LedgerEntry(d.ticket, d.position, d.Net()) in Entries(SettlementRows(deals, symbol, ids))
  {
    var rows := SettlementRows(deals, symbol, ids);
    FilterMembers(deals, (d: Deal) => d.position in ids && d.symbol == symbol);
    var k :| 0 <= k < |rows| && rows[k] == d;
    assert Entries(rows)[k] == LedgerEntry(d.ticket, d.position, d.Net());
  }

  /** A settlement lists just the positions that the orders opened, and one entry for each of their rows. */
  lemma SettlementLists(symbol: string, orders: set<nat>, live: Trades, history: History)
    ensures var s := SettlementOf(symbol, orders, live, history);
      && (s.warned <==> forall id :: !OpenedBy(history.deals, symbol, orders, id))
      && (forall id :: (exists i :: 0 <= i < |s.trades| && s.trades[i].brokerTradeId == id) <==> OpenedBy(history.deals, symbol, orders, id))
      && (forall i, j | 0 <= i < j < |s.trades| :: s.trades[i].brokerTradeId < s.trades[j].brokerTradeId)
      && (forall d | d in history.deals && d.symbol == symbol && OpenedBy(history.deals, symbol, orders, d.position) ::
            LedgerEntry(d.ticket, d.position, d.Net()) in s.ledger)
  {
    var ids := OpenedPositions(history.deals, symbol, orders);
    OpenedPositionsMeaning(history.deals, symbol, orders);
    TicketsOf(ids, SettlementOf(symbol, orders, live, history).trades);
    if ids != [] { assert ids[0] in ids; }
    forall d | d in history.deals && d.symbol == symbol && OpenedBy(history.deals, symbol, orders, d.position)
      ensures LedgerEntry(d.ticket, d.position, d.Net()) in SettlementOf(symbol, orders, live, history).ledger
    {
      RowIsEntered(history.deals, symbol, ids, d);
    }
  }

  lemma {:induction false} LatestIsLast(rows: seq<Deal>)
    ensures Latest(rows).None? <==> rows == []
    ensures Latest(rows).Some? ==> (exists i :: 0 <= i < |rows| && rows[i].createdAt == Latest(rows).value)
                                   && forall i | 0 <= i < |rows| :: rows[i].createdAt <= Latest(rows).value
  {
    if rows != [] {
      var rest := rows[1..];
      LatestIsLast(rest);
      assert forall i | 0 < i < |rows| :: rows[i] == rest[i - 1];
      if Latest(rest).Some? {
        var i :| 0 <= i < |rest| && rest[i].createdAt == Latest(rest).value;
        assert rows[i + 1] == rest[i];
      }
    }
  }

  /** A settled trade is closed exactly when its rows are and no live position carries its ticket; it then has
      the sum of its rows and the time of the last. Its financing is the sum of its swaps either way. */
  lemma SettledAnswers(id: nat, rows: seq<Deal>, live: Trades)
    ensures var t, mine := Settle(id, rows, live), Filter(rows, Is(id));
      var closed := FullyClosed(mine) && forall i | 0 <= i < |live.positions| :: live.positions[i].ticket != id;
      && t.brokerTradeId == id
      && t.realizedPl == (if closed then Some(TotalNet(mine)) else None)
      && t.closedAt == (if closed then Latest(mine) else None)
      && t.financing == Sum(mine, (d: Deal) => d.swap)
  {
    assert IsOpen(live, id) <==> exists i :: 0 <= i < |live.positions| && live.positions[i].ticket == id;
  }
}
