/** Reading a position's whole history backwards, page by page (broker-ctrader/src/history.rs). */
module Pagination {
  import opened Outcomes

  /** A history row as far as paging sees it; `id` is the deal or order id. */
  datatype Row = Row(id: Option<int>, time: Option<int>, payload: string)

  datatype Page = Page(rows: seq<Row>, hasMore: Option<bool>)

  datatype Trouble = ReadFailed | MissingTime | MissingHasMore | EmptyWithMore | Stalled

  datatype History = Complete(rows: seq<Row>) | Refused(trouble: Trouble)

  /** The broker's answer to the n-th read up to and including a time. */
  type Broker = (nat, int) -> Option<Page>

  const PAGES: nat := 1000

  predicate Upto(r: Row, end: int) { r.time.Some? && r.time.value <= end }

  /** A newest-first prefix of the rows up to `end`, with a truthful `hasMore`; the page may end in
      the middle of rows with equal times. */
  ghost predicate Honest(page: Page, all: set<Row>, end: int)
  {
    && (forall q | q in page.rows :: q in all && Upto(q, end))
    && (forall r | r in all && Upto(r, end) && r !in page.rows ::
          page.hasMore != Some(false) && forall q | q in page.rows :: r.time.value <= q.time.value)
  }

  ghost predicate HonestBroker(read: Broker, all: set<Row>)
  {
    forall n, end | read(n, end).Some? :: Honest(read(n, end).value, all, end)
  }

  predicate Timed(rows: seq<Row>) { forall r | r in rows :: r.time.Some? }

  function Oldest(rows: seq<Row>): (t: int)
    requires rows != [] && Timed(rows)
    ensures exists r :: r in rows && r.time.value == t
    ensures forall r | r in rows :: t <= r.time.value
  {
    if |rows| == 1 then rows[0].time.value
    else
      var t := Oldest(rows[1..]);
      assert rows == [rows[0]] + rows[1..];
      if rows[0].time.value < t then rows[0].time.value else t
  }

  // ----- Sorting by id and dropping repeats -----

  function Key(r: Row): int { if r.id.Some? then r.id.value else 0 }

  function Elements(rows: seq<Row>): set<Row> { set r | r in rows }

  predicate Ordered(rows: seq<Row>) { forall i, j | 0 <= i < j < |rows| :: Key(rows[i]) <= Key(rows[j]) }

  /** Stable: a row goes behind those with an equal key. */
  function Insert(rows: seq<Row>, r: Row): seq<Row>
  {
    if rows != [] && Key(r) < Key(rows[|rows| - 1])
    then Insert(rows[..|rows| - 1], r) + [rows[|rows| - 1]]
    else rows + [r]
  }

  function SortByKey(rows: seq<Row>): seq<Row>
  {
    if rows == [] then [] else Insert(SortByKey(rows[..|rows| - 1]), rows[|rows| - 1])
  }

  /** Drops a row equal to the one before it. */
  function Dedup(rows: seq<Row>): seq<Row>
  {
    if |rows| <= 1 then rows
    else
      var n := |rows| - 1;
      Dedup(rows[..n]) + if rows[n] == rows[n - 1] then [] else [rows[n]]
  }

  ghost predicate NoRepeats(rows: seq<Row>) { forall i, j | 0 <= i < j < |rows| :: rows[i] != rows[j] }

  /** No two different rows share a key. */
  ghost predicate KeysIdentify(rows: set<Row>)
  {
    forall r, q | r in rows && q in rows && Key(r) == Key(q) :: r == q
  }

  lemma LastSplit(rows: seq<Row>)
    requires rows != []
    ensures rows == rows[..|rows| - 1] + [rows[|rows| - 1]]
  {
  }

  lemma ElementsAppend(rows: seq<Row>, r: Row)
    ensures Elements(rows + [r]) == Elements(rows) + {r}
  {
  }

  lemma LastElement(rows: seq<Row>)
    requires rows != []
    ensures Elements(rows) == Elements(rows[..|rows| - 1]) + {rows[|rows| - 1]}
  {
    assert rows == rows[..|rows| - 1] + [rows[|rows| - 1]];
    ElementsAppend(rows[..|rows| - 1], rows[|rows| - 1]);
  }

  lemma {:induction false} InsertElements(rows: seq<Row>, r: Row)
    ensures Elements(Insert(rows, r)) == Elements(rows) + {r}
  {
    if rows != [] && Key(r) < Key(rows[|rows| - 1]) {
      var n := |rows| - 1;
      InsertElements(rows[..n], r);
      LastElement(rows);
      ElementsAppend(Insert(rows[..n], r), rows[n]);
    } else {
      ElementsAppend(rows, r);
    }
  }

  lemma AppendOrdered(rows: seq<Row>, r: Row)
    requires Ordered(rows) && forall q | q in Elements(rows) :: Key(q) <= Key(r)
    ensures Ordered(rows + [r])
  {
    assert forall i | 0 <= i < |rows| :: rows[i] in Elements(rows);
  }

  lemma LastIsGreatest(rows: seq<Row>)
    requires Ordered(rows) && rows != []
    ensures forall q | q in Elements(rows) :: Key(q) <= Key(rows[|rows| - 1])
  {
  }

  lemma {:induction false} InsertOrdered(rows: seq<Row>, r: Row)
    requires Ordered(rows)
    ensures Ordered(Insert(rows, r))
  {
    if rows != [] {
      LastIsGreatest(rows);
    }
    if rows != [] && Key(r) < Key(rows[|rows| - 1]) {
      var n := |rows| - 1;
      InsertOrdered(rows[..n], r);
      InsertElements(rows[..n], r);
      LastElement(rows);
      AppendOrdered(Insert(rows[..n], r), rows[n]);
    } else {
      AppendOrdered(rows, r);
    }
  }

  lemma {:induction false} SortOrdered(rows: seq<Row>)
    ensures Ordered(SortByKey(rows)) && Elements(SortByKey(rows)) == Elements(rows)
  {
    if rows != [] {
      var n := |rows| - 1;
      SortOrdered(rows[..n]);
      InsertOrdered(SortByKey(rows[..n]), rows[n]);
      InsertElements(SortByKey(rows[..n]), rows[n]);
      LastElement(rows);
    }
  }

  lemma {:induction false} DedupKeepsRows(rows: seq<Row>)
    ensures Elements(Dedup(rows)) == Elements(rows)
    ensures rows != [] ==> Dedup(rows) != [] && Dedup(rows)[|Dedup(rows)| - 1] == rows[|rows| - 1]
  {
    if |rows| > 1 {
      var n := |rows| - 1;
      DedupKeepsRows(rows[..n]);
      LastElement(rows);
      ElementsAppend(Dedup(rows[..n]), rows[n]);
      assert rows[..n][n - 1] == rows[n - 1];
    }
  }

  /** Equal rows stand next to each other. */
  ghost predicate Contiguous(rows: seq<Row>)
  {
    forall i, j, k | 0 <= i < j < k < |rows| && rows[i] == rows[k] :: rows[j] == rows[i]
  }

  lemma NewRowIsNew(rows: seq<Row>)
    requires Contiguous(rows) && |rows| > 1 && rows[|rows| - 1] != rows[|rows| - 2]
    ensures rows[|rows| - 1] !in Elements(rows[..|rows| - 1])
  {
  }

  lemma {:induction false} DedupDistinct(rows: seq<Row>)
    requires Contiguous(rows)
    ensures NoRepeats(Dedup(rows))
  {
    if |rows| > 1 {
      var n := |rows| - 1;
      DedupDistinct(rows[..n]);
      DedupKeepsRows(rows[..n]);
      if rows[n] != rows[n - 1] {
        var front := Dedup(rows[..n]);
        NewRowIsNew(rows);
        assert forall i | 0 <= i < |front| :: front[i] in Elements(front);
        assert Dedup(rows) == front + [rows[n]];
      }
    }
  }

  lemma IdentifiedRowsStayDistinct(rows: set<Row>, arrived: seq<Row>)
    requires KeysIdentify(rows) && Elements(arrived) <= rows
    ensures NoRepeats(Tidied(arrived))
  {
    SortOrdered(arrived);
    var sorted := SortByKey(arrived);
    forall i, j, k | 0 <= i < j < k < |sorted| && sorted[i] == sorted[k] ensures sorted[j] == sorted[i] {
      assert sorted[i] in Elements(sorted) && sorted[j] in Elements(sorted);
    }
    DedupDistinct(sorted);
  }

  // ----- Stability: rows that arrive newest first stay so within a key -----

  predicate NewestFirst(rows: seq<Row>)
  {
    Timed(rows) && forall i, j | 0 <= i < j < |rows| :: rows[j].time.value <= rows[i].time.value
  }

  predicate KeyThenNewer(a: Row, b: Row)
    requires a.time.Some? && b.time.Some?
  {
    Key(a) < Key(b) || (Key(a) == Key(b) && b.time.value <= a.time.value)
  }

  predicate KeyThenNewest(rows: seq<Row>)
  {
    Timed(rows) && forall i, j | 0 <= i < j < |rows| :: KeyThenNewer(rows[i], rows[j])
  }

  lemma AppendKeyThenNewest(rows: seq<Row>, r: Row)
    requires KeyThenNewest(rows) && r.time.Some? && forall q | q in rows :: KeyThenNewer(q, r)
    ensures KeyThenNewest(rows + [r])
  {
    assert forall i | 0 <= i < |rows| :: rows[i] in rows;
  }

  lemma {:induction false} InsertKeyThenNewest(rows: seq<Row>, r: Row)
    requires KeyThenNewest(rows) && r.time.Some? && forall q | q in rows :: r.time.value <= q.time.value
    ensures KeyThenNewest(Insert(rows, r))
  {
    if rows != [] && Key(r) < Key(rows[|rows| - 1]) {
      var n := |rows| - 1;
      InsertKeyThenNewest(rows[..n], r);
      InsertElements(rows[..n], r);
      forall q | q in Insert(rows[..n], r) ensures KeyThenNewer(q, rows[n]) {
        assert q in Elements(Insert(rows[..n], r));
      }
      AppendKeyThenNewest(Insert(rows[..n], r), rows[n]);
    } else {
      AppendKeyThenNewest(rows, r);
    }
  }

  lemma {:induction false} SortKeepsNewestFirst(rows: seq<Row>)
    requires NewestFirst(rows)
    ensures KeyThenNewest(SortByKey(rows))
  {
    if rows != [] {
      var n := |rows| - 1;
      SortKeepsNewestFirst(rows[..n]);
      SortOrdered(rows[..n]);
      forall q | q in SortByKey(rows[..n]) ensures rows[n].time.value <= q.time.value {
        assert q in Elements(rows[..n]);
      }
      InsertKeyThenNewest(SortByKey(rows[..n]), rows[n]);
    }
  }

  lemma {:induction false} InsertCounts(rows: seq<Row>, r: Row)
    ensures multiset(Insert(rows, r)) == multiset(rows) + multiset{r}
  {
    if rows != [] && Key(r) < Key(rows[|rows| - 1]) {
      var n := |rows| - 1;
      InsertCounts(rows[..n], r);
      LastSplit(rows);
    }
  }

  lemma {:induction false} SortCounts(rows: seq<Row>)
    ensures multiset(SortByKey(rows)) == multiset(rows)
  {
    if rows != [] {
      var n := |rows| - 1;
      SortCounts(rows[..n]);
      InsertCounts(SortByKey(rows[..n]), rows[n]);
      LastSplit(rows);
    }
  }

  ghost predicate Repeated(rows: seq<Row>, r: Row) { exists i, j :: 0 <= i < j < |rows| && rows[i] == r == rows[j] }

  lemma {:induction false} RepeatedIff(rows: seq<Row>, r: Row)
    ensures Repeated(rows, r) <==> 2 <= multiset(rows)[r]
  {
    if rows != [] {
      var n := |rows| - 1;
      assert rows == rows[..n] + [rows[n]];
      RepeatedIff(rows[..n], r);
      if rows[n] == r && r in multiset(rows[..n]) {
        var i :| 0 <= i < n && rows[i] == r;
        assert Repeated(rows, r);
      }
      if Repeated(rows[..n], r) {
        var i, j :| 0 <= i < j < n && rows[..n][i] == r == rows[..n][j];
        assert rows[i] == r == rows[j];
      }
      if Repeated(rows, r) {
        var i, j :| 0 <= i < j < |rows| && rows[i] == r == rows[j];
        if j < n {
          assert rows[..n][i] == r == rows[..n][j];
        } else {
          assert rows[..n][i] == r;
        }
      }
    }
  }

  function Tidied(collected: seq<Row>): seq<Row> { Dedup(SortByKey(collected)) }

  /** No two different rows share a key and a time earlier than `now`. */
  ghost predicate TiesIdentified(all: set<Row>, now: int)
  {
    forall r, q | r in all && q in all && r.time.Some? && r.time == q.time && r.time.value < now && Key(r) == Key(q) :: r == q
  }

  /** Rows repeat only at times earlier than `now`. */
  ghost predicate RepeatsEarlier(rows: seq<Row>, now: int)
  {
    forall r | Repeated(rows, r) :: r.time.Some? && r.time.value < now
  }

  lemma NewestFirstStaysDistinct(all: set<Row>, now: int, arrived: seq<Row>)
    requires TiesIdentified(all, now) && Elements(arrived) <= all && NewestFirst(arrived) && RepeatsEarlier(arrived, now)
    ensures NoRepeats(Tidied(arrived))
  {
    var sorted := SortByKey(arrived);
    SortOrdered(arrived);
    SortKeepsNewestFirst(arrived);
    SortCounts(arrived);
    forall i, j, k | 0 <= i < j < k < |sorted| && sorted[i] == sorted[k] ensures sorted[j] == sorted[i] {
      var r := sorted[i];
      assert KeyThenNewer(r, sorted[j]) && KeyThenNewer(sorted[j], r);
      assert Repeated(sorted, r);
      RepeatedIff(sorted, r);
      RepeatedIff(arrived, r);
      assert r in Elements(sorted) && sorted[j] in Elements(sorted);
    }
    DedupDistinct(sorted);
  }

  // ----- The loop -----

  ghost predicate EndsAt(read: Broker, n: nat, end: int)
  {
    read(n, end).Some? && read(n, end).value.hasMore == Some(false)
  }

  /** A page that promises more, and whose oldest row is at `next`. */
  ghost predicate Continues(read: Broker, n: nat, end: int, next: int)
  {
    && read(n, end).Some?
    && var page := read(n, end).value;
       Timed(page.rows) && page.rows != [] && page.hasMore == Some(true) && next == Oldest(page.rows)
  }

  /** Each read asks strictly further back than the one before, from the oldest row it returned. */
  ghost predicate Walks(read: Broker, now: int, ends: seq<int>)
  {
    && (ends != [] ==> ends[0] == now)
    && (forall i | 0 <= i < |ends| - 1 :: Continues(read, i, ends[i], ends[i + 1]) && ends[i + 1] < ends[i])
  }

  lemma WalksStep(read: Broker, now: int, ends: seq<int>, next: int)
    requires ends != [] && Walks(read, now, ends)
    requires Continues(read, |ends| - 1, ends[|ends| - 1], next) && next < ends[|ends| - 1]
    ensures Walks(read, now, ends + [next])
  {
    var longer := ends + [next];
    forall i | 0 <= i < |longer| - 1
      ensures Continues(read, i, longer[i], longer[i + 1]) && longer[i + 1] < longer[i]
    {
      if i < |ends| - 1 {
        assert longer[i] == ends[i] && longer[i + 1] == ends[i + 1];
      }
    }
  }

  function RowsAt(read: Broker, n: nat, end: int): seq<Row>
  {
    if read(n, end).None? then [] else read(n, end).value.rows
  }

  /** Everything the reads at `ends` deliver, in order. */
  function Arrived(read: Broker, ends: seq<int>): seq<Row>
  {
    if ends == [] then []
    else Arrived(read, ends[..|ends| - 1]) + RowsAt(read, |ends| - 1, ends[|ends| - 1])
  }

  lemma ArrivedStep(read: Broker, ends: seq<int>, end: int)
    ensures Arrived(read, ends + [end]) == Arrived(read, ends) + RowsAt(read, |ends|, end)
  {
    assert (ends + [end])[..|ends|] == ends;
  }

  /** The reads of a history that ran to its end. */
  ghost predicate Completed(read: Broker, now: int, ends: seq<int>)
  {
    && 0 < |ends| <= PAGES && Walks(read, now, ends)
    && EndsAt(read, |ends| - 1, ends[|ends| - 1]) && Timed(RowsAt(read, |ends| - 1, ends[|ends| - 1]))
  }

  /** What has been collected once everything later than `end` has been seen. */
  ghost predicate Covers(collected: seq<Row>, all: set<Row>, now: int, end: int)
  {
    && end <= now
    && (forall q | q in collected :: q in all && Upto(q, now))
    && (forall q | q in all && Upto(q, now) && end < q.time.value :: q in collected)
  }

  lemma PageCovers(collected: seq<Row>, page: Page, all: set<Row>, now: int, end: int)
    requires Covers(collected, all, now, end) && Honest(page, all, end)
    requires page.rows != [] && Timed(page.rows) && Oldest(page.rows) <= end
    ensures Covers(collected + page.rows, all, now, Oldest(page.rows))
  {
    var o :| o in page.rows && o.time.value == Oldest(page.rows);
    assert forall q | q in all && Upto(q, end) && q !in page.rows :: q.time.value <= o.time.value;
  }

  lemma TidiedKeepsRows(collected: seq<Row>)
    ensures Elements(Tidied(collected)) == Elements(collected)
  {
    SortOrdered(collected);
    DedupKeepsRows(SortByKey(collected));
  }

  lemma LastPageCompletes(collected: seq<Row>, page: Page, all: set<Row>, now: int, end: int)
    requires Covers(collected, all, now, end) && Honest(page, all, end) && page.hasMore == Some(false)
    ensures Elements(Tidied(collected + page.rows)) == set q | q in all && Upto(q, now)
    ensures KeysIdentify(all) ==> NoRepeats(Tidied(collected + page.rows))
  {
    TidiedKeepsRows(collected + page.rows);
    if KeysIdentify(all) {
      assert Elements(collected + page.rows) <= all;
      IdentifiedRowsStayDistinct(all, collected + page.rows);
    }
  }

  // ----- Repetitions, against a broker that lists its rows newest first -----

  /** An honest page that lists its rows newest first, each once. */
  ghost predicate Listed(page: Page, all: set<Row>, end: int)
  {
    Honest(page, all, end) && NewestFirst(page.rows) && NoRepeats(page.rows)
  }

  ghost predicate ListingBroker(read: Broker, all: set<Row>)
  {
    forall n, end | read(n, end).Some? :: Listed(read(n, end).value, all, end)
  }

  /** What has arrived before the read at `end`: newest first, nothing older than `end`, and repeated only
      at page boundaries. */
  ghost predicate Arriving(rows: seq<Row>, all: set<Row>, now: int, end: int)
  {
    && end <= now && (end == now ==> rows == [])
    && Elements(rows) <= all && NewestFirst(rows) && RepeatsEarlier(rows, now)
    && forall q | q in rows :: end <= q.time.value
  }

  lemma NewestFirstAppends(rows: seq<Row>, more: seq<Row>, end: int)
    requires NewestFirst(rows) && NewestFirst(more)
    requires (forall q | q in rows :: end <= q.time.value) && forall q | q in more :: q.time.value <= end
    ensures NewestFirst(rows + more)
  {
    assert forall i | 0 <= i < |rows| :: rows[i] in rows;
    assert forall j | 0 <= j < |more| :: more[j] in more;
  }

  lemma RepeatsAppend(rows: seq<Row>, more: seq<Row>, now: int, end: int)
    requires Timed(rows) && Timed(more) && RepeatsEarlier(rows, now) && NoRepeats(more) && end <= now && (end == now ==> rows == [])
    requires (forall q | q in rows :: end <= q.time.value) && forall q | q in more :: q.time.value <= end
    ensures RepeatsEarlier(rows + more, now)
  {
    forall r | Repeated(rows + more, r) ensures r.time.Some? && r.time.value < now {
      var i, j :| 0 <= i < j < |rows + more| && (rows + more)[i] == r == (rows + more)[j];
      if j < |rows| {
        assert rows[i] == r == rows[j];
        assert Repeated(rows, r);
      } else {
        assert more[j - |rows|] == r && r in more;
        assert i < |rows|;
        assert rows[i] in rows;
      }
    }
  }

  lemma PageArrives(rows: seq<Row>, page: Page, all: set<Row>, now: int, end: int)
    requires Arriving(rows, all, now, end) && Listed(page, all, end)
    ensures Elements(rows + page.rows) <= all && NewestFirst(rows + page.rows) && RepeatsEarlier(rows + page.rows, now)
  {
    NewestFirstAppends(rows, page.rows, end);
    RepeatsAppend(rows, page.rows, now, end);
    forall q | q in Elements(rows + page.rows) ensures q in all {
      assert q in Elements(rows) || q in page.rows;
    }
  }

  lemma PageArrivesFurther(rows: seq<Row>, page: Page, all: set<Row>, now: int, end: int, next: int)
    requires Arriving(rows, all, now, end) && Listed(page, all, end)
    requires page.rows != [] && next == Oldest(page.rows) < end
    ensures Arriving(rows + page.rows, all, now, next)
  {
    PageArrives(rows, page, all, now, end);
  }

  lemma {:induction false} WalkArrives(read: Broker, all: set<Row>, now: int, ends: seq<int>)
    requires ends != [] && Walks(read, now, ends) && ListingBroker(read, all)
    ensures Arriving(Arrived(read, ends[..|ends| - 1]), all, now, ends[|ends| - 1])
    decreases |ends|
  {
    var n := |ends| - 1;
    if n == 0 {
      assert forall r :: !Repeated([], r);
    } else {
      var front := ends[..n];
      WalksPrefix(read, now, ends);
      WalkArrives(read, all, now, front);
      assert Continues(read, n - 1, ends[n - 1], ends[n]);
      assert front[..n - 1] == ends[..n - 1] && front[n - 1] == ends[n - 1];
      PageArrivesFurther(Arrived(read, front[..n - 1]), read(n - 1, ends[n - 1]).value, all, now, ends[n - 1], ends[n]);
    }
  }

  lemma WalksPrefix(read: Broker, now: int, ends: seq<int>)
    requires ends != [] && Walks(read, now, ends)
    ensures Walks(read, now, ends[..|ends| - 1])
  {
    var front := ends[..|ends| - 1];
    forall i | 0 <= i < |front| - 1
      ensures Continues(read, i, front[i], front[i + 1]) && front[i + 1] < front[i]
    {
      assert front[i] == ends[i] && front[i + 1] == ends[i + 1];
    }
  }

  lemma CompletedStaysDistinct(read: Broker, all: set<Row>, now: int, ends: seq<int>)
    requires ListingBroker(read, all) && Completed(read, now, ends) && TiesIdentified(all, now)
    ensures NoRepeats(Tidied(Arrived(read, ends)))
  {
    var n := |ends| - 1;
    WalkArrives(read, all, now, ends);
    PageArrives(Arrived(read, ends[..n]), read(n, ends[n]).value, all, now, ends[n]);
    NewestFirstStaysDistinct(all, now, Arrived(read, ends));
  }

  // ----- A history that does repeat a row -----

  /** `r` first, then `q`, then `r` again. */
  predicate Returns(rows: seq<Row>, r: Row, q: Row, i: nat, j: nat, k: nat)
  {
    i < j < k < |rows| && rows[i] == r && rows[j] == q && rows[k] == r
  }

  /** Where an insertion puts its row: everything behind it has a greater key. */
  lemma {:induction false} InsertSplits(rows: seq<Row>, x: Row) returns (k: nat)
    ensures k <= |rows| && Insert(rows, x) == rows[..k] + [x] + rows[k..]
    ensures forall i | k <= i < |rows| :: Key(x) < Key(rows[i])
  {
    k := |rows|;
    if rows != [] && Key(x) < Key(rows[|rows| - 1]) {
      var n := |rows| - 1;
      k := InsertSplits(rows[..n], x);
      assert rows[..n][..k] == rows[..k] && rows[..n][k..] + [rows[n]] == rows[k..];
    }
  }

  lemma Shifted(rows: seq<Row>, at: nat, x: Row, i: nat)
    requires i < |rows| && at <= |rows|
    ensures (rows[..at] + [x] + rows[at..])[if i < at then i else i + 1] == rows[i]
  {
  }

  lemma InsertKeepsReturns(rows: seq<Row>, x: Row, r: Row, q: Row, i: nat, j: nat, k: nat) returns (i': nat, j': nat, k': nat)
    requires Returns(rows, r, q, i, j, k)
    ensures Returns(Insert(rows, x), r, q, i', j', k')
  {
    var at := InsertSplits(rows, x);
    Shifted(rows, at, x, i);
    Shifted(rows, at, x, j);
    Shifted(rows, at, x, k);
    i', j', k' := if i < at then i else i + 1, if j < at then j else j + 1, if k < at then k else k + 1;
  }

  lemma SortAppend(rows: seq<Row>, x: Row)
    ensures SortByKey(rows + [x]) == Insert(SortByKey(rows), x)
  {
    assert (rows + [x])[..|rows|] == rows;
  }

  lemma Associative(a: seq<Row>, b: seq<Row>, c: seq<Row>)
    ensures a + (b + c) == (a + b) + c
  {
  }

  lemma SortAppendTwo(rows: seq<Row>, front: seq<Row>, last: Row)
    ensures SortByKey(rows + (front + [last])) == Insert(SortByKey(rows + front), last)
  {
    Associative(rows, front, [last]);
    SortAppend(rows + front, last);
  }

  function InsertAll(rows: seq<Row>, more: seq<Row>): seq<Row>
  {
    if more == [] then rows else Insert(InsertAll(rows, more[..|more| - 1]), more[|more| - 1])
  }

  lemma {:induction false} SortOfSum(rows: seq<Row>, more: seq<Row>)
    ensures SortByKey(rows + more) == InsertAll(SortByKey(rows), more)
  {
    if more == [] {
      assert rows + more == rows;
    } else {
      var front, last := more[..|more| - 1], more[|more| - 1];
      SortOfSum(rows, front);
      LastSplit(more);
      SortAppendTwo(rows, front, last);
    }
  }

  lemma {:induction false} InsertAllKeepsReturns(rows: seq<Row>, more: seq<Row>, r: Row, q: Row, i: nat, j: nat, k: nat)
    returns (i': nat, j': nat, k': nat)
    requires Returns(rows, r, q, i, j, k)
    ensures Returns(InsertAll(rows, more), r, q, i', j', k')
  {
    i', j', k' := i, j, k;
    if more != [] {
      var front, last := more[..|more| - 1], more[|more| - 1];
      i', j', k' := InsertAllKeepsReturns(rows, front, r, q, i, j, k);
      i', j', k' := InsertKeepsReturns(InsertAll(rows, front), last, r, q, i', j', k');
    }
  }

  /** A row lands behind every row with the same key. */
  lemma InsertBehind(rows: seq<Row>, x: Row, i: nat) returns (at: nat)
    requires i < |rows| && Key(rows[i]) == Key(x)
    ensures i < at < |Insert(rows, x)| && Insert(rows, x)[at] == x
    ensures forall j | 0 <= j <= i :: Insert(rows, x)[j] == rows[j]
  {
    at := InsertSplits(rows, x);
  }

  lemma SortReturns(rows: seq<Row>, r: Row, q: Row) returns (i: nat, j: nat, k: nat)
    requires Key(r) == Key(q)
    ensures Returns(SortByKey(rows + [r] + [q] + [r]), r, q, i, j, k)
  {
    SortAppend(rows, r);
    SortAppend(rows + [r], q);
    SortAppend(rows + [r] + [q], r);
    i := InsertSplits(SortByKey(rows), r);
    j := InsertBehind(SortByKey(rows + [r]), q, i);
    k := InsertBehind(SortByKey(rows + [r] + [q]), r, j);
  }

  lemma DedupLast(rows: seq<Row>)
    requires |rows| > 1
    ensures Dedup(rows) == Dedup(rows[..|rows| - 1]) + if rows[|rows| - 1] == rows[|rows| - 2] then [] else [rows[|rows| - 1]]
  {
  }

  lemma RepeatedPrefix(front: seq<Row>, rows: seq<Row>, r: Row)
    requires Repeated(front, r) && |front| <= |rows| && rows[..|front|] == front
    ensures Repeated(rows, r)
  {
    var i, j :| 0 <= i < j < |front| && front[i] == r == front[j];
    assert rows[i] == r == rows[j];
  }

  lemma RepeatedByAppending(front: seq<Row>, r: Row)
    requires r in front
    ensures Repeated(front + [r], r)
  {
    var i :| 0 <= i < |front| && front[i] == r;
    assert (front + [r])[i] == r == (front + [r])[|front|];
  }

  lemma {:induction false} DedupKeepsReturns(rows: seq<Row>, r: Row, q: Row, i: nat, j: nat, k: nat)
    requires Returns(rows, r, q, i, j, k) && r != q
    ensures Repeated(Dedup(rows), r)
  {
    var n := |rows| - 1;
    var front := Dedup(rows[..n]);
    DedupLast(rows);
    DedupKeepsRows(rows[..n]);
    if k < n || rows[n - 1] == r {
      DedupKeepsReturns(rows[..n], r, q, i, j, if k < n then k else n - 1);
      RepeatedPrefix(front, Dedup(rows), r);
    } else {
      assert rows[..n][i] == r;
      assert r in Elements(front);
      RepeatedByAppending(front, r);
    }
  }

  /** A set of timed rows as a newest-first list. */
  lemma {:induction false} NewestFirstList(rows: set<Row>) returns (list: seq<Row>)
    requires forall q | q in rows :: q.time.Some?
    ensures NewestFirst(list) && NoRepeats(list) && Elements(list) == rows
  {
    list := [];
    if rows != {} {
      var newest := Newest(rows);
      var rest := NewestFirstList(rows - {newest});
      list := [newest] + rest;
      assert forall i | 0 <= i < |rest| :: rest[i] in Elements(rest);
      assert Elements(list) == {newest} + Elements(rest);
    }
  }

  lemma {:induction false} Newest(rows: set<Row>) returns (r: Row)
    requires rows != {} && forall q | q in rows :: q.time.Some?
    ensures r in rows && forall q | q in rows :: q.time.value <= r.time.value
  {
    var one :| one in rows;
    var rest := rows - {one};
    assert forall q | q in rows :: q == one || q in rest;
    r := one;
    if rest != {} {
      var other := Newest(rest);
      if one.time.value < other.time.value { r := other; }
    }
  }

  /** Two pages: everything newer than `t` and then `r`; everything from `t` back, `q` and `r` first. */
  ghost function TwoPages(newer: seq<Row>, older: seq<Row>, r: Row, q: Row, now: int, t: int): Broker
  {
    (n: nat, end: int) =>
      if n == 0 && end == now then Some(Page(newer + [r], Some(true)))
      else if n == 1 && end == t then Some(Page([q, r] + older, Some(false)))
      else None
  }

  lemma FirstPageIsListed(newer: seq<Row>, r: Row, all: set<Row>, now: int, t: int)
    requires r in all && r.time == Some(t) && t < now && NewestFirst(newer) && NoRepeats(newer)
    requires Elements(newer) == set x | x in all && Upto(x, now) && t < x.time.value
    ensures Listed(Page(newer + [r], Some(true)), all, now) && Oldest(newer + [r]) == t
  {
    var rows := newer + [r];
    assert forall x | x in newer :: x in Elements(newer);
    NewestFirstAppends(newer, [r], t);
    forall i, j | 0 <= i < j < |rows| ensures rows[i] != rows[j] {
      assert rows[i] == newer[i] && newer[i] in Elements(newer);
    }
    forall x | x in all && Upto(x, now) && x !in rows ensures x.time.value <= t {
      assert x !in Elements(newer);
    }
    assert rows[|newer|] == r;
  }

  lemma SecondPageIsListed(older: seq<Row>, r: Row, q: Row, all: set<Row>, t: int)
    requires r in all && q in all && r != q && r.time == q.time == Some(t) && NewestFirst(older) && NoRepeats(older)
    requires Elements(older) == (set x | x in all && Upto(x, t)) - {r, q}
    ensures Listed(Page([q, r] + older, Some(false)), all, t)
  {
    var rows := [q, r] + older;
    assert forall x | x in older :: x in Elements(older);
    NewestFirstAppends([q, r], older, t);
    forall i, j | 0 <= i < j < |rows| ensures rows[i] != rows[j] {
      if 2 <= j { assert rows[j] == older[j - 2] && older[j - 2] in Elements(older); }
    }
    forall x | x in all && Upto(x, t) ensures x in rows {
      if x != r && x != q { assert x in Elements(older); }
    }
  }

  lemma TwoPagesAreListed(newer: seq<Row>, older: seq<Row>, r: Row, q: Row, all: set<Row>, now: int, t: int)
    requires Listed(Page(newer + [r], Some(true)), all, now) && Listed(Page([q, r] + older, Some(false)), all, t)
    ensures ListingBroker(TwoPages(newer, older, r, q, now, t), all)
  {
  }

  lemma TwoPagesComplete(newer: seq<Row>, older: seq<Row>, r: Row, q: Row, now: int, t: int)
    requires t < now && Timed(newer + [r]) && Oldest(newer + [r]) == t && Timed([q, r] + older)
    ensures Completed(TwoPages(newer, older, r, q, now, t), now, [now, t])
  {
    assert Continues(TwoPages(newer, older, r, q, now, t), 0, now, t);
  }

  lemma TwoReadsArrive(read: Broker, now: int, t: int)
    ensures Arrived(read, [now, t]) == RowsAt(read, 0, now) + RowsAt(read, 1, t)
  {
    assert [now, t][..1] == [now] && [now][..0] == [];
    assert Arrived(read, [now]) == Arrived(read, []) + RowsAt(read, 0, now);
  }

  lemma TwoPagesArrive(newer: seq<Row>, older: seq<Row>, r: Row, q: Row, now: int, t: int)
    ensures Arrived(TwoPages(newer, older, r, q, now, t), [now, t]) == newer + [r] + [q] + [r] + older
  {
    TwoReadsArrive(TwoPages(newer, older, r, q, now, t), now, t);
    assert newer + [r] + ([q, r] + older) == newer + [r] + [q] + [r] + older;
  }

  lemma ReturningRepeats(newer: seq<Row>, older: seq<Row>, r: Row, q: Row)
    requires Key(r) == Key(q) && r != q
    ensures !NoRepeats(Tidied(newer + [r] + [q] + [r] + older))
  {
    var i, j, k := SortReturns(newer, r, q);
    i, j, k := InsertAllKeepsReturns(SortByKey(newer + [r] + [q] + [r]), older, r, q, i, j, k);
    SortOfSum(newer + [r] + [q] + [r], older);
    DedupKeepsReturns(SortByKey(newer + [r] + [q] + [r] + older), r, q, i, j, k);
    RepeatedRepeats(Tidied(newer + [r] + [q] + [r] + older), r);
  }

  /** Two rows that share a key and a time before `now` can be delivered so that one of them stays twice:
      first at the end of a page, then behind the other at the top of the next. */
  lemma TiedRowsRepeat(all: set<Row>, now: int) returns (read: Broker, ends: seq<int>)
    requires !TiesIdentified(all, now)
    ensures ListingBroker(read, all) && Completed(read, now, ends) && !NoRepeats(Tidied(Arrived(read, ends)))
  {
    var r, q :| r in all && q in all && r.time.Some? && r.time == q.time && r.time.value < now && Key(r) == Key(q) && r != q;
    var t := r.time.value;
    var newer := NewestFirstList(set x | x in all && Upto(x, now) && t < x.time.value);
    var older := NewestFirstList((set x | x in all && Upto(x, t)) - {r, q});
    FirstPageIsListed(newer, r, all, now, t);
    SecondPageIsListed(older, r, q, all, t);
    read, ends := TwoPages(newer, older, r, q, now, t), [now, t];
    TwoPagesAreListed(newer, older, r, q, all, now, t);
    TwoPagesComplete(newer, older, r, q, now, t);
    TwoPagesArrive(newer, older, r, q, now, t);
    ReturningRepeats(newer, older, r, q);
  }

  lemma RepeatedRepeats(rows: seq<Row>, r: Row)
    requires Repeated(rows, r)
    ensures !NoRepeats(rows)
  {
  }

  /** Whatever a broker that lists newest first delivers, a completed history repeats nothing, exactly when
      no two different rows share a key and a time earlier than `now`. Rows without an id all have key 0. */
  lemma NoRepeatsIff(all: set<Row>, now: int)
    ensures TiesIdentified(all, now) <==>
      forall read: Broker, ends: seq<int> | ListingBroker(read, all) && Completed(read, now, ends) ::
        NoRepeats(Tidied(Arrived(read, ends)))
  {
    if TiesIdentified(all, now) {
      forall read: Broker, ends: seq<int> | ListingBroker(read, all) && Completed(read, now, ends)
        ensures NoRepeats(Tidied(Arrived(read, ends)))
      {
        CompletedStaysDistinct(read, all, now, ends);
      }
    } else {
      var read, ends := TiedRowsRepeat(all, now);
    }
  }

  // ----- The loop itself -----

  /** Before the read at `end`: the reads so far, what they delivered, and what that covers. */
  ghost predicate Reading(read: Broker, all: set<Row>, now: int, ends: seq<int>, end: int, rows: seq<Row>)
  {
    && Walks(read, now, ends + [end])
    && rows == Arrived(read, ends)
    && (HonestBroker(read, all) ==> Covers(rows, all, now, end))
  }

  /** By id, a missing one counting as 0. */
  predicate ById(rows: seq<Row>)
  {
    forall i, j | 0 <= i < j < |rows| ::
      (if rows[i].id.Some? then rows[i].id.value else 0) <= (if rows[j].id.Some? then rows[j].id.value else 0)
  }

  lemma {:induction false} DedupOrdered(rows: seq<Row>)
    requires Ordered(rows)
    ensures Ordered(Dedup(rows))
  {
    if |rows| > 1 {
      var n := |rows| - 1;
      DedupOrdered(rows[..n]);
      DedupKeepsRows(rows[..n]);
      LastIsGreatest(rows);
      if rows[n] != rows[n - 1] {
        forall q | q in Elements(Dedup(rows[..n])) ensures Key(q) <= Key(rows[n]) { assert q in Elements(rows); }
        AppendOrdered(Dedup(rows[..n]), rows[n]);
      }
    }
  }

  lemma TidiedById(collected: seq<Row>)
    ensures ById(Tidied(collected))
  {
    SortOrdered(collected);
    DedupOrdered(SortByKey(collected));
    var tidied := Tidied(collected);
    forall i, j | 0 <= i < j < |tidied|
      ensures (if tidied[i].id.Some? then tidied[i].id.value else 0) <= (if tidied[j].id.Some? then tidied[j].id.value else 0)
    {
      assert Key(tidied[i]) <= Key(tidied[j]);
    }
  }

  /** A completed history: in order of ids, and against an honest broker exactly the rows up to `now`, each once when ids identify
      rows, or when pages list newest first and no two rows tie before `now`. */
  ghost predicate Finished(read: Broker, all: set<Row>, now: int, ends: seq<int>, rows: seq<Row>)
  {
    && Completed(read, now, ends) && rows == Tidied(Arrived(read, ends)) && ById(rows)
    && (HonestBroker(read, all) ==> Elements(rows) == set q | q in all && Upto(q, now))
    && (HonestBroker(read, all) && KeysIdentify(all) ==> NoRepeats(rows))
    && (ListingBroker(read, all) && TiesIdentified(all, now) ==> NoRepeats(rows))
  }

  lemma ReadingStarts(read: Broker, all: set<Row>, now: int)
    ensures Reading(read, all, now, [], now, [])
  {
  }

  lemma ReadingGoesOn(read: Broker, all: set<Row>, now: int, ends: seq<int>, end: int, rows: seq<Row>, page: Page)
    requires Reading(read, all, now, ends, end, rows) && read(|ends|, end) == Some(page)
    requires Timed(page.rows) && page.rows != [] && page.hasMore == Some(true) && Oldest(page.rows) < end
    ensures Reading(read, all, now, ends + [end], Oldest(page.rows), rows + page.rows)
  {
    assert Continues(read, |ends|, end, Oldest(page.rows));
    WalksStep(read, now, ends + [end], Oldest(page.rows));
    ArrivedStep(read, ends, end);
    if HonestBroker(read, all) {
      PageCovers(rows, page, all, now, end);
    }
  }

  lemma ReadingFinishes(read: Broker, all: set<Row>, now: int, ends: seq<int>, end: int, rows: seq<Row>, page: Page)
    requires |ends| < PAGES && Reading(read, all, now, ends, end, rows) && read(|ends|, end) == Some(page)
    requires Timed(page.rows) && page.hasMore == Some(false)
    ensures Finished(read, all, now, ends + [end], Tidied(rows + page.rows))
  {
    ArrivedStep(read, ends, end);
    TidiedById(rows + page.rows);
    if HonestBroker(read, all) {
      LastPageCompletes(rows, page, all, now, end);
    }
    if ListingBroker(read, all) && TiesIdentified(all, now) {
      CompletedStaysDistinct(read, all, now, ends + [end]);
    }
  }

  // ----- When a history completes -----

  lemma {:induction false} WalksAgree(read: Broker, now: int, one: seq<int>, other: seq<int>, i: nat)
    requires Walks(read, now, one) && Walks(read, now, other) && i < |one| && i < |other|
    ensures one[i] == other[i]
  {
    if i > 0 {
      WalksAgree(read, now, one, other, i - 1);
      assert Continues(read, i - 1, one[i - 1], one[i]) && Continues(read, i - 1, other[i - 1], other[i]);
    }
  }

  /** The n-th read, at `end`, can neither finish a history nor lead to another read. */
  ghost predicate DeadEnd(read: Broker, n: nat, end: int)
  {
    || read(n, end).None?
    || var page := read(n, end).value;
       || !Timed(page.rows) || page.hasMore.None?
       || (page.hasMore == Some(true) && (page.rows == [] || end <= Oldest(page.rows) || n == PAGES - 1))
  }

  /** The read's own trouble. */
  ghost predicate Explains(read: Broker, n: nat, end: int, trouble: Trouble)
  {
    match trouble
    case ReadFailed => read(n, end).None?
    case MissingTime => read(n, end).Some? && exists i :: 0 <= i < |read(n, end).value.rows| && read(n, end).value.rows[i].time.None?
    case MissingHasMore => read(n, end).Some? && Timed(read(n, end).value.rows) && read(n, end).value.hasMore.None?
    case EmptyWithMore => read(n, end).Some? && read(n, end).value.rows == [] && read(n, end).value.hasMore == Some(true)
    case Stalled =>
      exists next :: Continues(read, n, end, next) && (end <= next || n == PAGES - 1)
  }

  lemma PassedBy(read: Broker, now: int, ends: seq<int>, i: nat)
    requires Walks(read, now, ends) && i < |ends| - 1
    ensures !EndsAt(read, i, ends[i])
    ensures |ends| <= PAGES ==> !DeadEnd(read, i, ends[i])
  {
    assert Continues(read, i, ends[i], ends[i + 1]) && ends[i + 1] < ends[i];
  }

  lemma DeadEndsNeverComplete(read: Broker, now: int, ends: seq<int>, other: seq<int>)
    requires ends != [] && Walks(read, now, ends) && DeadEnd(read, |ends| - 1, ends[|ends| - 1])
    ensures !Completed(read, now, other)
  {
    if 0 < |other| <= PAGES && Walks(read, now, other) {
      var n, m := |ends| - 1, |other| - 1;
      WalksAgree(read, now, ends, other, if n < m then n else m);
      if m < n {
        PassedBy(read, now, ends, m);
      } else if n < m {
        PassedBy(read, now, other, n);
      }
    }
  }

  /** Every read is answered, and a page that promises more reaches further back than its end. */
  ghost predicate Patient(read: Broker, now: int)
  {
    forall n, end | end <= now ::
      && read(n, end).Some? && read(n, end).value.hasMore.Some?
      && (read(n, end).value.hasMore == Some(true) ==>
            exists i :: 0 <= i < |read(n, end).value.rows| && Earlier(read(n, end).value.rows[i], end))
  }

  predicate Earlier(r: Row, end: int) { r.time.Some? && r.time.value < end }

  ghost function Times(all: set<Row>, now: int): set<int> { set r | r in all && Upto(r, now) :: r.time.value }

  lemma {:induction false} WalkFalls(read: Broker, now: int, ends: seq<int>, i: nat)
    requires ends != [] && Walks(read, now, ends) && i < |ends| - 1
    ensures ends[|ends| - 1] < ends[i] <= now
    decreases |ends|
  {
    var n := |ends| - 1;
    WalksPrefix(read, now, ends);
    assert Continues(read, n - 1, ends[n - 1], ends[n]) && ends[n] < ends[n - 1];
    if i < n - 1 {
      WalkFalls(read, now, ends[..n], i);
    } else if 0 < i {
      WalkFalls(read, now, ends[..n], 0);
    }
  }

  lemma {:induction false} EndsFit(read: Broker, now: int, ends: seq<int>, times: set<int>)
    requires ends != [] && Walks(read, now, ends) && forall i | 1 <= i < |ends| :: ends[i] in times
    ensures |ends| - 1 <= |times|
    decreases |ends|
  {
    if 1 < |ends| {
      var n := |ends| - 1;
      WalksPrefix(read, now, ends);
      forall i | 1 <= i < n ensures ends[..n][i] in times - {ends[n]} { WalkFalls(read, now, ends, i); }
      EndsFit(read, now, ends[..n], times - {ends[n]});
    }
  }

  lemma PatientPage(read: Broker, all: set<Row>, now: int, n: nat, end: int)
    requires HonestBroker(read, all) && Patient(read, now) && end <= now
    ensures read(n, end).Some? && Timed(read(n, end).value.rows) && read(n, end).value.hasMore.Some?
    ensures read(n, end).value.hasMore == Some(true) ==>
      read(n, end).value.rows != [] && Oldest(read(n, end).value.rows) < end && Oldest(read(n, end).value.rows) in Times(all, now)
  {
    var page := read(n, end).value;
    assert Honest(page, all, end);
    if page.hasMore == Some(true) {
      var i :| 0 <= i < |page.rows| && Earlier(page.rows[i], end);
      assert page.rows[i] in page.rows;
      var r :| r in page.rows && r.time.value == Oldest(page.rows);
      assert r in all && Upto(r, now);
    }
  }

  lemma {:induction false} PatientWalkCompletes(read: Broker, all: set<Row>, now: int, ends: seq<int>) returns (whole: seq<int>)
    requires HonestBroker(read, all) && Patient(read, now) && |Times(all, now)| < PAGES
    requires ends != [] && Walks(read, now, ends) && forall i | 1 <= i < |ends| :: ends[i] in Times(all, now)
    ensures Completed(read, now, whole)
    decreases PAGES - |ends|
  {
    var n := |ends| - 1;
    EndsFit(read, now, ends, Times(all, now));
    if 0 < n { WalkFalls(read, now, ends, 0); }
    PatientPage(read, all, now, n, ends[n]);
    var page := read(n, ends[n]).value;
    if page.hasMore == Some(false) {
      whole := ends;
    } else {
      assert page.hasMore.value;
      var next := Oldest(page.rows);
      assert Continues(read, n, ends[n], next);
      WalksStep(read, now, ends, next);
      EndsFit(read, now, ends + [next], Times(all, now));
      whole := PatientWalkCompletes(read, all, now, ends + [next]);
    }
  }

  /** An honest broker that answers every read, and whose pages reach further back while they promise more,
      gives a complete history of any account with fewer than 1000 different times. */
  lemma PatientHistoryCompletes(read: Broker, all: set<Row>, now: int) returns (whole: seq<int>)
    requires HonestBroker(read, all) && Patient(read, now) && |Times(all, now)| < PAGES
    ensures Completed(read, now, whole)
  {
    whole := PatientWalkCompletes(read, all, now, [now]);
  }

  /** Reads until a page says there is no more. Ends strictly decrease over at most 1000 reads; a history that is
      not refused is finished, and one is refused exactly when no such walk reaches a last page. */
  method PositionHistory(read: Broker, now: int, ghost all: set<Row>) returns (r: History, ghost ends: seq<int>)
    ensures Walks(read, now, ends) && 0 < |ends| <= PAGES
    ensures r.Complete? ==> Finished(read, all, now, ends, r.rows)
    ensures r.Complete? <==> exists whole :: Completed(read, now, whole)
    ensures r.Refused? ==> Explains(read, |ends| - 1, ends[|ends| - 1], r.trouble)
  {
    var end := now;
    var result: seq<Row> := [];
    ends := [];
    ReadingStarts(read, all, now);
    for count := 0 to PAGES
      invariant count < PAGES && |ends| == count
      invariant Reading(read, all, now, ends, end, result)
    {
      ghost var before := ends;
      ends := ends + [end];
      if DeadEnd(read, count, end) {
        forall other ensures !Completed(read, now, other) { DeadEndsNeverComplete(read, now, ends, other); }
      }
      var data := read(count, end);
      if data.None? { return Refused(ReadFailed), ends; }
      var page := data.value;
      if !Timed(page.rows) { return Refused(MissingTime), ends; }
      if page.hasMore.None? { return Refused(MissingHasMore), ends; }
      if !page.hasMore.value {
        ReadingFinishes(read, all, now, before, end, result, page);
        return Complete(Tidied(result + page.rows)), ends;
      }
      if page.rows == [] { return Refused(EmptyWithMore), ends; }
      var oldest := Oldest(page.rows);
      if end <= oldest || count == PAGES - 1 {
        assert Continues(read, count, end, oldest);
        return Refused(Stalled), ends;
      }
      ReadingGoesOn(read, all, now, before, end, result, page);
      result := result + page.rows;
      end := oldest;
    }
    assert false;
  }
}
