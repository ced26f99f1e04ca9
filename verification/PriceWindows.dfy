/** Price windows for many anchor dates from one range query (stock_quote_service.py), against the
    query per anchor date they replace (analysis_repository.py). */
module PriceWindows {
  import opened Wrappers
  import opened Sequences

  /** One day's prices; amounts stand for decimals. */
  datatype Row = Row(date: int, close: Option<int>, vol: Option<int>)

  datatype RemoteRow = RemoteRow(date: Option<int>, close: Option<int>, vol: Option<int>)

  /** The remote: no gateway, an exception, or rows. */
  datatype Remote = Missing | Fails | Sends(rows: seq<RemoteRow>)

  const LOOKAHEAD := 30

  /** A table of one stock in date order; the date is its key. */
  ghost predicate Table(rows: seq<Row>) {
    forall i, j :: 0 <= i < j < |rows| ==> rows[i].date < rows[j].date
  }

  /** The rows within two dates, in order. */
  function Between(rows: seq<Row>, lo: int, hi: int): seq<Row> {
    if rows == [] then []
    else
      var last := rows[|rows| - 1];
      Between(rows[..|rows| - 1], lo, hi) + if lo <= last.date <= hi then [last] else []
  }

  function Since(rows: seq<Row>, lo: int): seq<Row> {
    if rows == [] then []
    else
      var last := rows[|rows| - 1];
      Since(rows[..|rows| - 1], lo) + if lo <= last.date then [last] else []
  }

  /** The single-anchor query: the first rows from the anchor date on. */
  function Window(rows: seq<Row>, anchor: int, size: nat): seq<Row> {
    var from := Since(rows, anchor);
    if |from| <= size then from else from[..size]
  }

  function DateKey(row: Row): seq<int> {
    [-row.date]
  }

  /** `sorted(rows, key=trade_date)`. */
  function ByDate(rows: seq<Row>): seq<Row> {
    SortDescending(rows, DateKey)
  }

  method SlicePriceWindows(rows: seq<Row>, anchors: seq<int>, size: nat) returns (windows: map<int, seq<Row>>)
    ensures forall a :: a in windows <==> a in anchors
    ensures forall a :: a in windows ==> windows[a] == Window(ByDate(rows), a, size)
  {
    windows := map[];
    var sorted := ByDate(rows);
    for i := 0 to |anchors|
      invariant forall a :: a in windows <==> a in anchors[..i]
      invariant forall a :: a in windows ==> windows[a] == Window(sorted, a, size)
    {
      var from := RowsSince(sorted, anchors[i]);
      windows := windows[anchors[i] := if |from| <= size then from else from[..size]];
      assert anchors[..i + 1] == anchors[..i] + [anchors[i]];
    }
    assert anchors[..|anchors|] == anchors;
  }

  method RowsSince(rows: seq<Row>, anchor: int) returns (from: seq<Row>)
    ensures from == Since(rows, anchor)
  {
    from := [];
    for i := 0 to |rows|
      invariant from == Since(rows[..i], anchor)
    {
      assert rows[..i + 1][..i] == rows[..i];
      if rows[i].date >= anchor {
        from := from + [rows[i]];
      }
    }
    assert rows[..|rows|] == rows;
  }

  predicate AllWindowsComplete(windows: map<int, seq<Row>>, anchors: seq<int>, size: nat) {
    forall a :: a in anchors ==> size <= if a in windows then |windows[a]| else 0
  }

  // ---- the range cut ----------------------------------------------------------------------------

  lemma {:induction false} TableInit(rows: seq<Row>)
    requires Table(rows) && rows != []
    ensures Table(rows[..|rows| - 1])
    ensures forall x :: x in rows[..|rows| - 1] ==> x.date < rows[|rows| - 1].date
  {
  }

  lemma {:induction false} SinceItems(rows: seq<Row>, lo: int)
    ensures forall x :: x in Since(rows, lo) <==> x in rows && lo <= x.date
  {
    if rows != [] {
      SinceItems(rows[..|rows| - 1], lo);
      assert rows == rows[..|rows| - 1] + [rows[|rows| - 1]];
    }
  }

  lemma {:induction false} BetweenItems(rows: seq<Row>, lo: int, hi: int)
    ensures forall x :: x in Between(rows, lo, hi) <==> x in rows && lo <= x.date <= hi
    ensures Table(rows) ==> Table(Between(rows, lo, hi))
  {
    if rows != [] {
      var init := rows[..|rows| - 1];
      BetweenItems(init, lo, hi);
      assert rows == init + [rows[|rows| - 1]];
      if Table(rows) {
        TableInit(rows);
        forall i | 0 <= i < |Between(init, lo, hi)|
          ensures Between(init, lo, hi)[i].date < rows[|rows| - 1].date
        {
          assert Between(init, lo, hi)[i] in init;
        }
      }
    }
  }

  /** The same rows, never one before an earlier date. */
  lemma {:induction false} ByDateAscends(rows: seq<Row>)
    ensures multiset(ByDate(rows)) == multiset(rows)
    ensures forall i, j :: 0 <= i < j < |ByDate(rows)| ==> ByDate(rows)[i].date <= ByDate(rows)[j].date
  {
    SortIsDescendingPermutation(rows, DateKey);
    forall i, j | 0 <= i < j < |ByDate(rows)|
      ensures ByDate(rows)[i].date <= ByDate(rows)[j].date
    {
      assert !LexLess(DateKey(ByDate(rows)[i]), DateKey(ByDate(rows)[j]));
    }
  }

  /** A table is in order already. */
  lemma {:induction false} ByDateOfTable(rows: seq<Row>)
    requires Table(rows)
    ensures ByDate(rows) == rows
  {
    forall i, j | 0 <= i < j < |rows|
      ensures !LexLess(DateKey(rows[i]), DateKey(rows[j]))
    {
      assert rows[i].date < rows[j].date;
    }
    SortOfDescending(rows, DateKey);
  }

  lemma {:induction false} BetweenNext(init: seq<Row>, last: Row, lo: int, hi: int)
    ensures Between(init + [last], lo, hi) == if lo <= last.date <= hi then Between(init, lo, hi) + [last] else Between(init, lo, hi)
  {
    assert (init + [last])[..|init + [last]| - 1] == init;
  }

  /** In date order, nothing lies behind the range exactly when the last row does not. */
  lemma {:induction false} LastDecides(init: seq<Row>, last: Row, hi: int)
    requires forall x :: x in init ==> x.date < last.date
    ensures (forall x :: x in init + [last] ==> x.date <= hi) <==> last.date <= hi
    ensures last.date <= hi ==> forall x :: x in init ==> x.date <= hi
  {
    assert last in init + [last];
  }

  /** From an anchor within the range, the cut keeps a first part of the rows, and all of them
      exactly when the table ends within the range. */
  lemma {:induction false} CutIsPrefix(rows: seq<Row>, lo: int, hi: int, anchor: int)
    requires Table(rows) && lo <= anchor <= hi
    ensures Since(Between(rows, lo, hi), anchor) <= Since(rows, anchor)
    ensures |Since(Between(rows, lo, hi), anchor)| == |Since(rows, anchor)| <==> forall x :: x in rows ==> x.date <= hi
  {
    if rows == [] {
      assert Between(rows, lo, hi) == [] && Since([], anchor) == [];
    } else {
      var init, last := rows[..|rows| - 1], rows[|rows| - 1];
      TableInit(rows);
      assert rows == init + [last];
      hide Since, Between, Table;
      CutIsPrefix(init, lo, hi, anchor);
      BetweenNext(init, last, lo, hi);
      SinceNext(Between(init, lo, hi), last, anchor);
      SinceNext(init, last, anchor);
      LastDecides(init, last, hi);
      var cut, all := Since(Between(init, lo, hi), anchor), Since(init, anchor);
      assert |cut| == |all| ==> cut == all;
    }
  }

  lemma {:induction false} SinceNext(init: seq<Row>, last: Row, lo: int)
    ensures Since(init + [last], lo) == Since(init, lo) + if lo <= last.date then [last] else []
  {
    assert (init + [last])[..|init + [last]| - 1] == init;
  }

  /** A window of the cut equals the single-anchor query on the whole table exactly when it is
      complete or the table has no row behind the range. */
  lemma {:induction false} WindowOfCutIff(rows: seq<Row>, lo: int, hi: int, anchor: int, size: nat)
    requires Table(rows) && lo <= anchor <= hi
    ensures Window(Between(rows, lo, hi), anchor, size) == Window(rows, anchor, size)
            <==> |Window(Between(rows, lo, hi), anchor, size)| == size || forall x :: x in rows ==> x.date <= hi
    ensures Window(Between(rows, lo, hi), anchor, size) <= Window(rows, anchor, size)
  {
    CutIsPrefix(rows, lo, hi, anchor);
    var cut, all := Since(Between(rows, lo, hi), anchor), Since(rows, anchor);
    assert |cut| == |all| ==> cut == all;
  }

  // ---- what a window holds ------------------------------------------------------------------------

  /** The first rows dated from one day to another, in date order, at most `size` of them. */
  ghost predicate FirstRows(window: seq<Row>, rows: seq<Row>, from: int, to: int, size: nat) {
    && |window| <= size && Table(window)
    && (forall x :: x in window ==> x in rows && from <= x.date <= to)
    && forall x :: x in rows && from <= x.date <= to ==>
         x in window || (|window| == size && forall y :: y in window ==> y.date < x.date)
  }

  ghost function Dated(rows: seq<Row>, from: int, to: int): set<Row> {
    set x | x in rows && from <= x.date <= to
  }

  lemma {:induction false} SinceIsTable(rows: seq<Row>, lo: int)
    requires Table(rows)
    ensures Table(Since(rows, lo))
  {
    if rows != [] {
      var init := rows[..|rows| - 1];
      TableInit(rows);
      SinceIsTable(init, lo);
      SinceItems(init, lo);
      forall i | 0 <= i < |Since(init, lo)|
        ensures Since(init, lo)[i].date < rows[|rows| - 1].date
      {
        assert Since(init, lo)[i] in init;
      }
    }
  }

  lemma {:induction false} TableSize(rows: seq<Row>)
    requires Table(rows)
    ensures |set x | x in rows| == |rows|
  {
    if rows == [] {
      assert (set x | x in rows) == {};
    } else {
      var init, last := rows[..|rows| - 1], rows[|rows| - 1];
      TableInit(rows);
      TableSize(init);
      assert rows == init + [last];
      assert (set x | x in rows) == (set x | x in init) + {last};
    }
  }

  lemma {:induction false} CutFrom(table: seq<Row>, size: nat)
    requires Table(table)
    ensures var window := if |table| <= size then table else table[..size];
      && Table(window) && (forall x :: x in window ==> x in table)
      && forall x :: x in table ==> x in window || (|window| == size && forall y :: y in window ==> y.date < x.date)
  {
  }

  /** The single-anchor query answers the first rows dated on or after the anchor. */
  lemma {:induction false} QueryRows(rows: seq<Row>, anchor: int, to: int, size: nat)
    requires Table(rows) && forall x :: x in rows ==> x.date <= to
    ensures FirstRows(Window(rows, anchor, size), rows, anchor, to, size)
  {
    SinceItems(rows, anchor);
    SinceIsTable(rows, anchor);
    hide Since, Table;
    CutFrom(Since(rows, anchor), size);
  }

  /** A window of the range cut holds the first rows within the range, as many as there are up to
      the size. */
  lemma {:induction false} WindowRows(rows: seq<Row>, lo: int, hi: int, anchor: int, size: nat)
    requires Table(rows) && lo <= anchor <= hi
    ensures FirstRows(Window(Between(rows, lo, hi), anchor, size), rows, anchor, hi, size)
    ensures |Window(Between(rows, lo, hi), anchor, size)|
            == if |Dated(rows, anchor, hi)| < size then |Dated(rows, anchor, hi)| else size
  {
    var cut := Between(rows, lo, hi);
    BetweenItems(rows, lo, hi);
    hide Between, Table, Since, FirstRows, Dated;
    QueryRows(cut, anchor, hi, size);
    FirstOfCut(Window(cut, anchor, size), rows, cut, lo, hi, anchor, size);
    SinceItems(cut, anchor);
    SinceIsTable(cut, anchor);
    TableSize(Since(cut, anchor));
    SameDated(rows, cut, Since(cut, anchor), lo, hi, anchor);
  }

  lemma {:induction false} FirstOfCut(window: seq<Row>, rows: seq<Row>, cut: seq<Row>, lo: int, hi: int, anchor: int, size: nat)
    requires FirstRows(window, cut, anchor, hi, size) && lo <= anchor
    requires forall x :: x in cut <==> x in rows && lo <= x.date <= hi
    ensures FirstRows(window, rows, anchor, hi, size)
  {
    hide Table;
  }

  lemma {:induction false} SameDated(rows: seq<Row>, cut: seq<Row>, from: seq<Row>, lo: int, hi: int, anchor: int)
    requires forall x :: x in cut <==> x in rows && lo <= x.date <= hi
    requires lo <= anchor && forall x :: x in from <==> x in cut && anchor <= x.date
    ensures (set x | x in from) == Dated(rows, anchor, hi)
  {
  }

  // ---- the kline table ----------------------------------------------------------------------------

  /** Replaces the row of the date or puts a new one in its place. */
  function Upsert(rows: seq<Row>, row: Row): seq<Row> {
    if rows == [] then [row]
    else
      var init, last := rows[..|rows| - 1], rows[|rows| - 1];
      if last.date < row.date then rows + [row]
      else if last.date == row.date then init + [row]
      else Upsert(init, row) + [last]
  }

  /** Rows without a date are skipped. */
  function UpsertAll(rows: seq<Row>, remote: seq<RemoteRow>): seq<Row> {
    if remote == [] then rows
    else
      var before, last := UpsertAll(rows, remote[..|remote| - 1]), remote[|remote| - 1];
      if last.date.None? then before else Upsert(before, Row(last.date.value, last.close, last.vol))
  }

  lemma {:induction false} UpsertNothing(rows: seq<Row>)
    ensures UpsertAll(rows, []) == rows
  {
  }

  /** What the last remote row of the date says, if there is one. */
  function Sent(remote: seq<RemoteRow>, date: int): Option<Row> {
    if remote == [] then None
    else
      var last := remote[|remote| - 1];
      if last.date == Some(date) then Some(Row(date, last.close, last.vol)) else Sent(remote[..|remote| - 1], date)
  }

  /** Row k is the last one of the date. */
  predicate LastOfDate(remote: seq<RemoteRow>, date: int, k: nat) {
    && k < |remote| && remote[k].date == Some(date)
    && forall j :: k < j < |remote| ==> remote[j].date != Some(date)
  }

  /** The last row the remote sent for the date decides. */
  lemma {:induction false} SentIsLast(remote: seq<RemoteRow>, date: int)
    ensures Sent(remote, date).None? <==> forall k :: 0 <= k < |remote| ==> remote[k].date != Some(date)
    ensures forall k: nat :: LastOfDate(remote, date, k) ==> Sent(remote, date) == Some(Row(date, remote[k].close, remote[k].vol))
  {
    if remote != [] {
      var init, n := remote[..|remote| - 1], |remote| - 1;
      SentIsLast(init, date);
      assert forall k :: 0 <= k < n ==> init[k] == remote[k];
      forall k: nat | LastOfDate(remote, date, k)
        ensures Sent(remote, date) == Some(Row(date, remote[k].close, remote[k].vol))
      {
        if k < n {
          assert remote[n].date != Some(date) && LastOfDate(init, date, k);
        }
      }
    }
  }

  /** An upsert changes the row of its date and nothing else, and keeps one row per date. */
  lemma {:induction false} UpsertLaws(rows: seq<Row>, row: Row)
    requires Table(rows)
    ensures Table(Upsert(rows, row))
    ensures forall x :: x in Upsert(rows, row) <==> x == row || (x in rows && x.date != row.date)
  {
    if rows != [] {
      var init, last := rows[..|rows| - 1], rows[|rows| - 1];
      TableInit(rows);
      assert rows == init + [last];
      if last.date > row.date {
        UpsertLaws(init, row);
        forall i | 0 <= i < |Upsert(init, row)|
          ensures Upsert(init, row)[i].date < last.date
        {
          assert Upsert(init, row)[i] in Upsert(init, row);
        }
      } else if last.date == row.date {
        forall i | 0 <= i < |init|
          ensures init[i].date < row.date
        {
          assert init[i] in init;
        }
      } else {
        forall i | 0 <= i < |rows|
          ensures rows[i].date < row.date
        {
          assert rows[i] in rows;
        }
      }
    }
  }

  /** After an upsert of the remote rows a date has what the remote sent last for it, and any
      other date what it had. */
  lemma {:induction false} UpsertAllLaws(rows: seq<Row>, remote: seq<RemoteRow>)
    requires Table(rows)
    ensures Table(UpsertAll(rows, remote))
    ensures forall x :: x in UpsertAll(rows, remote) <==>
              if Sent(remote, x.date).Some? then x == Sent(remote, x.date).value else x in rows
  {
    if remote != [] {
      var last := remote[|remote| - 1];
      UpsertAllLaws(rows, remote[..|remote| - 1]);
      if last.date.Some? {
        UpsertLaws(UpsertAll(rows, remote[..|remote| - 1]), Row(last.date.value, last.close, last.vol));
      }
    }
  }

  lemma {:induction false} LastIsLatest(rows: seq<Row>)
    requires Table(rows) && rows != []
    ensures var last := rows[|rows| - 1];
            forall x :: x in rows ==> x.date <= last.date && (x.date == last.date ==> x == last)
  {
  }

  lemma {:induction false} RestByRows(a: seq<Row>, b: seq<Row>, x: Row)
    requires Table(a + [x]) && Table(b + [x]) && forall z :: z in a + [x] <==> z in b + [x]
    ensures Table(a) && Table(b) && forall z :: z in a <==> z in b
  {
    TableInit(a + [x]);
    TableInit(b + [x]);
    assert (a + [x])[..|a|] == a && (b + [x])[..|b|] == b;
    forall z
      ensures z in a <==> z in b
    {
      assert z in a + [x] <==> z in b + [x];
    }
  }

  lemma {:induction false} HasRow(rows: seq<Row>)
    ensures rows != [] ==> exists x :: x in rows
  {
    if rows != [] {
      assert rows[0] in rows;
    }
  }

  lemma {:induction false} NoRows(a: seq<Row>, b: seq<Row>)
    requires a == [] && forall x :: x in a <==> x in b
    ensures b == []
  {
    HasRow(b);
  }

  /** Two tables with the same rows are the same. */
  lemma {:induction false} TableByRows(a: seq<Row>, b: seq<Row>)
    requires Table(a) && Table(b) && forall x :: x in a <==> x in b
    ensures a == b
  {
    if a == [] {
      NoRows(a, b);
    } else if b == [] {
      NoRows(b, a);
    } else {
      var x, y := a[|a| - 1], b[|b| - 1];
      LastIsLatest(a);
      LastIsLatest(b);
      assert x in b && y in a;
      assert a == a[..|a| - 1] + [x] && b == b[..|b| - 1] + [x];
      RestByRows(a[..|a| - 1], b[..|b| - 1], x);
      TableByRows(a[..|a| - 1], b[..|b| - 1]);
    }
  }

  /** Storing the same rows again changes nothing. */
  lemma {:induction false} UpsertAllIsIdempotent(rows: seq<Row>, remote: seq<RemoteRow>)
    requires Table(rows)
    ensures UpsertAll(UpsertAll(rows, remote), remote) == UpsertAll(rows, remote)
  {
    UpsertAllLaws(rows, remote);
    UpsertAllLaws(UpsertAll(rows, remote), remote);
    TableByRows(UpsertAll(UpsertAll(rows, remote), remote), UpsertAll(rows, remote));
  }

  // ---- the loader -------------------------------------------------------------------------------------

  ghost predicate SpannedBy(anchors: seq<int>, lo: int, hi: int) {
    lo in anchors && hi in anchors && forall a :: a in anchors ==> lo <= a <= hi
  }

  /** Each anchor has its window of the range cut of the table. */
  ghost predicate Sliced(windows: map<int, seq<Row>>, rows: seq<Row>, anchors: seq<int>, lo: int, hi: int, size: nat) {
    && (forall a :: a in windows <==> a in anchors)
    && (forall a :: a in windows ==> windows[a] == Window(Between(rows, lo, hi + LOOKAHEAD), a, size))
    && forall a :: a in windows ==> FirstRows(windows[a], rows, a, hi + 30, size)
  }

  /** The klines if they have a row in the range, else the snapshots. */
  ghost function Source(klines: seq<Row>, snapshots: seq<Row>, lo: int, hi: int): seq<Row> {
    if exists x :: x in klines && lo <= x.date <= hi + 30 then klines else snapshots
  }

  /** Every anchor has enough rows from its date to 30 days behind the last anchor. */
  ghost predicate CutComplete(rows: seq<Row>, anchors: seq<int>, hi: int, size: nat) {
    forall a :: a in anchors ==> |Dated(rows, a, hi + 30)| >= size
  }

  /** When every anchor has enough rows within the range, the batch gives for each anchor date what the
      single-anchor query gives on the whole table. */
  lemma {:induction false} CompleteBatchIsQuery(windows: map<int, seq<Row>>, rows: seq<Row>, anchors: seq<int>, lo: int, hi: int, size: nat)
    requires Table(rows) && SpannedBy(anchors, lo, hi)
    requires Sliced(windows, rows, anchors, lo, hi, size) && CutComplete(rows, anchors, hi, size)
    ensures forall a :: a in anchors ==> a in windows && windows[a] == Window(rows, a, size)
  {
    forall a | a in anchors
      ensures a in windows && windows[a] == Window(rows, a, size)
    {
      WindowRows(rows, lo, hi + LOOKAHEAD, a, size);
      WindowOfCutIff(rows, lo, hi + LOOKAHEAD, a, size);
    }
  }

  function Present(dates: seq<Option<int>>): seq<int> {
    if dates == [] then []
    else
      var last := dates[|dates| - 1];
      Present(dates[..|dates| - 1]) + if last.Some? then [last.value] else []
  }

  lemma {:induction false} PresentItems(dates: seq<Option<int>>)
    ensures forall a :: a in Present(dates) <==> Some(a) in dates
  {
    if dates != [] {
      PresentItems(dates[..|dates| - 1]);
      assert dates == dates[..|dates| - 1] + [dates[|dates| - 1]];
    }
  }

  function Lowest(anchors: seq<int>): int
    requires anchors != []
  {
    if |anchors| == 1 then anchors[0]
    else
      var low := Lowest(anchors[1..]);
      if anchors[0] < low then anchors[0] else low
  }

  function Highest(anchors: seq<int>): int
    requires anchors != []
  {
    if |anchors| == 1 then anchors[0]
    else
      var high := Highest(anchors[1..]);
      if anchors[0] > high then anchors[0] else high
  }

  lemma {:induction false} Spans(anchors: seq<int>)
    requires anchors != []
    ensures SpannedBy(anchors, Lowest(anchors), Highest(anchors))
  {
    if |anchors| > 1 {
      Spans(anchors[1..]);
      assert anchors == [anchors[0]] + anchors[1..];
    }
  }

  class StockQuotes {
    var snapshots: seq<Row>
    var klines: seq<Row>

    constructor (snapshotRows: seq<Row>, klineRows: seq<Row>)
      requires Table(snapshotRows) && Table(klineRows)
      ensures Valid() && snapshots == snapshotRows && klines == klineRows
    {
      snapshots, klines := snapshotRows, klineRows;
    }

    ghost predicate Valid()
      reads this
    {
      Table(snapshots) && Table(klines)
    }

    /** Cuts the table to the range and slices it per anchor. */
    method Slice(rows: seq<Row>, anchors: seq<int>, lo: int, hi: int, size: nat)
        returns (windows: map<int, seq<Row>>, complete: bool, found: bool)
      requires Table(rows) && SpannedBy(anchors, lo, hi)
      ensures Sliced(windows, rows, anchors, lo, hi, size)
      ensures complete <==> CutComplete(rows, anchors, hi, size)
      ensures found <==> exists x :: x in rows && lo <= x.date <= hi + 30
    {
      var cut := Between(rows, lo, hi + LOOKAHEAD);
      BetweenItems(rows, lo, hi + LOOKAHEAD);
      ByDateOfTable(cut);
      forall a | a in anchors
        ensures FirstRows(Window(cut, a, size), rows, a, hi + 30, size)
        ensures |Window(cut, a, size)| >= size <==> |Dated(rows, a, hi + 30)| >= size
      {
        WindowRows(rows, lo, hi + LOOKAHEAD, a, size);
      }
      windows := SlicePriceWindows(cut, anchors, size);
      complete := AllWindowsComplete(windows, anchors, size);
      found := cut != [];
      assert found ==> cut[0] in cut;
    }

    /** The whole call: anchor dates that are missing are dropped, and none left means no windows. */
    method LoadPriceWindowsWithCompletion(anchorDates: seq<Option<int>>, size: nat, remote: Remote)
        returns (windows: map<int, seq<Row>>)
      requires Valid()
      modifies this
      ensures Valid() && snapshots == old(snapshots)
      ensures Present(anchorDates) == [] ==> windows == map[] && klines == old(klines)
      ensures forall a :: a in windows <==> Some(a) in anchorDates
      ensures var anchors := Present(anchorDates);
              anchors != [] && CutComplete(snapshots, anchors, Highest(anchors), size) ==>
                klines == old(klines) && forall a :: a in anchors ==> a in windows && windows[a] == Window(snapshots, a, size)
      // otherwise complete kline windows, and at last what the klines hold after storing what the remote sends
      ensures var anchors := Present(anchorDates);
              anchors != [] && !CutComplete(snapshots, anchors, Highest(anchors), size)
              && CutComplete(old(klines), anchors, Highest(anchors), size) ==>
                klines == old(klines) && forall a :: a in anchors ==> a in windows && windows[a] == Window(klines, a, size)
      ensures var anchors := Present(anchorDates);
              anchors != [] && !CutComplete(snapshots, anchors, Highest(anchors), size)
              && !CutComplete(old(klines), anchors, Highest(anchors), size) ==>
                && klines == (if remote.Sends? then UpsertAll(old(klines), remote.rows) else old(klines))
                && Sliced(windows, Source(klines, snapshots, Lowest(anchors), Highest(anchors)), anchors, Lowest(anchors), Highest(anchors), size)
    {
      PresentItems(anchorDates);
      var anchors := Present(anchorDates);
      hide *;
      if anchors == [] {
        return map[];
      }
      Spans(anchors);
      windows := CompleteWindows(anchors, Lowest(anchors), Highest(anchors), size, remote);
    }

    /** Snapshots if they fill every window, else the daily klines if they do, else the klines
        after storing what the remote sends, else whatever is there. */
    method CompleteWindows(anchors: seq<int>, lo: int, hi: int, size: nat, remote: Remote)
        returns (windows: map<int, seq<Row>>)
      requires Valid() && SpannedBy(anchors, lo, hi)
      modifies this
      ensures Valid() && snapshots == old(snapshots) && forall a :: a in windows <==> a in anchors
      // complete windows: the single-anchor query on the whole table, and nothing is stored
      ensures CutComplete(old(snapshots), anchors, hi, size) ==>
        klines == old(klines) && forall a :: a in anchors ==> a in windows && windows[a] == Window(snapshots, a, size)
      ensures !CutComplete(old(snapshots), anchors, hi, size) && CutComplete(old(klines), anchors, hi, size) ==>
        klines == old(klines) && forall a :: a in anchors ==> a in windows && windows[a] == Window(klines, a, size)
      // otherwise the remote is asked and what it sends is stored
      ensures !CutComplete(old(snapshots), anchors, hi, size) && !CutComplete(old(klines), anchors, hi, size) ==>
        klines == if remote.Sends? then UpsertAll(old(klines), remote.rows) else old(klines)
      ensures !CutComplete(old(snapshots), anchors, hi, size) && !CutComplete(old(klines), anchors, hi, size) ==>
        Sliced(windows, Source(klines, snapshots, lo, hi), anchors, lo, hi, size)
    {
      hide CutComplete, Sliced, Table, Window, UpsertAll, SpannedBy;
      UpsertNothing(klines);
      var snapshotWindows, complete, found := Slice(snapshots, anchors, lo, hi, size);
      if complete {
        CompleteBatchIsQuery(snapshotWindows, snapshots, anchors, lo, hi, size);
        return snapshotWindows;
      }
      var klineWindows;
      klineWindows, complete, found := Slice(klines, anchors, lo, hi, size);
      if complete {
        CompleteBatchIsQuery(klineWindows, klines, anchors, lo, hi, size);
        return klineWindows;
      }
      if remote.Sends? && remote.rows != [] {
        UpsertAllLaws(klines, remote.rows);
        klines := UpsertKlineRows(klines, remote.rows);
        var newWindows;
        newWindows, complete, found := Slice(klines, anchors, lo, hi, size);
        if found {
          return newWindows;
        }
      }
      return if found then klineWindows else snapshotWindows;
    }

    static method UpsertKlineRows(rows: seq<Row>, remote: seq<RemoteRow>) returns (rows': seq<Row>)
      ensures rows' == UpsertAll(rows, remote)
    {
      rows' := rows;
      for i := 0 to |remote|
        invariant rows' == UpsertAll(rows, remote[..i])
      {
        assert remote[..i + 1][..i] == remote[..i];
        if remote[i].date.None? {
          continue;
        }
        rows' := Upsert(rows', Row(remote[i].date.value, remote[i].close, remote[i].vol));
      }
      assert remote[..|remote|] == remote;
    }
  }
}
