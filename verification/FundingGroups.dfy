/** How the backtest divides its rows: which rows make one market, in which order they are walked, and in
    which order the markets come. */
module FundingGroups {
  import opened Sequences
  import opened StableSort
  import opened FundingTypes
  import opened FundingBacktest

  // ---- Market keys ----

  ghost predicate Plain(s: string) { ':' !in s }

  lemma SamePart(a: string, b: string, x: string, y: string)
    requires Plain(a) && Plain(b) && a + ":" + x == b + ":" + y
    ensures a == b && x == y
  {
    var s := a + ":" + x;
    assert s[|a|] == ':' && s[|b|] == ':';
    assert forall i :: 0 <= i < |a| ==> a[i] in a && s[i] == a[i];
    assert forall i :: 0 <= i < |b| ==> b[i] in b && s[i] == b[i];
    assert a == s[..|a|] && b == s[..|b|];
    assert x == s[|a| + 1..] && y == s[|b| + 1..];
  }

  /** Two rows are of one market exactly when they agree on exchange, spot symbol and perp symbol, as long as
      the first two hold no colon. */
  lemma OneMarketIff(a: Row, b: Row)
    requires Plain(a.exchange) && Plain(b.exchange) && Plain(a.spotSymbol) && Plain(b.spotSymbol)
    ensures MarketKey(a) == MarketKey(b) <==>
            a.exchange == b.exchange && a.spotSymbol == b.spotSymbol && a.perpSymbol == b.perpSymbol
  {
    var x, y := a.spotSymbol + ":" + a.perpSymbol, b.spotSymbol + ":" + b.perpSymbol;
    assert MarketKey(a) == a.exchange + ":" + x && MarketKey(b) == b.exchange + ":" + y;
    if MarketKey(a) == MarketKey(b) {
      SamePart(a.exchange, b.exchange, x, y);
      SamePart(a.spotSymbol, b.spotSymbol, a.perpSymbol, b.perpSymbol);
    }
  }

  // ---- The rows of a market ----

  /** Where the rows of a market stand in the input. */
  ghost predicate Picks(rows: seq<Row>, market: string, at: seq<nat>, picked: seq<Row>) {
    && |at| == |picked|
    && (forall k :: 0 <= k < |at| ==> at[k] < |rows| && rows[at[k]] == picked[k])
    && (forall j, k :: 0 <= j < k < |at| ==> at[j] < at[k])
    && (forall i :: 0 <= i < |rows| ==> (i in at <==> MarketKey(rows[i]) == market))
  }

  /** A market gets exactly the rows with its key, each once and in input order. */
  lemma {:induction false} RowsOfPicks(rows: seq<Row>, market: string) returns (at: seq<nat>)
    ensures Picks(rows, market, at, RowsOf(rows, market))
  {
    hide MarketKey;
    at := [];
    if rows != [] {
      var n := |rows| - 1;
      at := RowsOfPicks(rows[..n], market);
      assert forall k :: 0 <= k < |at| ==> at[k] in at;
      if MarketKey(rows[n]) == market { at := at + [n]; }
    }
  }

  /** Seen for the first time at this place. */
  ghost predicate FirstAt(rows: seq<Row>, i: nat, market: string) {
    i < |rows| && MarketKey(rows[i]) == market && forall j :: 0 <= j < i ==> MarketKey(rows[j]) != market
  }

  /** The markets in the order in which their first rows stand, at the places `at`. */
  ghost predicate FirstRows(rows: seq<Row>, markets: seq<string>, at: seq<nat>) {
    && |at| == |markets|
    && (forall k :: 0 <= k < |at| ==> FirstAt(rows, at[k], markets[k]))
    && (forall j, k :: 0 <= j < k < |at| ==> at[j] < at[k])
    && (forall i :: 0 <= i < |rows| ==> MarketKey(rows[i]) in markets)
  }

  lemma FirstStays(rows: seq<Row>, row: Row, i: nat, market: string)
    requires FirstAt(rows, i, market)
    ensures FirstAt(rows + [row], i, market)
  {
  }

  lemma NewMarket(rows: seq<Row>, row: Row, markets: seq<string>)
    requires (forall i :: 0 <= i < |rows| ==> MarketKey(rows[i]) in markets) && MarketKey(row) !in markets
    ensures FirstAt(rows + [row], |rows|, MarketKey(row))
  {
    hide MarketKey;
  }

  lemma FirstRowsSnoc(rows: seq<Row>, row: Row, markets: seq<string>, at: seq<nat>)
    requires FirstRows(rows, markets, at)
    ensures if MarketKey(row) in markets then FirstRows(rows + [row], markets, at)
            else FirstRows(rows + [row], markets + [MarketKey(row)], at + [|rows|])
  {
    if MarketKey(row) !in markets { NewMarket(rows, row, markets); }
    assert forall k :: 0 <= k < |at| ==> at[k] < |rows|;
    forall k | 0 <= k < |at| ensures FirstAt(rows + [row], at[k], markets[k]) { FirstStays(rows, row, at[k], markets[k]); }
    hide MarketKey, FirstAt;
  }

  /** The markets come each once, in the order in which their first rows stand in the input. */
  lemma {:induction false} MarketsByFirstRow(rows: seq<Row>) returns (at: seq<nat>)
    ensures FirstRows(rows, Markets(rows), at)
  {
    hide MarketKey, FirstRows;
    if rows == [] {
      at := [];
      assert FirstRows([], [], []) by { NoRows(); }
    } else {
      var front, row := rows[..|rows| - 1], rows[|rows| - 1];
      assert rows == front + [row];
      at := MarketsByFirstRow(front);
      FirstRowsSnoc(front, row, Markets(front), at);
      if MarketKey(row) !in Markets(front) { at := at + [|front|]; }
    }
  }

  lemma NoRows()
    ensures FirstRows([], [], [])
  {
  }

  // ---- The order of a market's rows ----

  lemma TimeOrderIsPreorder()
    ensures TotalPreorder(NotLater)
  {
  }

  /** A row without a time, or with a time of zero, counts as time zero. */
  function TimeOf(row: Row): real { if row.ts.Some? then row.ts.value else 0.0 }

  /** A market's rows are walked by time, each once, and rows of one time in input order. */
  lemma HistoryIsInTimeOrder(rows: seq<Row>, r: Row)
    ensures var sorted := Sort(rows, NotLater);
            && (forall i, j :: 0 <= i < j < |sorted| ==> TimeOf(sorted[i]) <= TimeOf(sorted[j]))
            && multiset(sorted) == multiset(rows)
            && Ties(sorted, r, NotLater) == Ties(rows, r, NotLater)
  {
    hide Sort, Ties, Sorted, TotalPreorder, TimeOf;
    TimeOrderIsPreorder();
    SortIsOrderedPermutation(rows, NotLater);
    SortIsStable(rows, r, NotLater);
    InOrder(Sort(rows, NotLater));
  }

  lemma InOrder(rows: seq<Row>)
    requires Sorted(rows, NotLater)
    ensures forall i, j :: 0 <= i < j < |rows| ==> TimeOf(rows[i]) <= TimeOf(rows[j])
  {
    forall i, j | 0 <= i < j < |rows| ensures TimeOf(rows[i]) <= TimeOf(rows[j]) { assert NotLater(rows[i], rows[j]); }
  }

  /** Ties are the rows of one time. */
  lemma {:induction false} TiesAreOneTime(rows: seq<Row>, r: Row)
    ensures forall x :: x in Ties(rows, r, NotLater) <==> x in rows && TimeOf(x) == TimeOf(r)
  {
    if rows != [] {
      TiesAreOneTime(rows[..|rows| - 1], r);
      assert rows == rows[..|rows| - 1] + [rows[|rows| - 1]];
    }
  }
}
