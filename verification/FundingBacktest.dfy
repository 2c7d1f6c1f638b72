/** The backtest over all markets: grouping, the walk over each market's rows, and causality. */
module FundingBacktest {
  import opened Sequences
  import opened StableSort
  import opened FundingTypes
  import opened FundingPosition

  /** The rolling statistics of a row are some fixed function of the market's rows up to it. */
  type Statistics = seq<Row> -> Rolling

  /** Where the walk over a market stands: the open position, if any, and the finished trades. */
  datatype Walk = Walk(position: Option<Position>, trades: seq<Trade>)

  function WalkRow(market: string, cfg: Config, w: Walk, v: View): Walk {
    if w.position.Some? then
      var held := Accrued(w.position.value, v.row);
      var reason := ExitReason(v, cfg);
      if reason != "" then Walk(None, w.trades + [Close(held, v.row, cfg, reason)])
      else Walk(Some(held), w.trades)
    else if EntryAllowed(v, cfg) then Walk(Some(Open(market, v.row, cfg)), w.trades)
    else w
  }

  /** The walk over rows already in time order. */
  function WalkRows(market: string, cfg: Config, stats: Statistics, rows: seq<Row>): Walk {
    if rows == [] then Walk(None, [])
    else WalkRow(market, cfg, WalkRows(market, cfg, stats, rows[..|rows| - 1]), View(rows[|rows| - 1], stats(rows)))
  }

  /** The trades that ended by themselves. */
  function EndedTrades(market: string, cfg: Config, stats: Statistics, rows: seq<Row>): seq<Trade> {
    WalkRows(market, cfg, stats, Sort(rows, NotLater)).trades
  }

  /** All trades of a market: a position still open after the last row is closed there. */
  function MarketTrades(market: string, cfg: Config, stats: Statistics, rows: seq<Row>): seq<Trade> {
    var sorted := Sort(rows, NotLater);
    var w := WalkRows(market, cfg, stats, sorted);
    if w.position.Some? && rows != []
    then w.trades + [Close(w.position.value, sorted[|sorted| - 1], cfg, "force_end")]
    else w.trades
  }

  // ---- Grouping by market ----

  function RowsOf(rows: seq<Row>, market: string): seq<Row> {
    if rows == [] then []
    else RowsOf(rows[..|rows| - 1], market)
         + if MarketKey(rows[|rows| - 1]) == market then [rows[|rows| - 1]] else []
  }

  /** The markets in order of first appearance. */
  function Markets(rows: seq<Row>): seq<string> {
    if rows == [] then []
    else
      var before, key := Markets(rows[..|rows| - 1]), MarketKey(rows[|rows| - 1]);
      if key in before then before else before + [key]
  }

  function TradesOver(markets: seq<string>, cfg: Config, stats: Statistics, rows: seq<Row>): seq<Trade> {
    if markets == [] then []
    else
      var m := markets[|markets| - 1];
      TradesOver(markets[..|markets| - 1], cfg, stats, rows) + MarketTrades(m, cfg, stats, RowsOf(rows, m))
  }

  function AllTrades(cfg: Config, stats: Statistics, rows: seq<Row>): seq<Trade> {
    TradesOver(Markets(rows), cfg, stats, rows)
  }

  method WalkMarket(market: string, cfg: Config, stats: Statistics, rows: seq<Row>) returns (trades: seq<Trade>)
    ensures trades == MarketTrades(market, cfg, stats, rows)
  {
    hide EntryAllowed;
    hide ExitReason;
    hide Accrued;
    hide Close;
    hide Open;
    var sorted := Sort(rows, NotLater);
    var position: Option<Position> := None;
    trades := [];
    var history: seq<Row> := [];
    for i := 0 to |sorted|
      invariant history == sorted[..i]
      invariant Walk(position, trades) == WalkRows(market, cfg, stats, sorted[..i])
    {
      assert sorted[..i + 1][..i] == sorted[..i];
      history := history + [sorted[i]];
      assert history == sorted[..i + 1];
      var v := View(sorted[i], stats(history));
      var closed := false;
      if position.Some? {
        var held := AccrueFunding(position.value, v.row);
        position := Some(held);
        var reason := ExitReason(v, cfg);
        if reason != "" {
          trades := trades + [Close(held, v.row, cfg, reason)];
          position := None;
          closed := true;
        }
      }
      if !closed && position.None? && EntryAllowed(v, cfg) {
        EntryIsNoExit(v, cfg);
        position := Some(Open(market, v.row, cfg));
      }
    }
    assert sorted[..|sorted|] == sorted;
    if position.Some? && sorted != [] {
      trades := trades + [Close(position.value, sorted[|sorted| - 1], cfg, "force_end")];
    }
  }

  method GroupByMarket(rows: seq<Row>) returns (grouped: map<string, seq<Row>>, order: seq<string>)
    ensures order == Markets(rows)
    ensures forall m :: m in order ==> m in grouped && grouped[m] == RowsOf(rows, m)
  {
    grouped, order := map[], [];
    for i := 0 to |rows|
      invariant order == Markets(rows[..i])
      invariant forall m :: m in grouped <==> m in order
      invariant forall m :: m in grouped ==> grouped[m] == RowsOf(rows[..i], m)
      invariant forall m :: m !in order ==> RowsOf(rows[..i], m) == []
    {
      hide MarketKey;
      assert rows[..i + 1][..i] == rows[..i];
      var key := MarketKey(rows[i]);
      if key !in grouped {
        order := order + [key];
        grouped := grouped[key := [rows[i]]];
      } else {
        grouped := grouped[key := grouped[key] + [rows[i]]];
      }
    }
    assert rows[..|rows|] == rows;
  }

  method RunFundingBacktest(cfg: Config, stats: Statistics, rows: seq<Row>) returns (trades: seq<Trade>)
    ensures trades == AllTrades(cfg, stats, rows)
  {
    hide MarketTrades;
    hide RowsOf;
    hide Markets;
    var grouped, order := GroupByMarket(rows);
    trades := [];
    for j := 0 to |order|
      invariant trades == TradesOver(order[..j], cfg, stats, rows)
    {
      assert order[..j + 1][..j] == order[..j];
      var some := WalkMarket(order[j], cfg, stats, grouped[order[j]]);
      trades := trades + some;
    }
    assert order[..|order|] == order;
  }

  // ---- Causality and isolation ----

  /** Rows that come after do not rewrite what the walk did before them. */
  lemma {:induction false} WalkIsCausal(market: string, cfg: Config, stats: Statistics, rows: seq<Row>, later: seq<Row>)
    ensures WalkRows(market, cfg, stats, rows).trades <= WalkRows(market, cfg, stats, rows + later).trades
  {
    if later == [] {
      assert rows + later == rows;
    } else {
      var before := later[..|later| - 1];
      assert (rows + later)[..|rows + later| - 1] == rows + before;
      WalkIsCausal(market, cfg, stats, rows, before);
    }
  }

  lemma {:induction false} RowsOfConcat(a: seq<Row>, b: seq<Row>, market: string)
    ensures RowsOf(a + b, market) == RowsOf(a, market) + RowsOf(b, market)
  {
    if b == [] {
      assert a + b == a;
    } else {
      assert (a + b)[..|a + b| - 1] == a + b[..|b| - 1];
      RowsOfConcat(a, b[..|b| - 1], market);
    }
  }

  lemma {:induction false} RowsOfMembers(rows: seq<Row>, market: string)
    ensures forall r :: r in RowsOf(rows, market) ==> r in rows && MarketKey(r) == market
  {
    if rows != [] {
      RowsOfMembers(rows[..|rows| - 1], market);
    }
  }

  /** Backtest causality: however the old and new rows of all markets are interleaved on input, rows
      of a market that are not earlier than its old ones leave the trades that had ended in it as a
      prefix of the new ones. */
  lemma BacktestIsCausal(market: string, cfg: Config, stats: Statistics, rows: seq<Row>, later: seq<Row>)
    requires forall x, y :: x in rows && y in later && MarketKey(x) == market && MarketKey(y) == market ==> NotLater(x, y)
    ensures EndedTrades(market, cfg, stats, RowsOf(rows, market))
         <= EndedTrades(market, cfg, stats, RowsOf(rows + later, market))
  {
    RowsOfConcat(rows, later, market);
    RowsOfMembers(rows, market);
    RowsOfMembers(later, market);
    SortConcat(RowsOf(rows, market), RowsOf(later, market), NotLater);
    WalkIsCausal(market, cfg, stats, Sort(RowsOf(rows, market), NotLater), Sort(RowsOf(later, market), NotLater));
  }

  function TradesIn(trades: seq<Trade>, market: string): seq<Trade> {
    if trades == [] then []
    else TradesIn(trades[..|trades| - 1], market)
         + if trades[|trades| - 1].market == market then [trades[|trades| - 1]] else []
  }

  lemma {:induction false} TradesInConcat(a: seq<Trade>, b: seq<Trade>, market: string)
    ensures TradesIn(a + b, market) == TradesIn(a, market) + TradesIn(b, market)
  {
    if b == [] {
      assert a + b == a;
    } else {
      assert (a + b)[..|a + b| - 1] == a + b[..|b| - 1];
      TradesInConcat(a, b[..|b| - 1], market);
    }
  }

  lemma {:induction false} TradesInUniform(trades: seq<Trade>, own: string, market: string)
    requires forall t :: t in trades ==> t.market == own
    ensures TradesIn(trades, market) == if own == market then trades else []
  {
    if trades != [] {
      TradesInUniform(trades[..|trades| - 1], own, market);
    }
  }

  lemma {:induction false} WalkTradesItsMarket(market: string, cfg: Config, stats: Statistics, rows: seq<Row>)
    ensures var w := WalkRows(market, cfg, stats, rows);
            (forall t :: t in w.trades ==> t.market == market) && (w.position.Some? ==> w.position.value.market == market)
  {
    if rows != [] {
      WalkTradesItsMarket(market, cfg, stats, rows[..|rows| - 1]);
    }
  }

  ghost predicate NoRepeats(markets: seq<string>) {
    markets != [] ==> markets[|markets| - 1] !in markets[..|markets| - 1] && NoRepeats(markets[..|markets| - 1])
  }

  lemma {:induction false} TradesOverSplit(markets: seq<string>, cfg: Config, stats: Statistics, rows: seq<Row>, market: string)
    requires NoRepeats(markets)
    ensures TradesIn(TradesOver(markets, cfg, stats, rows), market)
         == if market in markets then MarketTrades(market, cfg, stats, RowsOf(rows, market)) else []
  {
    if markets != [] {
      hide MarketTrades;
      hide RowsOf;
      hide TradesIn;
      hide Markets;
      var m, rest := markets[|markets| - 1], markets[..|markets| - 1];
      TradesOverSplit(rest, cfg, stats, rows, market);
      var own := MarketTrades(m, cfg, stats, RowsOf(rows, m));
      TradesInConcat(TradesOver(rest, cfg, stats, rows), own, market);
      OwnTrades(m, cfg, stats, rows, market);
      assert market in markets <==> market in rest || market == m;
    }
  }

  lemma {:induction false} OwnTrades(m: string, cfg: Config, stats: Statistics, rows: seq<Row>, market: string)
    ensures var own := MarketTrades(m, cfg, stats, RowsOf(rows, m));
            TradesIn(own, market) == if m == market then own else []
  {
    WalkTradesItsMarket(m, cfg, stats, Sort(RowsOf(rows, m), NotLater));
    TradesInUniform(MarketTrades(m, cfg, stats, RowsOf(rows, m)), m, market);
  }

  lemma {:induction false} MarketsAreDistinct(rows: seq<Row>)
    ensures NoRepeats(Markets(rows))
    ensures forall m :: m !in Markets(rows) ==> RowsOf(rows, m) == []
  {
    if rows != [] {
      var before, key := Markets(rows[..|rows| - 1]), MarketKey(rows[|rows| - 1]);
      MarketsAreDistinct(rows[..|rows| - 1]);
      if key !in before {
        assert (before + [key])[..|before|] == before;
      }
    }
  }

  /** Isolation: in the whole backtest a market's trades are those of the market run on its own rows
      alone, so rows of other markets can neither add, remove, reorder nor change them. */
  lemma {:induction false} MarketsAreIndependent(cfg: Config, stats: Statistics, rows: seq<Row>, market: string)
    ensures TradesIn(AllTrades(cfg, stats, rows), market) == MarketTrades(market, cfg, stats, RowsOf(rows, market))
  {
    MarketsAreDistinct(rows);
    TradesOverSplit(Markets(rows), cfg, stats, rows, market);
    if market !in Markets(rows) {
      assert Sort(RowsOf(rows, market), NotLater) == [];
    }
  }

  /** No trade is opened on the row that closed the one before: consecutive trades of a market
      never share a row, because an exit row admits no entry. */
  lemma ClosingRowOpensNothing(market: string, cfg: Config, w: Walk, v: View)
    requires w.position.Some? && ExitReason(v, cfg) != ""
    ensures WalkRow(market, cfg, w, v).position.None? && WalkRow(market, cfg, Walk(None, w.trades), v).position.None?
  {
    EntryIsNoExit(v, cfg);
  }
}
