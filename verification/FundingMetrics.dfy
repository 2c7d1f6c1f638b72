/** Aggregates of a finished backtest: totals, equity and hourly windows. */
module FundingMetrics {
  import opened Sequences
  import opened StableSort
  import opened FundingTypes
  import opened FundingPosition
  import opened FundingBacktest
  import opened EquityCurve

  function Nets(trades: seq<Trade>): (r: seq<real>)
    ensures |r| == |trades|
  {
    seq(|trades|, i requires 0 <= i < |trades| => trades[i].net)
  }

  function NetTotal(trades: seq<Trade>): real {
    if trades == [] then 0.0 else NetTotal(trades[..|trades| - 1]) + trades[|trades| - 1].net
  }

  function FundingTotal(trades: seq<Trade>): real {
    if trades == [] then 0.0 else FundingTotal(trades[..|trades| - 1]) + trades[|trades| - 1].fundingPnl
  }

  function BasisTotal(trades: seq<Trade>): real {
    if trades == [] then 0.0 else BasisTotal(trades[..|trades| - 1]) + trades[|trades| - 1].basisPnl
  }

  function FeesTotal(trades: seq<Trade>): real {
    if trades == [] then 0.0 else FeesTotal(trades[..|trades| - 1]) + trades[|trades| - 1].fees
  }

  function SlippageTotal(trades: seq<Trade>): real {
    if trades == [] then 0.0 else SlippageTotal(trades[..|trades| - 1]) + trades[|trades| - 1].slippage
  }

  ghost predicate Balanced(t: Trade) { t.net == t.fundingPnl + t.basisPnl - t.fees - t.slippage }

  lemma {:induction false} TotalsBalance(trades: seq<Trade>)
    requires forall t :: t in trades ==> Balanced(t)
    ensures NetTotal(trades) == FundingTotal(trades) + BasisTotal(trades) - FeesTotal(trades) - SlippageTotal(trades)
  {
    if trades != [] {
      TotalsBalance(trades[..|trades| - 1]);
      assert Balanced(trades[|trades| - 1]);
    }
  }

  lemma {:induction false} WalkTradesBalance(market: string, cfg: Config, stats: Statistics, rows: seq<Row>)
    ensures forall t :: t in WalkRows(market, cfg, stats, rows).trades ==> Balanced(t)
  {
    hide EntryAllowed;
    hide ExitReason;
    hide Accrued;
    if rows != [] {
      WalkTradesBalance(market, cfg, stats, rows[..|rows| - 1]);
    }
  }

  lemma {:induction false} TradesOverBalance(markets: seq<string>, cfg: Config, stats: Statistics, rows: seq<Row>)
    ensures forall t :: t in TradesOver(markets, cfg, stats, rows) ==> Balanced(t)
  {
    if markets != [] {
      var m := markets[|markets| - 1];
      TradesOverBalance(markets[..|markets| - 1], cfg, stats, rows);
      WalkTradesBalance(m, cfg, stats, Sort(RowsOf(rows, m), NotLater));
    }
  }

  /** In aggregate the net result is funding plus basis minus fees minus slippage. */
  lemma AggregateIdentity(cfg: Config, stats: Statistics, rows: seq<Row>)
    ensures var ts := AllTrades(cfg, stats, rows);
            NetTotal(ts) == FundingTotal(ts) + BasisTotal(ts) - FeesTotal(ts) - SlippageTotal(ts)
  {
    TradesOverBalance(Markets(rows), cfg, stats, rows);
    TotalsBalance(AllTrades(cfg, stats, rows));
  }

  // ---- The equity curve ----

  predicate ExitsNotLater(a: Trade, b: Trade) {
    a.exitTs < b.exitTs || (a.exitTs == b.exitTs && TextNotAbove(a.market, b.market))
  }

  lemma {:induction false} NetTotalIsSum(trades: seq<Trade>)
    ensures NetTotal(trades) == SumReals(Nets(trades))
  {
    if trades != [] {
      NetTotalIsSum(trades[..|trades| - 1]);
      assert Nets(trades)[..|trades| - 1] == Nets(trades[..|trades| - 1]);
    }
  }

  lemma {:induction false} NetTotalInsert(trades: seq<Trade>, t: Trade)
    ensures NetTotal(Insert(trades, t, ExitsNotLater)) == NetTotal(trades) + t.net
  {
    if trades == [] || ExitsNotLater(trades[|trades| - 1], t) {
      assert (trades + [t])[..|trades|] == trades;
    } else {
      var front := Insert(trades[..|trades| - 1], t, ExitsNotLater);
      NetTotalInsert(trades[..|trades| - 1], t);
      assert (front + [trades[|trades| - 1]])[..|front|] == front;
    }
  }

  lemma {:induction false} NetTotalSorted(trades: seq<Trade>)
    ensures NetTotal(Sort(trades, ExitsNotLater)) == NetTotal(trades)
  {
    if trades != [] {
      NetTotalSorted(trades[..|trades| - 1]);
      NetTotalInsert(Sort(trades[..|trades| - 1], ExitsNotLater), trades[|trades| - 1]);
    }
  }

  lemma ExitOrderIsPreorder()
    ensures TotalPreorder(ExitsNotLater)
  {
    forall x: Trade, y: Trade ensures ExitsNotLater(x, y) || ExitsNotLater(y, x) {
      TextTotal(x.market, y.market);
    }
    forall x: Trade, y: Trade, z: Trade | ExitsNotLater(x, y) && ExitsNotLater(y, z) ensures ExitsNotLater(x, z) {
      if x.exitTs == y.exitTs == z.exitTs { TextTransitive(x.market, y.market, z.market); }
    }
  }

  /** The curve runs over all trades, each once, by exit time and then market. */
  lemma CurveIsInExitOrder(trades: seq<Trade>)
    ensures var sorted := Sort(trades, ExitsNotLater);
            && multiset(sorted) == multiset(trades)
            && forall i, j :: 0 <= i < j < |sorted| ==>
                 || sorted[i].exitTs < sorted[j].exitTs
                 || (sorted[i].exitTs == sorted[j].exitTs && TextNotAbove(sorted[i].market, sorted[j].market))
  {
    ExitOrderIsPreorder();
    SortIsOrderedPermutation(trades, ExitsNotLater);
    var sorted := Sort(trades, ExitsNotLater);
    hide Sort, TextNotAbove;
    assert forall i, j :: 0 <= i < j < |sorted| ==> ExitsNotLater(sorted[i], sorted[j]);
  }

  /** The ending equity, taken from the curve in exit order, is the net total taken in trade order,
      and the reported drawdown is the largest fall between any two points of that curve. */
  method Summarize(trades: seq<Trade>) returns (net: real, ending: real, maxDrawdown: real)
    ensures net == NetTotal(trades) && ending == net
    ensures IsMaxDrawdown(Nets(Sort(trades, ExitsNotLater)), |trades|, maxDrawdown)
  {
    var sorted := Sort(trades, ExitsNotLater);
    var values := Nets(sorted);
    var curve := BuildCurve(values);
    net := 0.0;
    for i := 0 to |trades|
      invariant net == NetTotal(trades[..i])
    {
      assert trades[..i + 1][..i] == trades[..i];
      net := net + trades[i].net;
    }
    assert trades[..|trades|] == trades;
    ending := if curve != [] then curve[|curve| - 1].cumulative else 0.0;
    maxDrawdown := 0.0;
    for i := 0 to |curve|
      invariant maxDrawdown == LargestDrawdown(curve[..i])
    {
      assert curve[..i + 1][..i] == curve[..i];
      maxDrawdown := Max(maxDrawdown, curve[i].drawdown);
    }
    CurveDrawdownIsPairwise(values, curve, |curve|);
    NetTotalSorted(trades);
    NetTotalIsSum(sorted);
    assert values[..|values|] == values;
  }

  // ---- Hourly windows ----

  function Bucket(t: Trade, windowSec: real): int { (t.exitTs / Max(windowSec, 1.0)).Floor }

  function WindowStart(bucket: int, w: real): real { bucket as real * w }

  lemma WithinWindow(bucket: int, q: real, w: real)
    requires w > 0.0 && bucket as real <= q < (bucket + 1) as real
    ensures WindowStart(bucket, w) <= q * w < WindowStart(bucket + 1, w)
  {
    if bucket as real < q { MulStrict(bucket as real, q, w); }
    MulStrict(q, (bucket + 1) as real, w);
  }

  lemma Quotient(x: real, w: real)
    requires w > 0.0
    ensures x / w * w == x
  {
  }

  /** A trade belongs to the window, counted from the epoch, in which it exits; none is shorter than a second. */
  lemma WindowHoldsExit(t: Trade, windowSec: real)
    ensures var w := if windowSec > 1.0 then windowSec else 1.0;
            WindowStart(Bucket(t, windowSec), w) <= t.exitTs < WindowStart(Bucket(t, windowSec) + 1, w)
  {
    var w := if windowSec > 1.0 then windowSec else 1.0;
    assert w == Max(windowSec, 1.0);
    Quotient(t.exitTs, w);
    WithinWindow(Bucket(t, windowSec), t.exitTs / w, w);
    hide WindowStart;
  }

  function WindowNet(trades: seq<Trade>, windowSec: real, bucket: int): real {
    if trades == [] then 0.0
    else WindowNet(trades[..|trades| - 1], windowSec, bucket)
         + if Bucket(trades[|trades| - 1], windowSec) == bucket then trades[|trades| - 1].net else 0.0
  }

  function WindowCount(trades: seq<Trade>, windowSec: real, bucket: int): nat {
    if trades == [] then 0
    else WindowCount(trades[..|trades| - 1], windowSec, bucket)
         + if Bucket(trades[|trades| - 1], windowSec) == bucket then 1 else 0
  }

  method WindowMetrics(trades: seq<Trade>, windowSec: real) returns (pnl: map<int, real>, counts: map<int, nat>)
    ensures pnl.Keys == counts.Keys
    ensures forall t :: t in trades ==> Bucket(t, windowSec) in pnl
    ensures forall b :: b in pnl ==> pnl[b] == WindowNet(trades, windowSec, b) && counts[b] == WindowCount(trades, windowSec, b)
    ensures forall b :: b in pnl ==> counts[b] > 0
  {
    hide Bucket;
    pnl, counts := map[], map[];
    for i := 0 to |trades|
      invariant pnl.Keys == counts.Keys
      invariant forall t :: t in trades[..i] ==> Bucket(t, windowSec) in pnl
      invariant forall b :: b in pnl ==>
                  pnl[b] == WindowNet(trades[..i], windowSec, b) && counts[b] == WindowCount(trades[..i], windowSec, b)
      invariant forall b :: b !in pnl ==>
                  WindowNet(trades[..i], windowSec, b) == 0.0 && WindowCount(trades[..i], windowSec, b) == 0
      invariant forall b :: b in pnl ==> counts[b] > 0
    {
      assert trades[..i + 1][..i] == trades[..i];
      var b := Bucket(trades[i], windowSec);
      pnl := pnl[b := (if b in pnl then pnl[b] else 0.0) + trades[i].net];
      counts := counts[b := (if b in counts then counts[b] else 0) + 1];
    }
    assert trades[..|trades|] == trades;
  }

  function WindowNets(trades: seq<Trade>, windowSec: real, buckets: seq<int>): real {
    if buckets == [] then 0.0
    else WindowNets(trades, windowSec, buckets[..|buckets| - 1]) + WindowNet(trades, windowSec, buckets[|buckets| - 1])
  }

  function WindowCounts(trades: seq<Trade>, windowSec: real, buckets: seq<int>): nat {
    if buckets == [] then 0
    else WindowCounts(trades, windowSec, buckets[..|buckets| - 1]) + WindowCount(trades, windowSec, buckets[|buckets| - 1])
  }

  ghost predicate DistinctBuckets(buckets: seq<int>) {
    buckets != [] ==> buckets[|buckets| - 1] !in buckets[..|buckets| - 1] && DistinctBuckets(buckets[..|buckets| - 1])
  }

  lemma {:induction false} WindowsOfSnoc(trades: seq<Trade>, t: Trade, windowSec: real, buckets: seq<int>)
    requires DistinctBuckets(buckets)
    ensures WindowNets(trades + [t], windowSec, buckets)
         == WindowNets(trades, windowSec, buckets) + if Bucket(t, windowSec) in buckets then t.net else 0.0
    ensures WindowCounts(trades + [t], windowSec, buckets)
         == WindowCounts(trades, windowSec, buckets) + if Bucket(t, windowSec) in buckets then 1 else 0
  {
    hide Bucket;
    if buckets != [] {
      assert (trades + [t])[..|trades|] == trades;
      WindowsOfSnoc(trades, t, windowSec, buckets[..|buckets| - 1]);
    }
  }

  /** The windows partition the trades: over any distinct buckets that cover them, in whatever order
      they are reported, the window results sum to the net total and the counts to the trade count. */
  lemma {:induction false} WindowsPartitionTrades(trades: seq<Trade>, windowSec: real, buckets: seq<int>)
    requires DistinctBuckets(buckets)
    requires forall t :: t in trades ==> Bucket(t, windowSec) in buckets
    ensures WindowNets(trades, windowSec, buckets) == NetTotal(trades)
    ensures WindowCounts(trades, windowSec, buckets) == |trades|
  {
    if trades == [] {
      NoTradesNoWindows(windowSec, buckets);
    } else {
      var front, t := trades[..|trades| - 1], trades[|trades| - 1];
      WindowsPartitionTrades(front, windowSec, buckets);
      WindowsOfSnoc(front, t, windowSec, buckets);
      assert trades == front + [t];
    }
  }

  lemma {:induction false} NoTradesNoWindows(windowSec: real, buckets: seq<int>)
    ensures WindowNets([], windowSec, buckets) == 0.0 && WindowCounts([], windowSec, buckets) == 0
  {
    if buckets != [] {
      NoTradesNoWindows(windowSec, buckets[..|buckets| - 1]);
    }
  }
}
