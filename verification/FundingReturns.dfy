/** What a trade of the backtest earns, told from the fields of its rows: when it is paid funding and at
    which rates, what its two legs return, and what it costs. */
module FundingReturns {
  import opened Sequences
  import opened StableSort
  import opened FundingTypes
  import opened FundingPosition
  import opened FundingBacktest
  import opened FundingTrades

  predicate Given(x: Option<real>) { x.Some? && x.value != 0.0 }

  // ---- The course of a position: what is known of funding after each of its rows ----

  datatype Course = Course(ts: real, rate: real, interval: real, next: Option<real>, due: nat)

  ghost predicate StartsAt(row: Row, c: Course) {
    && c.ts == (if Given(row.ts) then row.ts.value else 0.0)
    && c.rate == (if Given(row.fundingRate) then row.fundingRate.value else 0.0)
    && c.interval == Max(if Given(row.fundingInterval) then row.fundingInterval.value else 28_800.0, 1.0)
    && (forall n :: c.next == Some(n) <==> row.nextFundingTs == Some(n) && n > c.ts)
    && c.due == 0
  }

  /** The time `count` intervals after another. */
  function Ahead(ts: real, count: nat, interval: real): real { ts + count as real * interval }

  /** The `due` settlements since the row before are those up to this row's time, one interval of the row
      before apart; the announced next one counts only while none is known. */
  ghost predicate Follows(c: Course, row: Row, d: Course) {
    && d.ts == (if Given(row.ts) then row.ts.value else c.ts)
    && d.rate == (if Given(row.fundingRate) then row.fundingRate.value else 0.0)
    && d.interval == (if Given(row.fundingInterval) then Max(row.fundingInterval.value, 1.0) else c.interval)
    && (if c.next.Some? then
          && d.next == Some(Ahead(c.next.value, d.due, c.interval))
          && d.next.value > d.ts && (d.due > 0 ==> d.next.value - c.interval <= d.ts)
        else
          && d.due == 0
          && var announced := GetOr(row.nextFundingTs, 0.0);
             d.next == if announced > d.ts then Some(announced) else None)
  }

  ghost predicate Courses(cs: seq<Course>, entry: Row, held: seq<Row>) {
    && |cs| == |held| + 1 && StartsAt(entry, cs[0])
    && (forall j :: 0 <= j < |held| ==> Follows(cs[j], held[j], cs[j + 1]))
  }

  /** Each settlement is paid at the rate of the row before it became due. */
  function RatesPaid(cs: seq<Course>): real {
    if |cs| < 2 then 0.0
    else RatesPaid(cs[..|cs| - 1]) + cs[|cs| - 1].due as real * cs[|cs| - 2].rate
  }

  function TimesPaid(cs: seq<Course>): nat {
    if |cs| < 2 then 0 else TimesPaid(cs[..|cs| - 1]) + cs[|cs| - 1].due
  }

  /** A position as it was opened, with the funding of its course. */
  ghost predicate OnCourse(p: Position, p0: Position, cs: seq<Course>) {
    && cs != []
    && var c := cs[|cs| - 1];
       p == p0.(fundingPnl := p0.notional * RatesPaid(cs), settlements := TimesPaid(cs),
                lastTs := c.ts, lastRate := c.rate, interval := c.interval, nextFunding := c.next)
  }

  lemma OpenStarts(market: string, entry: Row, cfg: Config) returns (c: Course)
    requires entry.spotAsk.Some? && entry.perpBid.Some?
    ensures StartsAt(entry, c) && OnCourse(Open(market, entry, cfg), Open(market, entry, cfg), [c]) && c.interval >= 1.0
  {
    var p := Open(market, entry, cfg);
    c := Course(p.lastTs, p.lastRate, p.interval, p.nextFunding, 0);
  }

  lemma AccruedFollows(c: Course, p: Position, row: Row) returns (d: Course)
    requires p.lastTs == c.ts && p.lastRate == c.rate && p.interval == c.interval >= 1.0 && p.nextFunding == c.next
    ensures Follows(c, row, d) && d.interval >= 1.0
    ensures Accrued(p, row) == p.(fundingPnl := p.fundingPnl + d.due as real * (p.notional * c.rate),
                                  settlements := p.settlements + d.due,
                                  lastTs := d.ts, lastRate := d.rate, interval := d.interval, nextFunding := d.next)
  {
    var q := Accrued(p, row);
    var due := q.settlements - p.settlements;
    d := Course(q.lastTs, q.lastRate, q.interval, q.nextFunding, due);
    AccrualIsExact(p, row);
    AccrualTerms(p, row);
    LaterIs(c.next, due, c.interval);
    PaymentsAre(due, p.notional, c.rate);
    hide Accrued, Payments, Later, PerSettlement, Ahead;
  }

  /** The fields of an accrued position, by the number of settlements it was paid. */
  lemma AccrualTerms(p: Position, row: Row)
    requires p.interval >= 1.0
    ensures var q := Accrued(p, row);
            && q.settlements >= p.settlements
            && q.lastTs == (if Given(row.ts) then row.ts.value else p.lastTs)
            && q.lastRate == (if Given(row.fundingRate) then row.fundingRate.value else 0.0)
            && q.interval == (if Given(row.fundingInterval) then Max(row.fundingInterval.value, 1.0) else p.interval)
            && q == p.(fundingPnl := q.fundingPnl, lastTs := q.lastTs, lastRate := q.lastRate, interval := q.interval,
                       nextFunding := q.nextFunding, settlements := q.settlements)
            && q.nextFunding == (if p.nextFunding.Some?
                                 then Some(Later(p.nextFunding.value, q.settlements - p.settlements, p.interval))
                                 else if GetOr(row.nextFundingTs, 0.0) > q.lastTs then Some(GetOr(row.nextFundingTs, 0.0)) else None)
            && (p.nextFunding.None? ==> q.settlements == p.settlements)
  {
    hide SettlementsDue, Payments, Later, PerSettlement;
  }

  lemma LaterIs(next: Option<real>, due: nat, interval: real)
    ensures next.Some? ==> Later(next.value, due, interval) == Ahead(next.value, due, interval)
  {
  }

  lemma PaymentsAre(due: nat, notional: real, rate: real)
    ensures Payments(due, PerSettlement(notional, rate)) == due as real * (notional * rate)
  {
  }

  lemma OneMoreCourse(cs: seq<Course>, entry: Row, held: seq<Row>, row: Row, d: Course)
    requires Courses(cs, entry, held) && Follows(cs[|cs| - 1], row, d)
    ensures Courses(cs + [d], entry, held + [row])
    ensures RatesPaid(cs + [d]) == RatesPaid(cs) + d.due as real * cs[|cs| - 1].rate
    ensures TimesPaid(cs + [d]) == TimesPaid(cs) + d.due
  {
    hide StartsAt, Follows;
    var more, rows := cs + [d], held + [row];
    assert more[..|more| - 1] == cs;
    forall j | 0 <= j < |rows| ensures Follows(more[j], rows[j], more[j + 1]) {
      if j < |held| { assert Follows(cs[j], held[j], cs[j + 1]); }
    }
  }

  lemma PayMore(notional: real, paid: real, due: nat, rate: real)
    ensures notional * paid + due as real * (notional * rate) == notional * (paid + due as real * rate)
  {
  }

  /** Every position the backtest holds follows its course. */
  lemma {:induction false} HeldFollowsCourse(market: string, entry: Row, cfg: Config, held: seq<Row>) returns (cs: seq<Course>)
    requires entry.spotAsk.Some? && entry.perpBid.Some?
    ensures Courses(cs, entry, held) && cs[|held|].interval >= 1.0
    ensures OnCourse(Held(Open(market, entry, cfg), held), Open(market, entry, cfg), cs)
  {
    hide StartsAt, Follows, Open, Accrued;
    if held == [] {
      var c := OpenStarts(market, entry, cfg);
      cs := [c];
    } else {
      var front, row := held[..|held| - 1], held[|held| - 1];
      assert held == front + [row];
      cs := HeldFollowsCourse(market, entry, cfg, front);
      var p := Held(Open(market, entry, cfg), front);
      var c := cs[|cs| - 1];
      var d := AccruedFollows(c, p, row);
      OneMoreCourse(cs, entry, front, row, d);
      PayMore(p.notional, RatesPaid(cs), d.due, c.rate);
      cs := cs + [d];
    }
  }

  // ---- What the legs return and cost ----

  /** The price at which a leg is left: its quote, else the second price, else its entry price. */
  ghost predicate LeftAt(price: real, quote: Option<real>, second: Option<real>, entry: Price) {
    && (Given(quote) ==> price == quote.value)
    && (!Given(quote) && Given(second) ==> price == second.value)
    && (!Given(quote) && !Given(second) ==> price == entry)
  }

  /** The cost in basis points that applies to an exchange: its override, found under one name for the three
      spellings of Gate.io, else the default. */
  ghost predicate CostsAt(bps: real, overrides: map<string, real>, default: real, exchange: string) {
    var key := if exchange in {"gate", "gate.io", "gateio"} then "gateio" else exchange;
    if key in overrides then bps == overrides[key] else bps == default
  }

  /** A trade told from its rows alone: what it is, when, what its legs return on the notional, what funding
      its course pays, two fees for each leg, four slippages, and the net of all these. */
  ghost predicate Earns(t: Trade, market: string, cfg: Config, s: Span, cs: seq<Course>, rows: seq<Row>,
                        spotOut: real, perpOut: real, spotFee: real, perpFee: real, slippage: real)
    requires s.from <= s.upto < |rows| && rows[s.from].spotAsk.Some? && rows[s.from].perpBid.Some?
  {
    var entry, exit := rows[s.from], rows[s.upto];
    && Courses(cs, entry, rows[s.from + 1..s.upto + 1])
    && LeftAt(spotOut, exit.spotBid, exit.spotMid, entry.spotAsk.value)
    && LeftAt(perpOut, exit.perpAsk, exit.perpMark, entry.perpBid.value)
    && CostsAt(spotFee, cfg.spotFeeByVenue, cfg.spotFeeBps, entry.exchange)
    && CostsAt(perpFee, cfg.perpFeeByVenue, cfg.perpFeeBps, entry.exchange)
    && CostsAt(slippage, cfg.slippageByVenue, cfg.slippageBps, entry.exchange)
    && t.market == market && t.exchange == entry.exchange && t.reason == s.reason && t.notional == cfg.notional
    && t.entryTs == cs[0].ts
    && t.exitTs == (if Given(exit.ts) then exit.ts.value else cs[|cs| - 1].ts)
    && t.settlements == TimesPaid(cs) && t.fundingPnl == cfg.notional * RatesPaid(cs)
    && t.basisPnl == cfg.notional * (spotOut / entry.spotAsk.value - perpOut / entry.perpBid.value)
    && t.fees * 10_000.0 == 2.0 * Abs(cfg.notional) * (spotFee + perpFee)
    && t.slippage * 10_000.0 == 4.0 * Abs(cfg.notional) * slippage
    && t.net == t.basisPnl + t.fundingPnl - t.fees - t.slippage
  }

  lemma LegReturn(exit: real, entry: Price, notional: real)
    ensures (exit - entry) * (notional / entry) == notional * (exit / entry) - notional
    ensures (entry - exit) * (notional / entry) == notional - notional * (exit / entry)
  {
    var r, q := exit / entry, notional / entry;
    assert exit == r * entry && notional == q * entry;
    assert exit * q == r * entry * q == r * (q * entry);
    assert entry * q == notional;
  }

  lemma CloseReturns(p: Position, exit: Row, cfg: Config, reason: string)
    requires p.spotQty == cfg.notional / p.spotEntry && p.perpQty == cfg.notional / p.perpEntry
    ensures Close(p, exit, cfg, reason).basisPnl
         == cfg.notional * (SpotExit(p, exit) / p.spotEntry - PerpExit(p, exit) / p.perpEntry)
  {
    LegReturn(SpotExit(p, exit), p.spotEntry, cfg.notional);
    LegReturn(PerpExit(p, exit), p.perpEntry, cfg.notional);
  }

  lemma OpenTerms(market: string, entry: Row, cfg: Config)
    requires entry.spotAsk.Some? && entry.perpBid.Some?
    ensures var p := Open(market, entry, cfg);
            && p.market == market && p.exchange == entry.exchange && p.notional == cfg.notional
            && p.spotEntry == entry.spotAsk.value && p.perpEntry == entry.perpBid.value
            && p.spotQty == cfg.notional / p.spotEntry && p.perpQty == cfg.notional / p.perpEntry
            && p.entryTs == (if Given(entry.ts) then entry.ts.value else 0.0)
            && p.entryFee == Fee(cfg.notional, SpotFee(cfg, entry.exchange)) + Fee(cfg.notional, PerpFee(cfg, entry.exchange))
            && p.entrySlippage == Fee(cfg.notional * 2.0, Slippage(cfg, entry.exchange))
  {
    hide Fee, VenueCost;
  }

  lemma FeesAdd(notional: real, a: real, b: real)
    ensures 2.0 * (Fee(notional, a) + Fee(notional, b)) * 10_000.0 == 2.0 * Abs(notional) * (a + b)
    ensures 2.0 * Fee(notional * 2.0, a) * 10_000.0 == 4.0 * Abs(notional) * a
  {
    assert Abs(notional * 2.0) == 2.0 * Abs(notional);
  }

  lemma VenueCostIs(overrides: map<string, real>, exchange: string, default: real)
    ensures CostsAt(VenueCost(overrides, exchange, default), overrides, default, exchange)
  {
  }

  lemma CloseTerms(p: Position, exit: Row, cfg: Config, reason: string)
    requires p.entryFee == Fee(p.notional, SpotFee(cfg, p.exchange)) + Fee(p.notional, PerpFee(cfg, p.exchange))
    requires p.entrySlippage == Fee(p.notional * 2.0, Slippage(cfg, p.exchange))
    ensures var t := Close(p, exit, cfg, reason);
            && t.market == p.market && t.exchange == p.exchange && t.reason == reason && t.notional == p.notional
            && t.entryTs == p.entryTs && t.exitTs == (if Given(exit.ts) then exit.ts.value else p.lastTs)
            && t.settlements == p.settlements && t.fundingPnl == p.fundingPnl
            && t.fees * 10_000.0 == 2.0 * Abs(p.notional) * (SpotFee(cfg, p.exchange) + PerpFee(cfg, p.exchange))
            && t.slippage * 10_000.0 == 4.0 * Abs(p.notional) * Slippage(cfg, p.exchange)
            && t.net == t.basisPnl + t.fundingPnl - t.fees - t.slippage
  {
    FeesAdd(p.notional, SpotFee(cfg, p.exchange), PerpFee(cfg, p.exchange));
    FeesAdd(p.notional, Slippage(cfg, p.exchange), 0.0);
    hide Fee, VenueCost;
  }

  lemma ExitsAre(p: Position, exit: Row)
    ensures LeftAt(SpotExit(p, exit), exit.spotBid, exit.spotMid, p.spotEntry)
    ensures LeftAt(PerpExit(p, exit), exit.perpAsk, exit.perpMark, p.perpEntry)
  {
  }

  lemma SpanEarns(t: Trade, market: string, cfg: Config, s: Span, rows: seq<Row>)
    returns (cs: seq<Course>, spotOut: real, perpOut: real)
    requires Covers(s, t, market, cfg, rows)
    ensures var at := rows[s.from].exchange;
            Earns(t, market, cfg, s, cs, rows, spotOut, perpOut, SpotFee(cfg, at), PerpFee(cfg, at), Slippage(cfg, at))
  {
    hide Held, Open, Close, Courses, VenueCost, CostsAt, VenueKey, Fee, SpotExit, PerpExit, LeftAt, RatesPaid, TimesPaid;
    var entry, exit, held := rows[s.from], rows[s.upto], rows[s.from + 1..s.upto + 1];
    var p := Held(Open(market, entry, cfg), held);
    OpenTerms(market, entry, cfg);
    cs := HeldFollowsCourse(market, entry, cfg, held);
    spotOut, perpOut := SpotExit(p, exit), PerpExit(p, exit);
    CloseReturns(p, exit, cfg, s.reason);
    CloseTerms(p, exit, cfg, s.reason);
    ExitsAre(p, exit);
    CourseStart(cs, entry, held);
    VenueCostIs(cfg.spotFeeByVenue, entry.exchange, cfg.spotFeeBps);
    VenueCostIs(cfg.perpFeeByVenue, entry.exchange, cfg.perpFeeBps);
    VenueCostIs(cfg.slippageByVenue, entry.exchange, cfg.slippageBps);
  }

  lemma CourseStart(cs: seq<Course>, entry: Row, held: seq<Row>)
    requires Courses(cs, entry, held)
    ensures cs != [] && cs[0].ts == (if Given(entry.ts) then entry.ts.value else 0.0)
  {
  }

  /** Every trade of a market is one span of its time-ordered rows and earns what those rows say. */
  lemma TradesEarn(market: string, cfg: Config, stats: Statistics, rows: seq<Row>, k: nat)
    returns (s: Span, cs: seq<Course>, spotOut: real, perpOut: real, spotFee: real, perpFee: real, slippage: real)
    requires k < |MarketTrades(market, cfg, stats, rows)|
    ensures var sorted := Sort(rows, NotLater);
            && s.from <= s.upto < |sorted| && sorted[s.from].spotAsk.Some? && sorted[s.from].perpBid.Some?
            && Earns(MarketTrades(market, cfg, stats, rows)[k], market, cfg, s, cs, sorted,
                     spotOut, perpOut, spotFee, perpFee, slippage)
  {
    var spans := MarketTradesAreSpans(market, cfg, stats, rows);
    s := spans[k];
    hide MarketTrades, Sort, Earns, Held, Open, Close, AllChosen, NoneAllowed;
    var sorted := Sort(rows, NotLater);
    cs, spotOut, perpOut := SpanEarns(MarketTrades(market, cfg, stats, rows)[k], market, cfg, s, sorted);
    var at := sorted[s.from].exchange;
    spotFee, perpFee, slippage := SpotFee(cfg, at), PerpFee(cfg, at), Slippage(cfg, at);
  }

  lemma {:induction false} OwnTradesStand(trades: seq<Trade>, t: Trade)
    ensures t in trades <==> t in TradesIn(trades, t.market)
    ensures forall u :: u in TradesIn(trades, t.market) ==> u.market == t.market
  {
    if trades != [] {
      OwnTradesStand(trades[..|trades| - 1], t);
      assert trades == trades[..|trades| - 1] + [trades[|trades| - 1]];
    }
  }

  /** Every trade of a whole backtest is one span of its own market's rows, in time order, and earns what those
      rows say: its legs' returns on the notional, its funding, less its costs. */
  lemma BacktestTradesEarn(cfg: Config, stats: Statistics, rows: seq<Row>, t: Trade)
    returns (s: Span, cs: seq<Course>, spotOut: real, perpOut: real, spotFee: real, perpFee: real, slippage: real)
    requires t in AllTrades(cfg, stats, rows)
    ensures var sorted := Sort(RowsOf(rows, t.market), NotLater);
            && s.from <= s.upto < |sorted| && sorted[s.from].spotAsk.Some? && sorted[s.from].perpBid.Some?
            && Earns(t, t.market, cfg, s, cs, sorted, spotOut, perpOut, spotFee, perpFee, slippage)
  {
    hide AllTrades, MarketTrades, TradesIn, RowsOf, Sort, Earns;
    MarketsAreIndependent(cfg, stats, rows, t.market);
    OwnTradesStand(AllTrades(cfg, stats, rows), t);
    var own := MarketTrades(t.market, cfg, stats, RowsOf(rows, t.market));
    var k :| 0 <= k < |own| && own[k] == t;
    s, cs, spotOut, perpOut, spotFee, perpFee, slippage := TradesEarn(t.market, cfg, stats, RowsOf(rows, t.market), k);
  }
}
