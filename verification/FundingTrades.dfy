/** The shape of every trade of a backtest: one position over consecutive rows, one after the other. */
module FundingTrades {
  import opened Sequences
  import opened StableSort
  import opened FundingTypes
  import opened FundingPosition
  import opened FundingBacktest

  datatype Span = Span(from: nat, upto: nat, reason: string)

  /** Opened at one row, accrued over every later one up to the row it is closed at. */
  ghost predicate Covers(s: Span, t: Trade, market: string, cfg: Config, rows: seq<Row>) {
    && s.from <= s.upto < |rows|
    && rows[s.from].spotAsk.Some? && rows[s.from].perpBid.Some?
    && t == Close(Held(Open(market, rows[s.from], cfg), rows[s.from + 1..s.upto + 1]), rows[s.upto], cfg, s.reason)
  }

  /** Each trade has its span, and each span starts after the one before it ended. */
  ghost predicate Consecutive(spans: seq<Span>, trades: seq<Trade>, market: string, cfg: Config, rows: seq<Row>) {
    && |spans| == |trades|
    && (forall k :: 0 <= k < |spans| ==> Covers(spans[k], trades[k], market, cfg, rows))
    && (forall k :: 0 < k < |spans| ==> spans[k - 1].upto < spans[k].from)
  }

  ghost predicate OpenSince(i: nat, p: Position, market: string, cfg: Config, rows: seq<Row>) {
    && i < |rows| && rows[i].spotAsk.Some? && rows[i].perpBid.Some?
    && p == Held(Open(market, rows[i], cfg), rows[i + 1..])
  }

  // ---- Where a trade starts and stops ----

  predicate Allowed(i: nat, cfg: Config, stats: Statistics, rows: seq<Row>)
    requires i < |rows|
  {
    EntryAllowed(View(rows[i], stats(rows[..i + 1])), cfg)
  }

  function ReasonAt(i: nat, cfg: Config, stats: Statistics, rows: seq<Row>): string
    requires i < |rows|
  {
    ExitReason(View(rows[i], stats(rows[..i + 1])), cfg)
  }

  /** Opened at the first row from `free` on that is allowed. */
  ghost predicate OpensFirst(free: nat, i: nat, cfg: Config, stats: Statistics, rows: seq<Row>) {
    && free <= i < |rows| && Allowed(i, cfg, stats, rows)
    && (forall j :: free <= j < i ==> !Allowed(j, cfg, stats, rows))
  }

  ghost predicate NoReason(i: nat, upto: nat, cfg: Config, stats: Statistics, rows: seq<Row>)
    requires upto <= |rows|
  {
    forall j :: i < j < upto ==> ReasonAt(j, cfg, stats, rows) == ""
  }

  /** Closed at the first later row that gives a reason, and for that reason; or, forced, at the last row of all,
      when no row gave one. */
  ghost predicate Chosen(s: Span, free: nat, cfg: Config, stats: Statistics, rows: seq<Row>) {
    && OpensFirst(free, s.from, cfg, stats, rows) && s.from <= s.upto < |rows|
    && NoReason(s.from, s.upto, cfg, stats, rows)
    && (if s.reason == "force_end"
        then s.upto == |rows| - 1 && NoReason(s.from, |rows|, cfg, stats, rows)
        else s.from < s.upto && s.reason == ReasonAt(s.upto, cfg, stats, rows) != "")
  }

  /** The first row that the first `k` spans leave free. */
  function FreeFrom(spans: seq<Span>, k: nat): nat
    requires k <= |spans|
  {
    if k == 0 then 0 else spans[k - 1].upto + 1
  }

  ghost predicate AllChosen(spans: seq<Span>, cfg: Config, stats: Statistics, rows: seq<Row>) {
    forall k :: 0 <= k < |spans| ==> Chosen(spans[k], FreeFrom(spans, k), cfg, stats, rows)
  }

  ghost predicate NoneAllowed(free: nat, cfg: Config, stats: Statistics, rows: seq<Row>) {
    forall j :: free <= j < |rows| ==> !Allowed(j, cfg, stats, rows)
  }

  ghost predicate Unforced(spans: seq<Span>) { forall k :: 0 <= k < |spans| ==> spans[k].reason != "force_end" }

  lemma NeverForced(v: View, cfg: Config)
    ensures ExitReason(v, cfg) != "force_end"
  {
    hide Abs, GetOr, BreakEvenWithin;
  }

  lemma SameDecisions(i: nat, cfg: Config, stats: Statistics, rows: seq<Row>, row: Row)
    requires i < |rows|
    ensures Allowed(i, cfg, stats, rows + [row]) == Allowed(i, cfg, stats, rows)
    ensures ReasonAt(i, cfg, stats, rows + [row]) == ReasonAt(i, cfg, stats, rows)
  {
    hide EntryAllowed, ExitReason;
    assert (rows + [row])[..i + 1] == rows[..i + 1];
  }

  lemma StillChosen(spans: seq<Span>, cfg: Config, stats: Statistics, rows: seq<Row>, row: Row)
    requires AllChosen(spans, cfg, stats, rows) && Unforced(spans)
    ensures AllChosen(spans, cfg, stats, rows + [row])
  {
    hide Allowed, ReasonAt;
    forall i | 0 <= i < |rows|
      ensures Allowed(i, cfg, stats, rows + [row]) == Allowed(i, cfg, stats, rows)
           && ReasonAt(i, cfg, stats, rows + [row]) == ReasonAt(i, cfg, stats, rows)
    {
      SameDecisions(i, cfg, stats, rows, row);
    }
  }

  lemma StillOpenSince(free: nat, i: nat, cfg: Config, stats: Statistics, rows: seq<Row>, row: Row)
    requires OpensFirst(free, i, cfg, stats, rows) && NoReason(i, |rows|, cfg, stats, rows)
    ensures OpensFirst(free, i, cfg, stats, rows + [row]) && NoReason(i, |rows|, cfg, stats, rows + [row])
  {
    hide Allowed, ReasonAt;
    forall j | 0 <= j < |rows|
      ensures Allowed(j, cfg, stats, rows + [row]) == Allowed(j, cfg, stats, rows)
           && ReasonAt(j, cfg, stats, rows + [row]) == ReasonAt(j, cfg, stats, rows)
    {
      SameDecisions(j, cfg, stats, rows, row);
    }
  }

  lemma StillNoneAllowed(free: nat, cfg: Config, stats: Statistics, rows: seq<Row>, row: Row)
    requires NoneAllowed(free, cfg, stats, rows)
    ensures forall j :: free <= j < |rows| ==> !Allowed(j, cfg, stats, rows + [row])
  {
    hide Allowed;
    forall j | free <= j < |rows| ensures !Allowed(j, cfg, stats, rows + [row]) { SameDecisions(j, cfg, stats, rows, row); }
  }

  /** The decisions of a walk: every span chosen, and the position open since the first row allowed after
      them, or no such row. */
  ghost predicate Decided(open: bool, spans: seq<Span>, since: nat, cfg: Config, stats: Statistics, rows: seq<Row>) {
    && AllChosen(spans, cfg, stats, rows) && Unforced(spans)
    && (if open
        then OpensFirst(FreeFrom(spans, |spans|), since, cfg, stats, rows) && NoReason(since, |rows|, cfg, stats, rows)
        else NoneAllowed(FreeFrom(spans, |spans|), cfg, stats, rows))
  }

  lemma DecidedStart(cfg: Config, stats: Statistics)
    ensures Decided(false, [], 0, cfg, stats, [])
  {
  }

  lemma DecidedHold(spans: seq<Span>, since: nat, cfg: Config, stats: Statistics, rows: seq<Row>, row: Row)
    requires Decided(true, spans, since, cfg, stats, rows) && ReasonAt(|rows|, cfg, stats, rows + [row]) == ""
    ensures Decided(true, spans, since, cfg, stats, rows + [row])
  {
    hide Allowed, ReasonAt, AllChosen;
    StillChosen(spans, cfg, stats, rows, row);
    StillOpenSince(FreeFrom(spans, |spans|), since, cfg, stats, rows, row);
  }

  lemma DecidedWait(spans: seq<Span>, since: nat, cfg: Config, stats: Statistics, rows: seq<Row>, row: Row)
    requires Decided(false, spans, since, cfg, stats, rows)
    ensures if Allowed(|rows|, cfg, stats, rows + [row])
            then FreeFrom(spans, |spans|) <= |rows| ==> Decided(true, spans, |rows|, cfg, stats, rows + [row])
            else Decided(false, spans, since, cfg, stats, rows + [row])
  {
    hide Allowed, ReasonAt, AllChosen;
    StillChosen(spans, cfg, stats, rows, row);
    StillNoneAllowed(FreeFrom(spans, |spans|), cfg, stats, rows, row);
  }

  lemma AddChosen(spans: seq<Span>, s: Span, cfg: Config, stats: Statistics, rows: seq<Row>)
    requires AllChosen(spans, cfg, stats, rows) && Chosen(s, FreeFrom(spans, |spans|), cfg, stats, rows)
    ensures AllChosen(spans + [s], cfg, stats, rows)
  {
    hide Chosen;
    var longer := spans + [s];
    forall k | 0 <= k < |longer| ensures Chosen(longer[k], FreeFrom(longer, k), cfg, stats, rows) {
      assert FreeFrom(longer, k) == FreeFrom(spans, k);
    }
  }

  lemma DecidedClose(spans: seq<Span>, since: nat, cfg: Config, stats: Statistics, rows: seq<Row>, row: Row)
    requires Decided(true, spans, since, cfg, stats, rows) && ReasonAt(|rows|, cfg, stats, rows + [row]) != ""
    ensures Decided(false, spans + [Span(since, |rows|, ReasonAt(|rows|, cfg, stats, rows + [row]))], since, cfg, stats, rows + [row])
  {
    var longer, reason := rows + [row], ReasonAt(|rows|, cfg, stats, rows + [row]);
    NeverForced(View(longer[|rows|], stats(longer[..|rows| + 1])), cfg);
    hide Allowed, ReasonAt, AllChosen;
    StillChosen(spans, cfg, stats, rows, row);
    StillOpenSince(FreeFrom(spans, |spans|), since, cfg, stats, rows, row);
    AddChosen(spans, Span(since, |rows|, reason), cfg, stats, longer);
  }

  // ---- The spans of a walk ----

  lemma CoversMore(s: Span, t: Trade, market: string, cfg: Config, rows: seq<Row>, row: Row)
    requires Covers(s, t, market, cfg, rows)
    ensures Covers(s, t, market, cfg, rows + [row])
  {
    assert (rows + [row])[s.from + 1..s.upto + 1] == rows[s.from + 1..s.upto + 1];
  }

  lemma StillConsecutive(spans: seq<Span>, trades: seq<Trade>, market: string, cfg: Config, rows: seq<Row>, row: Row)
    requires Consecutive(spans, trades, market, cfg, rows)
    ensures Consecutive(spans, trades, market, cfg, rows + [row])
  {
    hide Covers;
    forall k | 0 <= k < |spans| ensures Covers(spans[k], trades[k], market, cfg, rows + [row]) {
      CoversMore(spans[k], trades[k], market, cfg, rows, row);
    }
  }

  lemma HeldOneMore(i: nat, p: Position, market: string, cfg: Config, rows: seq<Row>, row: Row)
    requires OpenSince(i, p, market, cfg, rows)
    ensures OpenSince(i, Accrued(p, row), market, cfg, rows + [row])
  {
    hide Accrued, Open;
    var longer := (rows + [row])[i + 1..];
    assert longer == rows[i + 1..] + [row] && longer[..|longer| - 1] == rows[i + 1..];
  }

  lemma CloseCovers(i: nat, p: Position, market: string, cfg: Config, rows: seq<Row>, reason: string)
    requires OpenSince(i, p, market, cfg, rows)
    ensures Covers(Span(i, |rows| - 1, reason), Close(p, rows[|rows| - 1], cfg, reason), market, cfg, rows)
  {
    assert rows[i + 1..|rows|] == rows[i + 1..];
  }

  lemma JustOpened(market: string, cfg: Config, rows: seq<Row>, row: Row)
    requires row.spotAsk.Some? && row.perpBid.Some?
    ensures OpenSince(|rows|, Open(market, row, cfg), market, cfg, rows + [row])
  {
    assert (rows + [row])[|rows| + 1..] == [];
  }

  lemma AnotherTrade(spans: seq<Span>, trades: seq<Trade>, s: Span, t: Trade, market: string, cfg: Config, rows: seq<Row>)
    requires Consecutive(spans, trades, market, cfg, rows) && Covers(s, t, market, cfg, rows)
    requires spans != [] ==> spans[|spans| - 1].upto < s.from
    ensures Consecutive(spans + [s], trades + [t], market, cfg, rows)
  {
    hide Covers;
  }

  /** After any rows: the trades so far are consecutive spans, and the open position, if any, was opened
      after the last of them and accrued over every row since. */
  lemma {:induction false} WalkShape(market: string, cfg: Config, stats: Statistics, rows: seq<Row>)
    returns (spans: seq<Span>, since: nat)
    ensures var w := WalkRows(market, cfg, stats, rows);
            && Consecutive(spans, w.trades, market, cfg, rows)
            && (w.position.Some? ==>
                  OpenSince(since, w.position.value, market, cfg, rows)
                  && (spans != [] ==> spans[|spans| - 1].upto < since))
            && Decided(w.position.Some?, spans, since, cfg, stats, rows)
    ensures forall k :: 0 <= k < |spans| ==> spans[k].upto < |rows|
  {
    hide Covers, Accrued, Open, Close, EntryAllowed, ExitReason, Decided;
    spans, since := [], 0;
    if rows == [] {
      DecidedStart(cfg, stats);
    } else {
      var front, row := rows[..|rows| - 1], rows[|rows| - 1];
      assert rows == front + [row];
      spans, since := WalkShape(market, cfg, stats, front);
      var w, v := WalkRows(market, cfg, stats, front), View(row, stats(rows));
      assert rows[..|rows|] == rows;
      StillConsecutive(spans, w.trades, market, cfg, front, row);
      if w.position.Some? {
        var held, reason := Accrued(w.position.value, row), ExitReason(v, cfg);
        HeldOneMore(since, w.position.value, market, cfg, front, row);
        if reason == "" {
          DecidedHold(spans, since, cfg, stats, front, row);
        } else {
          DecidedClose(spans, since, cfg, stats, front, row);
          CloseCovers(since, held, market, cfg, rows, reason);
          var s := Span(since, |rows| - 1, reason);
          AnotherTrade(spans, w.trades, s, Close(held, row, cfg, reason), market, cfg, rows);
          spans := spans + [s];
        }
      } else {
        DecidedWait(spans, since, cfg, stats, front, row);
        if EntryAllowed(v, cfg) {
          EntryIsNoExit(v, cfg);
          JustOpened(market, cfg, front, row);
          since := |front|;
        }
      }
    }
  }

  /** Every trade of a market, the forced last one included, is one position over consecutive rows of its
      time-ordered history, and no two of them overlap: each opens at the first row allowed after the one
      before it and closes at the first row that gives a reason, and after the last no row is allowed. */
  lemma MarketTradesAreSpans(market: string, cfg: Config, stats: Statistics, rows: seq<Row>) returns (spans: seq<Span>)
    ensures var sorted := Sort(rows, NotLater);
            && Consecutive(spans, MarketTrades(market, cfg, stats, rows), market, cfg, sorted)
            && AllChosen(spans, cfg, stats, sorted)
            && NoneAllowed(FreeFrom(spans, |spans|), cfg, stats, sorted)
  {
    hide Covers, Open, Close, Sort, AllChosen, Allowed, ReasonAt;
    var sorted := Sort(rows, NotLater);
    var since;
    spans, since := WalkShape(market, cfg, stats, sorted);
    var w := WalkRows(market, cfg, stats, sorted);
    if w.position.Some? && rows != [] {
      CloseCovers(since, w.position.value, market, cfg, sorted, "force_end");
      var s := Span(since, |sorted| - 1, "force_end");
      AnotherTrade(spans, w.trades, s, Close(w.position.value, sorted[|sorted| - 1], cfg, "force_end"), market, cfg, sorted);
      AddChosen(spans, s, cfg, stats, sorted);
      spans := spans + [s];
    }
  }

  /** One funding rate from the opening row up to the closing one. */
  ghost predicate OneRate(s: Span, rows: seq<Row>, rate: real)
    requires s.from <= s.upto < |rows|
  {
    forall k :: s.from <= k <= s.upto ==> OrElse(rows[k].fundingRate, 0.0) == rate
  }

  /** Both legs leave at the same ratio of their entry prices. */
  ghost predicate MovesAlike(s: Span, market: string, cfg: Config, rows: seq<Row>, ratio: real)
    requires s.from <= s.upto < |rows| && rows[s.from].spotAsk.Some? && rows[s.from].perpBid.Some?
  {
    var entry, exit := rows[s.from], rows[s.upto];
    var p := Held(Open(market, entry, cfg), rows[s.from + 1..s.upto + 1]);
    SpotExit(p, exit) == ratio * entry.spotAsk.value && PerpExit(p, exit) == ratio * entry.perpBid.value
  }

  /** The scanner's expected net carry on the notional, for the settlements that the trade received. */
  ghost predicate NetsExpectedCarry(t: Trade, cfg: Config, exchange: string, rate: real) {
    var cost := RoundTripCostBps(SpotFee(cfg, exchange), PerpFee(cfg, exchange), Slippage(cfg, exchange));
    t.net == cfg.notional * ExpectedNetCarryBps(rate, t.settlements as real, cost) / 10_000.0
  }

  /** No cost override for the venue. */
  predicate NoOverrides(cfg: Config, exchange: string) {
    && VenueKey(exchange) !in cfg.spotFeeByVenue && VenueKey(exchange) !in cfg.perpFeeByVenue
    && VenueKey(exchange) !in cfg.slippageByVenue
  }

  /** The carry at the configured costs, which is what the scanner announces. */
  ghost predicate NetsConfiguredCarry(t: Trade, cfg: Config, rate: real) {
    var cost := RoundTripCostBps(cfg.spotFeeBps, cfg.perpFeeBps, cfg.slippageBps);
    t.net == cfg.notional * ExpectedNetCarryBps(rate, t.settlements as real, cost) / 10_000.0
  }

  lemma ConfiguredCarry(t: Trade, cfg: Config, exchange: string, rate: real)
    requires NetsExpectedCarry(t, cfg, exchange, rate) && NoOverrides(cfg, exchange)
    ensures NetsConfiguredCarry(t, cfg, rate)
  {
    NoOverridesMeansConfiguredCost(cfg, exchange);
    hide RoundTripCostBps, ExpectedNetCarryBps;
  }

  /** Every trade that the backtest makes at one rate, with both legs moving alike, nets the expected carry
      for the settlements that it received; without cost overrides that is the scanner's own figure. */
  lemma TradesRealiseExpectedCarry(market: string, cfg: Config, stats: Statistics, rows: seq<Row>, k: nat, rate: real, ratio: real)
    returns (s: Span)
    requires k < |MarketTrades(market, cfg, stats, rows)| && cfg.notional >= 0.0
    ensures var t, sorted := MarketTrades(market, cfg, stats, rows)[k], Sort(rows, NotLater);
            && Covers(s, t, market, cfg, sorted)
            && (OneRate(s, sorted, rate) && MovesAlike(s, market, cfg, sorted, ratio) ==>
                  && NetsExpectedCarry(t, cfg, sorted[s.from].exchange, rate)
                  && (NoOverrides(cfg, sorted[s.from].exchange) ==> NetsConfiguredCarry(t, cfg, rate)))
  {
    var spans := MarketTradesAreSpans(market, cfg, stats, rows);
    s := spans[k];
    hide MarketTrades, Sort, OneRate, MovesAlike, NetsExpectedCarry, NetsConfiguredCarry, NoOverrides, Held, Open, Close;
    SpanRealisesExpectedCarry(s, MarketTrades(market, cfg, stats, rows)[k], market, cfg, Sort(rows, NotLater), rate, ratio);
  }

  lemma SpanRealisesExpectedCarry(s: Span, t: Trade, market: string, cfg: Config, rows: seq<Row>, rate: real, ratio: real)
    requires Covers(s, t, market, cfg, rows) && cfg.notional >= 0.0
    ensures OneRate(s, rows, rate) && MovesAlike(s, market, cfg, rows, ratio) ==>
              && NetsExpectedCarry(t, cfg, rows[s.from].exchange, rate)
              && (NoOverrides(cfg, rows[s.from].exchange) ==> NetsConfiguredCarry(t, cfg, rate))
  {
    hide Held, Open, ExpectedNetCarryBps, RoundTripCostBps;
    var held := rows[s.from + 1..s.upto + 1];
    if OneRate(s, rows, rate) && MovesAlike(s, market, cfg, rows, ratio) {
      forall r | r in held ensures OrElse(r.fundingRate, 0.0) == rate {
        var i :| 0 <= i < |held| && held[i] == r;
        assert held[i] == rows[s.from + 1 + i];
      }
      ExpectedCarryIsRealised(market, rows[s.from], held, rows[s.upto], cfg, rate, ratio, s.reason);
      if NoOverrides(cfg, rows[s.from].exchange) { ConfiguredCarry(t, cfg, rows[s.from].exchange, rate); }
    }
  }
}
