/** One funding-carry position: gates, opening, funding accrual and closing. */
module FundingPosition {
  import opened Sequences
  import opened FundingTypes

  // ---- Gates ----

  function BreakEvenWithin(row: Row, maxHours: real): bool {
    maxHours >= HUGE || (row.breakEvenHours.Some? && row.breakEvenHours.value <= maxHours)
  }

  /** The four fields of a row that the gates read through an `or` default. */
  datatype Read = Read(rate: real, score: real, spotSpread: real, perpSpread: real)

  /** As the program reads them: zero counts as missing. */
  function AsCoded(row: Row): Read {
    Read(OrElse(row.fundingRate, 0.0), OrElse(row.totalScore, -HUGE), OrElse(row.spotSpread, HUGE), OrElse(row.perpSpread, HUGE))
  }

  predicate Gates(v: View, cfg: Config, x: Read) {
    var row, m := v.row, v.rolling;
    && x.rate > cfg.minFundingRate
    && x.score >= cfg.minTotalScore
    && GetOr(row.expectedCarry, -HUGE) >= cfg.minExpectedCarry
    && GetOr(m.riskAdjustedEdge, -HUGE) >= cfg.minRiskAdjustedEdge
    && m.fundingObservations >= cfg.minFundingObservations
    && GetOr(m.positiveRatio, 0.0) >= cfg.minPositiveRatio
    && GetOr(m.persistenceScore, -HUGE) >= cfg.minPersistenceScore
    && m.regimeObservations >= cfg.minRegimeObservations
    && GetOr(m.volumeAverage, 0.0) >= cfg.minVolume
    && GetOr(row.spotTopNotional, 0.0) >= cfg.minSpotTopNotional
    && GetOr(m.spotTopAverage, 0.0) >= cfg.minSpotTopNotional
    && GetOr(m.basisStd, HUGE) <= cfg.maxBasisStd
    && GetOr(m.spotSpreadAverage, HUGE) <= cfg.maxAverageSpotSpread
    && GetOr(m.perpSpreadAverage, HUGE) <= cfg.maxAveragePerpSpread
    && x.spotSpread <= cfg.maxSpotSpread
    && x.perpSpread <= cfg.maxPerpSpread
    && Abs(GetOr(row.basis, 0.0)) <= cfg.maxAbsBasis
    && GetOr(row.basis, -HUGE) >= cfg.minBasis
    && BreakEvenWithin(row, cfg.maxBreakEvenHours)
    && row.spotAsk.Some?
    && row.perpBid.Some?
  }

  predicate EntryAllowed(v: View, cfg: Config) { Gates(v, cfg, AsCoded(v.row)) }

  function Reason(v: View, cfg: Config, x: Read): string {
    var row, m := v.row, v.rolling;
    if x.rate <= cfg.minFundingRate then "funding_not_positive"
    else if x.spotSpread > cfg.maxSpotSpread then "spot_spread_wide"
    else if x.perpSpread > cfg.maxPerpSpread then "perp_spread_wide"
    else if Abs(GetOr(row.basis, 0.0)) > cfg.maxAbsBasis then "basis_too_wide"
    else if GetOr(row.basis, -HUGE) < cfg.minBasis then "basis_below_min"
    else if x.score < cfg.minTotalScore then "score_below_min"
    else if GetOr(row.expectedCarry, -HUGE) < cfg.minExpectedCarry then "expected_edge_below_min"
    else if GetOr(m.riskAdjustedEdge, -HUGE) < cfg.minRiskAdjustedEdge then "risk_adjusted_edge_below_min"
    else if !BreakEvenWithin(row, cfg.maxBreakEvenHours) then "break_even_horizon_too_long"
    else if m.fundingObservations < cfg.minFundingObservations then "funding_observations_below_min"
    else if GetOr(m.positiveRatio, 0.0) < cfg.minPositiveRatio then "funding_positive_ratio_below_min"
    else if GetOr(m.persistenceScore, -HUGE) < cfg.minPersistenceScore then "funding_persistence_score_below_min"
    else if m.regimeObservations < cfg.minRegimeObservations then "regime_observations_below_min"
    else if GetOr(m.volumeAverage, 0.0) < cfg.minVolume then "perp_volume_regime_low"
    else if GetOr(row.spotTopNotional, 0.0) < cfg.minSpotTopNotional then "spot_top_liquidity_low"
    else if GetOr(m.spotTopAverage, 0.0) < cfg.minSpotTopNotional then "spot_top_liquidity_regime_low"
    else if GetOr(m.basisStd, HUGE) > cfg.maxBasisStd then "basis_regime_unstable"
    else if GetOr(m.spotSpreadAverage, HUGE) > cfg.maxAverageSpotSpread then "spot_spread_regime_wide"
    else if GetOr(m.perpSpreadAverage, HUGE) > cfg.maxAveragePerpSpread then "perp_spread_regime_wide"
    else ""
  }

  function ExitReason(v: View, cfg: Config): string { Reason(v, cfg, AsCoded(v.row)) }

  /** The two long chains of thresholds are complements, however the four fields are read. */
  lemma GatesAreNoReason(v: View, cfg: Config, x: Read)
    ensures Gates(v, cfg, x) <==> Reason(v, cfg, x) == "" && v.row.spotAsk.Some? && v.row.perpBid.Some?
  {
    hide Abs, GetOr, BreakEvenWithin;
  }

  /** A row admits an entry exactly when it gives no reason to exit and carries both entry quotes. So no
      row both opens and closes. */
  lemma EntryIsNoExit(v: View, cfg: Config)
    ensures EntryAllowed(v, cfg) <==> ExitReason(v, cfg) == "" && v.row.spotAsk.Some? && v.row.perpBid.Some?
  {
    hide Gates, Reason;
    GatesAreNoReason(v, cfg, AsCoded(v.row));
  }

  // ---- Costs ----

  function VenueKey(exchange: string): string {
    if exchange == "gate" || exchange == "gate.io" then "gateio" else exchange
  }

  function VenueCost(overrides: map<string, real>, exchange: string, default: real): real {
    if VenueKey(exchange) in overrides then overrides[VenueKey(exchange)] else default
  }

  function SpotFee(cfg: Config, exchange: string): real { VenueCost(cfg.spotFeeByVenue, exchange, cfg.spotFeeBps) }

  function PerpFee(cfg: Config, exchange: string): real { VenueCost(cfg.perpFeeByVenue, exchange, cfg.perpFeeBps) }

  function Slippage(cfg: Config, exchange: string): real { VenueCost(cfg.slippageByVenue, exchange, cfg.slippageBps) }

  function Fee(notional: real, bps: real): real { Abs(notional) * bps / 10_000.0 }

  function RoundTripCostBps(spotFeeBps: real, perpFeeBps: real, slippageBps: real): real {
    2.0 * spotFeeBps + 2.0 * perpFeeBps + 4.0 * slippageBps
  }

  /** The scanner's expectation for holding `intervals` funding intervals at one rate. */
  function ExpectedNetCarryBps(rate: real, intervals: real, roundTripCostBps: real): real {
    rate * 10_000.0 * Max(intervals, 0.0) - roundTripCostBps
  }

  // ---- Opening, accruing, closing ----

  function Open(market: string, row: Row, cfg: Config): Position
    requires row.spotAsk.Some? && row.perpBid.Some?
  {
    OpenAt(market, row, cfg, OrElse(row.fundingInterval, 28_800.0))
  }

  /** Opening with the funding interval read from the row as `interval`. */
  function OpenAt(market: string, row: Row, cfg: Config, interval: real): Position
    requires row.spotAsk.Some? && row.perpBid.Some?
  {
    var ts := OrElse(row.ts, 0.0);
    Position(market, row.exchange, ts, row.spotAsk.value, row.perpBid.value,
             cfg.notional / row.spotAsk.value, cfg.notional / row.perpBid.value, cfg.notional,
             Fee(cfg.notional, SpotFee(cfg, row.exchange)) + Fee(cfg.notional, PerpFee(cfg, row.exchange)),
             Fee(cfg.notional * 2.0, Slippage(cfg, row.exchange)),
             0.0, ts, OrElse(row.fundingRate, 0.0), Max(interval, 1.0),
             if row.nextFundingTs.Some? && row.nextFundingTs.value > ts then row.nextFundingTs else None, 0)
  }

  /** The settlement time that is `count` intervals after `next`. */
  function Later(next: real, count: int, interval: real): real { next + count as real * interval }

  /** How many settlements fall at or before `ts` when the next one is due at `next`. */
  function SettlementsDue(next: real, ts: real, interval: real): nat
    requires interval >= 1.0
  {
    if next > ts then 0
    else
      assert (ts - next) / interval >= 0.0;
      ((ts - next) / interval).Floor + 1
  }

  lemma MulStrict(a: real, b: real, factor: real)
    requires a < b && factor > 0.0
    ensures a * factor < b * factor
  {
  }

  lemma Distribute(a: real, b: real, factor: real)
    ensures (a + b) * factor == a * factor + b * factor
  {
  }

  lemma SettlementsDueUnique(next: real, ts: real, interval: real, k: nat)
    requires interval >= 1.0
    requires Later(next, k, interval) > ts
    requires k > 0 ==> Later(next, k - 1, interval) <= ts
    ensures k == SettlementsDue(next, ts, interval)
  {
    if k > 0 {
      var q := (ts - next) / interval;
      assert q * interval == ts - next;
      assert (k - 1) as real <= q by {
        if q < (k - 1) as real { MulStrict(q, (k - 1) as real, interval); }
      }
      assert q < k as real by {
        if q > k as real { MulStrict(k as real, q, interval); }
      }
      assert (k - 1) as real * interval >= 0.0;
    }
  }

  lemma SettlementsDueBounds(next: real, ts: real, interval: real)
    requires interval >= 1.0
    ensures var k := SettlementsDue(next, ts, interval);
            && Later(next, k, interval) > ts
            && (k > 0 ==> Later(next, k - 1, interval) <= ts)
  {
    if next <= ts {
      var q := (ts - next) / interval;
      var f := q.Floor;
      assert q * interval == ts - next;
      assert f as real * interval <= q * interval;
      assert (f + 1) as real * interval > q * interval;
    }
  }

  function PerSettlement(notional: real, rate: real): real { notional * rate }

  function Payments(count: int, each: real): real { count as real * each }

  lemma PaymentsAdd(a: int, b: int, each: real)
    ensures Payments(a + b, each) == Payments(a, each) + Payments(b, each)
    ensures Payments(0, each) == 0.0
  {
  }

  /** What one row does to the funding of a position, in closed form. */
  function Accrued(p: Position, row: Row): Position {
    AccruedAt(p, row, OrElse(row.ts, p.lastTs), OrElse(row.fundingInterval, Max(p.interval, 1.0)))
  }

  /** The same with the row's time and funding interval read as `ts` and `fundingInterval`. */
  function AccruedAt(p: Position, row: Row, ts: real, fundingInterval: real): Position {
    var interval := Max(p.interval, 1.0);
    var due := if p.nextFunding.Some? then SettlementsDue(p.nextFunding.value, ts, interval) else 0;
    p.(fundingPnl := p.fundingPnl + Payments(due, PerSettlement(p.notional, p.lastRate)),
       lastTs := ts,
       lastRate := OrElse(row.fundingRate, 0.0),
       interval := Max(fundingInterval, 1.0),
       nextFunding :=
         (if p.nextFunding.Some? then Some(Later(p.nextFunding.value, due, interval))
          else if GetOr(row.nextFundingTs, 0.0) > ts then Some(GetOr(row.nextFundingTs, 0.0)) else None),
       settlements := p.settlements + due)
  }

  lemma OneMore(next: real, count: nat, interval: real, each: real)
    ensures Later(next, count + 1, interval) == Later(next, count, interval) + interval
    ensures Payments(count + 1, each) == Payments(count, each) + each
    ensures Later(next, 0, interval) == next && Payments(0, each) == 0.0
  {
  }

  /** The settlement loop of the program terminates and meets the closed form. */
  method AccrueFunding(p: Position, row: Row) returns (r: Position)
    ensures r == Accrued(p, row)
  {
    var ts := OrElse(row.ts, p.lastTs);
    var interval := Max(p.interval, 1.0);
    var fundingPnl, settlements, next := p.fundingPnl, p.settlements, p.nextFunding;
    ghost var k: nat := 0;
    ghost var each := PerSettlement(p.notional, p.lastRate);
    OneMore(GetOr(next, 0.0), 0, interval, each);
    hide Payments, Later, SettlementsDue;
    while next.Some? && next.value <= ts
      invariant next.Some? == p.nextFunding.Some?
      invariant settlements == p.settlements + k
      invariant fundingPnl == p.fundingPnl + Payments(k, PerSettlement(p.notional, p.lastRate))
      invariant next.Some? ==> next.value == Later(p.nextFunding.value, k, interval)
      invariant k > 0 ==> next.Some? && Later(p.nextFunding.value, k - 1, interval) <= ts
      decreases if next.Some? && next.value <= ts then (ts - next.value).Floor + 1 else 0
    {
      fundingPnl := fundingPnl + p.notional * p.lastRate;
      settlements := settlements + 1;
      next := Some(next.value + interval);
      OneMore(p.nextFunding.value, k, interval, each);
      k := k + 1;
    }
    if next.Some? {
      SettlementsDueUnique(p.nextFunding.value, ts, interval, k);
    } else if GetOr(row.nextFundingTs, 0.0) > ts {
      next := Some(GetOr(row.nextFundingTs, 0.0));
    }
    r := p.(fundingPnl := fundingPnl, lastTs := ts, lastRate := OrElse(row.fundingRate, 0.0),
            interval := Max(OrElse(row.fundingInterval, interval), 1.0), nextFunding := next, settlements := settlements);
  }

  /** Nothing due is left unpaid, nothing is paid early, and only the rate known before the row counts. */
  lemma AccrualIsExact(p: Position, row: Row)
    ensures var q, ts := Accrued(p, row), OrElse(row.ts, p.lastTs);
            && (q.nextFunding.Some? ==> q.nextFunding.value > ts)
            && (p.nextFunding.Some? && q.settlements > p.settlements
                ==> q.nextFunding.value - Max(p.interval, 1.0) <= ts)
            && q.fundingPnl - p.fundingPnl == Payments(q.settlements - p.settlements, PerSettlement(p.notional, p.lastRate))
  {
    if p.nextFunding.Some? {
      var ts, interval := OrElse(row.ts, p.lastTs), Max(p.interval, 1.0);
      SettlementsDueBounds(p.nextFunding.value, ts, interval);
      var due := SettlementsDue(p.nextFunding.value, ts, interval);
      assert due as real * interval - interval == (due as real - 1.0) * interval;
    }
  }

  /** Looking at an intermediate row with an unchanged rate and interval makes no difference. */
  lemma {:induction false} AccrualIgnoresIntermediateRows(p: Position, between: Row, row: Row)
    requires p.nextFunding.Some? && p.interval >= 1.0
    requires OrElse(between.fundingRate, 0.0) == p.lastRate
    requires Max(OrElse(between.fundingInterval, p.interval), 1.0) == p.interval
    requires row.ts.Some? && row.ts.value != 0.0 && OrElse(between.ts, p.lastTs) <= row.ts.value
    ensures Accrued(Accrued(p, between), row) == Accrued(p, row)
  {
    var next, i, t0, t1 := p.nextFunding.value, p.interval, OrElse(between.ts, p.lastTs), row.ts.value;
    hide SettlementsDue;
    hide PerSettlement;
    hide Payments;
    hide Later;
    SettlementsDueSplit(next, t0, t1, i);
    var a := SettlementsDue(next, t0, i);
    PaymentsAdd(a, SettlementsDue(Later(next, a, i), t1, i), PerSettlement(p.notional, p.lastRate));
    var q := Accrued(p, between);
    assert q.nextFunding == Some(Later(next, a, i)) && q.interval == i && q.lastRate == p.lastRate;
  }

  /** Counting up to one time and from there to a later one counts everything once. */
  lemma LaterAdds(next: real, a: int, b: int, i: real)
    ensures Later(Later(next, a, i), b, i) == Later(next, a + b, i)
  {
    Distribute(a as real, b as real, i);
  }

  lemma SettlementsDueSplit(next: real, t0: real, t1: real, i: real)
    requires i >= 1.0 && t0 <= t1
    ensures var a := SettlementsDue(next, t0, i);
            var b := SettlementsDue(Later(next, a, i), t1, i);
            SettlementsDue(next, t1, i) == a + b && Later(Later(next, a, i), b, i) == Later(next, a + b, i)
  {
    hide Later, SettlementsDue;
    var a := SettlementsDue(next, t0, i);
    SettlementsDueBounds(next, t0, i);
    var mid := Later(next, a, i);
    var b := SettlementsDue(mid, t1, i);
    SettlementsDueBounds(mid, t1, i);
    LaterAdds(next, a, b, i);
    if b > 0 { LaterAdds(next, a, b - 1, i); }
    SettlementsDueUnique(next, t1, i, a + b);
  }

  function SpotExit(p: Position, row: Row): real { OrElse(row.spotBid, OrElse(row.spotMid, p.spotEntry)) }

  function PerpExit(p: Position, row: Row): real { OrElse(row.perpAsk, OrElse(row.perpMark, p.perpEntry)) }

  function Close(p: Position, row: Row, cfg: Config, reason: string): Trade {
    var basisPnl := (SpotExit(p, row) - p.spotEntry) * p.spotQty + (p.perpEntry - PerpExit(p, row)) * p.perpQty;
    var exitFees := Fee(p.notional, SpotFee(cfg, p.exchange)) + Fee(p.notional, PerpFee(cfg, p.exchange));
    var fees := p.entryFee + exitFees;
    var slippage := p.entrySlippage + Fee(p.notional * 2.0, Slippage(cfg, p.exchange));
    Trade(p.market, p.exchange, p.entryTs, OrElse(row.ts, p.lastTs), p.notional,
          p.fundingPnl, basisPnl, fees, slippage, basisPnl + p.fundingPnl - (fees + slippage), reason, p.settlements)
  }

  // ---- Expected carry and realised profit ----

  function Held(p: Position, rows: seq<Row>): Position {
    if rows == [] then p else Accrued(Held(p, rows[..|rows| - 1]), rows[|rows| - 1])
  }

  /** Under a constant rate the accrued funding is that rate on the notional, once per settlement. */
  lemma {:induction false} ConstantRateFunding(p: Position, rows: seq<Row>, rate: real)
    requires p.lastRate == rate && forall r :: r in rows ==> OrElse(r.fundingRate, 0.0) == rate
    ensures var q := Held(p, rows);
            && q == p.(fundingPnl := q.fundingPnl, lastTs := q.lastTs, interval := q.interval,
                       nextFunding := q.nextFunding, settlements := q.settlements)
            && q.settlements >= p.settlements
            && q.fundingPnl == p.fundingPnl + Payments(q.settlements - p.settlements, PerSettlement(p.notional, rate))
  {
    hide SettlementsDue;
    hide PerSettlement;
    hide Payments;
    PaymentsAdd(0, 0, PerSettlement(p.notional, rate));
    if rows != [] {
      ConstantRateFunding(p, rows[..|rows| - 1], rate);
      var q0 := Held(p, rows[..|rows| - 1]);
      var q := Accrued(q0, rows[|rows| - 1]);
      AccrualIsExact(q0, rows[|rows| - 1]);
      PaymentsAdd(q.settlements - q0.settlements, q0.settlements - p.settlements, PerSettlement(p.notional, rate));
      assert (q.settlements - q0.settlements) + (q0.settlements - p.settlements) == q.settlements - p.settlements;
    }
  }

  lemma RoundTripFees(notional: real, spotFee: real, perpFee: real, slippage: real)
    requires notional >= 0.0
    ensures 2.0 * (Fee(notional, spotFee) + Fee(notional, perpFee)) + 2.0 * Fee(notional * 2.0, slippage)
         == notional * RoundTripCostBps(spotFee, perpFee, slippage) / 10_000.0
  {
  }

  lemma LegProfit(exit: real, entry: Price, notional: real, ratio: real)
    requires exit == ratio * entry
    ensures (exit - entry) * (notional / entry) == notional * (ratio - 1.0)
  {
    var q := notional / entry;
    assert q * entry == notional;
    assert (exit - entry) * q == (ratio - 1.0) * (entry * q);
  }

  /** Ex-ante carry is ex-post profit: opened on one row, held over any rows at a constant rate and
      closed with both legs moved by the same ratio, a trade earns what the scanner's formula
      expects of as many intervals as were settled, at the venue's own round-trip cost. */
  lemma ExpectedCarryIsRealised(market: string, entry: Row, held: seq<Row>, exit: Row, cfg: Config,
                                rate: real, ratio: real, reason: string)
    requires entry.spotAsk.Some? && entry.perpBid.Some? && cfg.notional >= 0.0
    requires OrElse(entry.fundingRate, 0.0) == rate
    requires forall r :: r in held ==> OrElse(r.fundingRate, 0.0) == rate
    requires SpotExit(Held(Open(market, entry, cfg), held), exit) == ratio * entry.spotAsk.value
    requires PerpExit(Held(Open(market, entry, cfg), held), exit) == ratio * entry.perpBid.value
    ensures var p := Held(Open(market, entry, cfg), held);
            var cost := RoundTripCostBps(SpotFee(cfg, entry.exchange), PerpFee(cfg, entry.exchange), Slippage(cfg, entry.exchange));
            Close(p, exit, cfg, reason).net
              == cfg.notional * ExpectedNetCarryBps(rate, p.settlements as real, cost) / 10_000.0
  {
    hide SettlementsDue;
    hide Fee;
    hide RoundTripCostBps;
    hide ExpectedNetCarryBps;
    hide Close;
    hide Accrued;
    var p0 := Open(market, entry, cfg);
    ConstantRateFunding(p0, held, rate);
    var p := Held(p0, held);
    NeutralTradeNet(p, exit, cfg, ratio, reason);
    hide Payments;
    CarryAlgebra(cfg.notional, p.settlements, rate,
                 RoundTripCostBps(SpotFee(cfg, entry.exchange), PerpFee(cfg, entry.exchange), Slippage(cfg, entry.exchange)));
  }

  lemma CarryAlgebra(notional: real, k: nat, rate: real, cost: real)
    ensures notional * ExpectedNetCarryBps(rate, k as real, cost) / 10_000.0
         == Payments(k, PerSettlement(notional, rate)) - notional * cost / 10_000.0
  {
  }

  /** A trade whose legs moved by the same ratio nets its funding minus both sides of the costs. */
  lemma NeutralTradeNet(p: Position, exit: Row, cfg: Config, ratio: real, reason: string)
    requires p.notional == cfg.notional && cfg.notional >= 0.0
    requires p.spotQty == cfg.notional / p.spotEntry && p.perpQty == cfg.notional / p.perpEntry
    requires p.entryFee == Fee(cfg.notional, SpotFee(cfg, p.exchange)) + Fee(cfg.notional, PerpFee(cfg, p.exchange))
    requires p.entrySlippage == Fee(cfg.notional * 2.0, Slippage(cfg, p.exchange))
    requires SpotExit(p, exit) == ratio * p.spotEntry && PerpExit(p, exit) == ratio * p.perpEntry
    ensures Close(p, exit, cfg, reason).net == p.fundingPnl - cfg.notional
      * RoundTripCostBps(SpotFee(cfg, p.exchange), PerpFee(cfg, p.exchange), Slippage(cfg, p.exchange)) / 10_000.0
  {
    hide Fee;
    hide RoundTripCostBps;
    RoundTripFees(cfg.notional, SpotFee(cfg, p.exchange), PerpFee(cfg, p.exchange), Slippage(cfg, p.exchange));
    LegProfit(SpotExit(p, exit), p.spotEntry, cfg.notional, ratio);
    LegProfit(PerpExit(p, exit), p.perpEntry, cfg.notional, ratio);
    Distribute(PerpExit(p, exit) - p.perpEntry, p.perpEntry - PerpExit(p, exit), p.perpQty);
  }

  /** Without overrides for the venue that cost is the configured one, the scanner's own. */
  lemma NoOverridesMeansConfiguredCost(cfg: Config, exchange: string)
    requires VenueKey(exchange) !in cfg.spotFeeByVenue && VenueKey(exchange) !in cfg.perpFeeByVenue
    requires VenueKey(exchange) !in cfg.slippageByVenue
    ensures RoundTripCostBps(SpotFee(cfg, exchange), PerpFee(cfg, exchange), Slippage(cfg, exchange))
         == RoundTripCostBps(cfg.spotFeeBps, cfg.perpFeeBps, cfg.slippageBps)
  {
  }
}
