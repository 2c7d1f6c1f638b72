/** Rows, configuration, positions and trades of the funding-carry backtest (basis.py). */
module FundingTypes {
  import opened Sequences

  /** One scanned row of a market; an absent or non-numeric field is `None`. */
  datatype Row = Row(
    exchange: string, spotSymbol: string, perpSymbol: string,
    ts: Option<real>, fundingRate: Option<real>, fundingInterval: Option<real>, nextFundingTs: Option<real>,
    spotBid: Option<real>, spotMid: Option<real>, spotAsk: Option<Price>,
    perpBid: Option<Price>, perpAsk: Option<real>, perpMark: Option<real>,
    totalScore: Option<real>, spotSpread: Option<real>, perpSpread: Option<real>, basis: Option<real>,
    expectedCarry: Option<real>, breakEvenHours: Option<real>, spotTopNotional: Option<real>)

  /** What the rolling statistics add to a row; they are a function of the rows seen so far. */
  datatype Rolling = Rolling(
    riskAdjustedEdge: Option<real>, fundingObservations: int, positiveRatio: Option<real>,
    persistenceScore: Option<real>, regimeObservations: int, volumeAverage: Option<real>,
    spotTopAverage: Option<real>, basisStd: Option<real>, spotSpreadAverage: Option<real>, perpSpreadAverage: Option<real>)

  datatype View = View(row: Row, rolling: Rolling)

  datatype Config = Config(
    notional: real, spotFeeBps: real, perpFeeBps: real, slippageBps: real,
    spotFeeByVenue: map<string, real>, perpFeeByVenue: map<string, real>, slippageByVenue: map<string, real>,
    minFundingRate: real, minTotalScore: real, maxSpotSpread: real, maxPerpSpread: real,
    maxAbsBasis: real, minBasis: real, minExpectedCarry: real, minRiskAdjustedEdge: real,
    maxBreakEvenHours: real, minFundingObservations: int, minPositiveRatio: real, minPersistenceScore: real,
    minRegimeObservations: int, minVolume: real, minSpotTopNotional: real,
    maxBasisStd: real, maxAverageSpotSpread: real, maxAveragePerpSpread: real)

  datatype Position = Position(
    market: string, exchange: string, entryTs: real, spotEntry: Price, perpEntry: Price,
    spotQty: real, perpQty: real, notional: real, entryFee: real, entrySlippage: real,
    fundingPnl: real, lastTs: real, lastRate: real, interval: real, nextFunding: Option<real>, settlements: nat)

  datatype Trade = Trade(
    market: string, exchange: string, entryTs: real, exitTs: real, notional: real,
    fundingPnl: real, basisPnl: real, fees: real, slippage: real, net: real, reason: string, settlements: nat)

  const HUGE := 1_000_000_000.0

  /** `row.get(key, default)` through `_row_float`: only a missing value takes the default. */
  function GetOr(x: Option<real>, default: real): real { if x.Some? then x.value else default }

  /** `row.get(key) or default`: a value of zero takes the default as well. */
  function OrElse(x: Option<real>, default: real): real {
    if x.Some? && x.value != 0.0 then x.value else default
  }

  function SortKey(row: Row): real { OrElse(row.ts, 0.0) }

  predicate NotLater(a: Row, b: Row) { SortKey(a) <= SortKey(b) }

  function MarketKey(row: Row): string { row.exchange + ":" + row.spotSymbol + ":" + row.perpSymbol }
}
